/**
 The decoder of the dashboard's Basic credentials. It keeps all bits in one 32-bit accumulator that
 wraps on longer inputs, and stops at the first character outside the alphabet; it still inverts
 the encoding of section 4 of RFC 4648, padding included.
 */
module Base64 {

  type Byte = x: int | 0 <= x < 256

  const PAD: Byte := 61
  const WORD := 0x1_0000_0000

  /** The alphabet: A-Z, a-z, 0-9, + and /, in ASCII. */
  function Symbol(v: int): Byte
    requires 0 <= v < 64
  {
    if v < 26 then v + 65 else if v < 52 then v + 71 else if v < 62 then v - 4 else if v == 62 then 43 else 47
  }

  /** The value of an alphabet character, -1 for any other. */
  function Sextet(c: Byte): int {
    if 65 <= c <= 90 then c - 65
    else if 97 <= c <= 122 then c - 71
    else if 48 <= c <= 57 then c + 4
    else if c == 43 then 62
    else if c == 47 then 63
    else -1
  }

  lemma SymbolsHaveValues(v: int)
    requires 0 <= v < 64
    ensures Sextet(Symbol(v)) == v && Sextet(PAD) == -1
  {
  }

  lemma SextetFindsSymbol(c: Byte)
    ensures Sextet(c) == -1 || (0 <= Sextet(c) < 64 && Symbol(Sextet(c)) == c)
  {
  }

  // ---- The encoding of section 4 of RFC 4648 ----

  /** The four six-bit values of three bytes. */
  function Values(a: Byte, b: Byte, c: Byte): (g: seq<int>)
    ensures |g| == 4 && forall i :: 0 <= i < 4 ==> 0 <= g[i] < 64
  {
    [a / 4, a % 4 * 16 + b / 16, b % 16 * 4 + c / 64, c % 64]
  }

  function Symbols(g: seq<int>): seq<Byte>
    requires forall i :: 0 <= i < |g| ==> 0 <= g[i] < 64
  {
    seq(|g|, i requires 0 <= i < |g| => Symbol(g[i]))
  }

  function Encode(bs: seq<Byte>): seq<Byte> {
    if bs == [] then []
    else if |bs| == 1 then Symbols(Values(bs[0], 0, 0)[..2]) + [PAD, PAD]
    else if |bs| == 2 then Symbols(Values(bs[0], bs[1], 0)[..3]) + [PAD]
    else Symbols(Values(bs[0], bs[1], bs[2])) + Encode(bs[3..])
  }

  /** The vectors for "f", "fo" and "foo" in section 10 of RFC 4648. */
  lemma TestVectors()
    ensures Encode([102]) == [90, 103, 61, 61]
    ensures Encode([102, 111]) == [90, 109, 56, 61]
    ensures Encode([102, 111, 111]) == [90, 109, 57, 118]
  {
    var one, two, three := Values(102, 0, 0), Values(102, 111, 0), Values(102, 111, 111);
    assert one[..2] == [25, 32] && two[..3] == [25, 38, 60] && three == [25, 38, 61, 47];
    hide Values;
    assert Symbols([25, 32]) == [90, 103] && Symbols([25, 38, 60]) == [90, 109, 56];
    assert Symbols([25, 38, 61, 47]) == [90, 109, 57, 118];
    hide Symbols;
    var foo: seq<Byte> := [102, 111, 111];
    assert foo[3..] == [] && Encode([]) == [];
  }

  // ---- The decoder ----

  /** The accumulator as its 32 bits, the number of bits waiting less eight, and the output. */
  datatype Decoder = Decoder(val: nat, valb: int, out: seq<Byte>)
  {
    predicate Valid() { valb == -8 || valb == -6 || valb == -4 || valb == -2 }
  }

  const FRESH := Decoder(0, -8, [])

  function ShiftRight(x: nat, n: nat): nat {
    if n == 0 then x else ShiftRight(x / 2, n - 1)
  }

  function Feed(d: Decoder, t: int): (e: Decoder)
    requires 0 <= t < 64 && d.Valid()
    ensures e.Valid()
  {
    var val := (d.val * 64 + t) % WORD;
    var valb := d.valb + 6;
    if valb >= 0 then Decoder(val, valb - 8, d.out + [ShiftRight(val, valb) % 256]) else Decoder(val, valb, d.out)
  }

  function DecodeFrom(d: Decoder, s: seq<Byte>): seq<Byte>
    requires d.Valid()
    decreases |s|
  {
    if s == [] || Sextet(s[0]) == -1 then d.out else DecodeFrom(Feed(d, Sextet(s[0])), s[1..])
  }

  function Decode(s: seq<Byte>): seq<Byte> {
    DecodeFrom(FRESH, s)
  }

  // ---- The wrap never reaches the bits that are read ----

  /** The low twelve bits of the accumulator are the last two values fed, whatever wrapped. */
  lemma LowBits(val: nat, t: int)
    requires 0 <= t < 64
    ensures (val * 64 + t) % WORD % 4096 == val % 64 * 64 + t
  {
    var x := val * 64 + t;
    var q, h := x / WORD, val / 64;
    assert x == WORD * q + x % WORD;
    assert val == 64 * h + val % 64;
    assert x % WORD == 4096 * (h - 0x10_0000 * q) + (val % 64 * 64 + t);
  }

  /** The byte read at a shift of at most four bits comes from the low twelve. */
  lemma ByteFromLowBits(val: nat, prev: int, t: int)
    requires 0 <= prev < 64 && 0 <= t < 64 && val % 4096 == prev * 64 + t
    ensures val % 64 == t
    ensures ShiftRight(val, 4) % 256 == prev * 4 + t / 16
    ensures ShiftRight(val, 2) % 256 == prev % 16 * 16 + t / 4
    ensures ShiftRight(val, 0) % 256 == prev % 4 * 64 + t
  {
    hide ShiftRight;
    ShiftFour(val);
    var h := val / 4096;
    assert val == 4096 * h + prev * 64 + t;
    ByteAtFour(h, prev, t);
    ByteAtTwo(h, prev, t);
    ByteAtZero(h, prev, t);
    LastSix(64 * h + prev, t);
  }

  lemma LastSix(h: nat, t: int)
    requires 0 <= t < 64
    ensures (64 * h + t) % 64 == t
  {
  }

  lemma Quotient(x: int, d: int, q: int, r: int)
    requires 0 < d && x == d * q + r && 0 <= r < d
    ensures x / d == q
  {
    NoOtherQuotient(d, x / d - q, r - x % d);
  }

  lemma NoOtherQuotient(d: int, q: int, r: int)
    requires 0 < d && d * q == r && -d < r < d
    ensures q == 0
  {
  }

  lemma ByteAtFour(h: nat, prev: int, t: int)
    requires 0 <= prev < 64 && 0 <= t < 64
    ensures (4096 * h + prev * 64 + t) / 16 % 256 == prev * 4 + t / 16
  {
    Quotient(4096 * h + prev * 64 + t, 16, 256 * h + (prev * 4 + t / 16), t % 16);
    LastEight(h, prev * 4 + t / 16);
  }

  lemma ByteAtTwo(h: nat, prev: int, t: int)
    requires 0 <= prev < 64 && 0 <= t < 64
    ensures (4096 * h + prev * 64 + t) / 4 % 256 == prev % 16 * 16 + t / 4
  {
    Quotient(4096 * h + prev * 64 + t, 4, 256 * (4 * h + prev / 16) + (prev % 16 * 16 + t / 4), t % 4);
    LastEight(4 * h + prev / 16, prev % 16 * 16 + t / 4);
  }

  lemma LastEight(h: nat, b: int)
    requires 0 <= b < 256
    ensures (256 * h + b) % 256 == b
  {
  }

  lemma ByteAtZero(h: nat, prev: int, t: int)
    requires 0 <= prev < 64 && 0 <= t < 64
    ensures (4096 * h + prev * 64 + t) % 256 == prev % 4 * 64 + t
  {
    var b := prev % 4 * 64 + t;
    assert 4096 * h + prev * 64 + t == 256 * (16 * h + prev / 4) + b;
    LastEight(16 * h + prev / 4, b);
  }

  lemma ShiftFour(x: nat)
    ensures ShiftRight(x, 4) == x / 16 && ShiftRight(x, 2) == x / 4 && ShiftRight(x, 0) == x
  {
    assert ShiftRight(x, 1) == x / 2 && ShiftRight(x / 2, 1) == x / 2 / 2 && ShiftRight(x, 2) == x / 2 / 2;
    assert ShiftRight(x / 4, 1) == x / 4 / 2 && ShiftRight(x / 4, 2) == ShiftRight(x / 4 / 2, 1) == x / 4 / 2 / 2;
    assert ShiftRight(x, 4) == ShiftRight(x / 2, 3) == ShiftRight(x / 4, 2);
  }

  /** What one character adds, in terms of the value fed just before it. */
  lemma Fed(d: Decoder, prev: int, t: int)
    requires 0 <= t < 64 && 0 <= prev < 64 && d.val % 64 == prev && d.Valid()
    ensures var e := Feed(d, t);
            && e.val % 64 == t
            && (d.valb == -8 ==> e.valb == -2 && e.out == d.out)
            && (d.valb == -2 ==> e.valb == -4 && e.out == d.out + [prev * 4 + t / 16])
            && (d.valb == -4 ==> e.valb == -6 && e.out == d.out + [prev % 16 * 16 + t / 4])
            && (d.valb == -6 ==> e.valb == -8 && e.out == d.out + [prev % 4 * 64 + t])
  {
    LowBits(d.val, t);
    ByteFromLowBits((d.val * 64 + t) % WORD, prev, t);
    hide ShiftRight;
  }

  // ---- The round trip ----

  /** The decoder after the first n characters of a group. */
  function After(d: Decoder, g: seq<int>): (e: Decoder)
    requires d.Valid() && forall i :: 0 <= i < |g| ==> 0 <= g[i] < 64
    ensures e.Valid()
  {
    if g == [] then d else Feed(After(d, g[..|g| - 1]), g[|g| - 1])
  }

  lemma FeedGroup(d: Decoder, a: Byte, b: Byte, c: Byte)
    requires d.valb == -8
    ensures var g := Values(a, b, c);
            && After(d, g[..2]).out == d.out + [a]
            && After(d, g[..3]).out == d.out + [a, b]
            && After(d, g).out == d.out + [a, b, c] && After(d, g).valb == -8
  {
    hide Feed, Values, After;
    var g := Values(a, b, c);
    AfterPrefixes(d, g);
    var d1, d2, d3 := After(d, g[..1]), After(d, g[..2]), After(d, g[..3]);
    Fed(d, d.val % 64, g[0]);
    Fed(d1, g[0], g[1]);
    Fed(d2, g[1], g[2]);
    Fed(d3, g[2], g[3]);
    Regroup(a, b, c);
  }

  lemma AfterPrefixes(d: Decoder, g: seq<int>)
    requires d.Valid() && |g| == 4 && forall i :: 0 <= i < 4 ==> 0 <= g[i] < 64
    ensures After(d, g[..1]) == Feed(d, g[0])
    ensures After(d, g[..2]) == Feed(After(d, g[..1]), g[1])
    ensures After(d, g[..3]) == Feed(After(d, g[..2]), g[2])
    ensures After(d, g) == Feed(After(d, g[..3]), g[3])
  {
    hide Feed;
    assert g[..3][..2] == g[..2] && g[..2][..1] == g[..1] && g[..1][..0] == [];
    assert After(d, g[..1][..0]) == d;
  }

  /** The bytes read from a group's values are the bytes they were made of. */
  lemma Regroup(a: Byte, b: Byte, c: Byte)
    ensures var g := Values(a, b, c);
            && g[0] * 4 + g[1] / 16 == a
            && g[1] % 16 * 16 + g[2] / 4 == b
            && g[2] % 4 * 64 + g[3] == c
  {
  }

  /** Alphabet characters are fed one by one. */
  lemma {:induction false} DecodeSymbols(d: Decoder, g: seq<int>, rest: seq<Byte>)
    requires d.Valid() && forall i :: 0 <= i < |g| ==> 0 <= g[i] < 64
    ensures DecodeFrom(d, Symbols(g) + rest) == DecodeFrom(After(d, g), rest)
    decreases |g|
  {
    if g == [] {
      assert Symbols(g) + rest == rest;
    } else {
      var n := |g| - 1;
      DecodeSymbols(d, g[..n], [Symbol(g[n])] + rest);
      assert Symbols(g) + rest == Symbols(g[..n]) + ([Symbol(g[n])] + rest);
      SymbolsHaveValues(g[n]);
      assert ([Symbol(g[n])] + rest)[1..] == rest;
    }
  }

  lemma {:induction false} DecodeFromEncode(d: Decoder, bs: seq<Byte>)
    requires d.valb == -8
    ensures DecodeFrom(d, Encode(bs)) == d.out + bs
    decreases |bs|
  {
    hide After, Values, Symbols, Encode, DecodeFrom;
    if bs == [] {
      NothingLeft(d);
    } else {
      var b, c: Byte := if |bs| > 1 then bs[1] else 0, if |bs| > 2 then bs[2] else 0;
      var g := Values(bs[0], b, c);
      FeedGroup(d, bs[0], b, c);
      EncodeUnfolds(bs, b, c);
      if |bs| > 2 {
        DecodeSymbols(d, g, Encode(bs[3..]));
        DecodeFromEncode(After(d, g), bs[3..]);
        assert bs == [bs[0], b, c] + bs[3..];
      } else if |bs| == 2 {
        DecodeSymbols(d, g[..3], [PAD]);
        StopsAtPad(After(d, g[..3]), [PAD]);
      } else {
        DecodeSymbols(d, g[..2], [PAD, PAD]);
        StopsAtPad(After(d, g[..2]), [PAD, PAD]);
      }
    }
  }

  lemma NothingLeft(d: Decoder)
    requires d.Valid()
    ensures DecodeFrom(d, Encode([])) == d.out
  {
  }

  lemma StopsAtPad(d: Decoder, s: seq<Byte>)
    requires d.Valid() && s != [] && s[0] == PAD
    ensures DecodeFrom(d, s) == d.out
  {
  }

  lemma EncodeUnfolds(bs: seq<Byte>, b: Byte, c: Byte)
    requires bs != [] && b == (if |bs| > 1 then bs[1] else 0) && c == (if |bs| > 2 then bs[2] else 0)
    ensures var g := Values(bs[0], b, c);
            Encode(bs) == if |bs| == 1 then Symbols(g[..2]) + [PAD, PAD]
            else if |bs| == 2 then Symbols(g[..3]) + [PAD]
            else Symbols(g) + Encode(bs[3..])
  {
  }

  /** Decoding the encoding of any bytes gives them back, however long they are. */
  lemma RoundTrip(bs: seq<Byte>)
    ensures Decode(Encode(bs)) == bs
  {
    DecodeFromEncode(FRESH, bs);
  }

  /** So no two byte strings share an encoding. */
  lemma EncodeInjective(bs: seq<Byte>, cs: seq<Byte>)
    requires Encode(bs) == Encode(cs)
    ensures bs == cs
  {
    RoundTrip(bs);
    RoundTrip(cs);
  }

  // ---- The loop ----

  method BuildTable() returns (table: array<int>)
    ensures table.Length == 256 && forall c: Byte :: table[c] == Sextet(c)
  {
    table := new int[256](_ => -1);
    for v := 0 to 64
      invariant forall c: Byte :: table[c] == if Sextet(c) < v then Sextet(c) else -1
    {
      SymbolsHaveValues(v);
      forall c: Byte | Sextet(c) == v
        ensures c == Symbol(v)
      {
        SextetFindsSymbol(c);
      }
      table[Symbol(v)] := v;
    }
    forall c: Byte
      ensures Sextet(c) < 64
    {
      SextetFindsSymbol(c);
    }
  }

  method Base64Decode(input: seq<Byte>) returns (out: seq<Byte>)
    ensures out == Decode(input)
  {
    var table := BuildTable();
    var val: nat, valb: int := 0, -8;
    out := [];
    var i := 0;
    while i < |input|
      invariant i <= |input| && Decoder(val, valb, out).Valid()
      invariant table.Length == 256 && forall c: Byte :: table[c] == Sextet(c)
      invariant Decode(input) == DecodeFrom(Decoder(val, valb, out), input[i..])
    {
      ghost var d := Decoder(val, valb, out);
      var c := input[i];
      var t := table[c];
      assert t == Sextet(c);
      SextetFindsSymbol(c);
      assert input[i..][0] == input[i] && input[i..][1..] == input[i + 1..];
      if t == -1 {
        assert DecodeFrom(d, input[i..]) == d.out;
        return;
      }
      val := (val * 64 + t) % WORD;
      valb := valb + 6;
      if valb >= 0 {
        out := out + [ShiftRight(val, valb) % 256];
        valb := valb - 8;
      }
      assert Decoder(val, valb, out) == Feed(d, t);
      i := i + 1;
    }
    assert input[i..] == [];
  }
}
