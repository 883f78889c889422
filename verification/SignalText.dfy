/**
 Repairing the text of a webhook signal before it is parsed again: runs of quotes are collapsed to
 one, and a value whose closing quote is missing before the next key gets one inserted, by a loop
 that grows the very string it walks over.
 */
module SignalText {

  // ---- Collapsing runs of quotes ----

  /** The text without the quotes that directly follow a quote. */
  function Collapse(s: string): string {
    if s == [] then []
    else
      var n := |s| - 1;
      Collapse(s[..n]) + if s[n] == '"' && n > 0 && s[n - 1] == '"' then [] else [s[n]]
  }

  ghost predicate NoAdjacentQuotes(s: string) {
    forall i :: 0 < i < |s| && s[i - 1] == '"' ==> s[i] != '"'
  }

  function WithoutQuotes(s: string): string {
    if s == [] then [] else WithoutQuotes(s[..|s| - 1]) + if s[|s| - 1] == '"' then [] else [s[|s| - 1]]
  }

  lemma {:induction false} CollapseKeepsLast(s: string)
    requires s != []
    ensures Collapse(s) != [] && Collapse(s)[|Collapse(s)| - 1] == s[|s| - 1]
  {
    if s[|s| - 1] == '"' && |s| > 1 && s[|s| - 2] == '"' {
      CollapseKeepsLast(s[..|s| - 1]);
    }
  }

  /** Collapsing leaves no two adjacent quotes, and loses nothing but quotes. */
  lemma {:induction false} CollapseLeavesNoRuns(s: string)
    ensures NoAdjacentQuotes(Collapse(s)) && WithoutQuotes(Collapse(s)) == WithoutQuotes(s)
  {
    if s != [] {
      var n := |s| - 1;
      CollapseLeavesNoRuns(s[..n]);
      if n > 0 {
        CollapseKeepsLast(s[..n]);
      }
      if s[n] == '"' && n > 0 && s[n - 1] == '"' {
        assert Collapse(s) == Collapse(s[..n]) && WithoutQuotes(s) == WithoutQuotes(s[..n]);
      } else {
        assert Collapse(s)[..|Collapse(s)| - 1] == Collapse(s[..n]);
      }
    }
  }

  /** It changes a text exactly when there are adjacent quotes. */
  lemma {:induction false} CollapseIsIdentityIff(s: string)
    ensures Collapse(s) == s <==> NoAdjacentQuotes(s)
  {
    if NoAdjacentQuotes(s) {
      NoRunsNoChange(s);
    } else {
      CollapseLeavesNoRuns(s);
    }
  }

  lemma {:induction false} NoRunsNoChange(s: string)
    requires NoAdjacentQuotes(s)
    ensures Collapse(s) == s
  {
    if s != [] {
      NoRunsNoChange(s[..|s| - 1]);
    }
  }

  lemma CollapseIdempotent(s: string)
    ensures Collapse(Collapse(s)) == Collapse(s)
  {
    CollapseLeavesNoRuns(s);
    NoRunsNoChange(Collapse(s));
  }

  lemma CollapseNext(s: string, i: nat)
    requires i < |s|
    ensures Collapse(s[..i + 1]) == Collapse(s[..i]) + if s[i] == '"' && i > 0 && s[i - 1] == '"' then [] else [s[i]]
  {
    assert s[..i + 1][..i] == s[..i];
  }

  method CollapseQuotes(body: string) returns (sanitized: string)
    ensures sanitized == Collapse(body)
  {
    sanitized := [];
    var i := 0;
    assert Collapse(body[..0]) == [];
    hide Collapse;
    while i < |body|
      invariant i <= |body| && sanitized == Collapse(body[..i])
      invariant 0 < i < |body| && body[i - 1] == '"' ==> body[i] != '"'
    {
      CollapseNext(body, i);
      sanitized := sanitized + [body[i]];
      if body[i] == '"' {
        while i + 1 < |body| && body[i + 1] == '"'
          invariant i < |body| && body[i] == '"' && sanitized == Collapse(body[..i + 1])
          decreases |body| - i
        {
          CollapseNext(body, i + 1);
          i := i + 1;
        }
      }
      i := i + 1;
    }
    assert body[..i] == body;
  }

  // ---- Inserting missing quotes ----

  /** The first `c` at or after `from`, or the length of the text. */
  function Find(s: string, c: char, from: nat): (p: nat)
    requires from <= |s|
    ensures from <= p <= |s| && (p < |s| ==> s[p] == c) && forall i :: from <= i < p ==> s[i] != c
    decreases |s| - from
  {
    if from == |s| || s[from] == c then from else Find(s, c, from + 1)
  }

  /** The first position at or after `from` that is no blank. */
  function SkipBlanks(s: string, from: nat): (p: nat)
    requires from <= |s|
    ensures from <= p <= |s| && (p < |s| ==> s[p] != ' ') && forall i :: from <= i < p ==> s[i] == ' '
    decreases |s| - from
  {
    if from == |s| || s[from] != ' ' then from else SkipBlanks(s, from + 1)
  }

  /** After the comma at `p` comes a quoted name and a colon: the next key. */
  predicate KeyFollows(s: string, p: nat)
    requires p < |s|
  {
    var name := SkipBlanks(s, p + 1);
    name < |s| && s[name] == '"' &&
    var close := Find(s, '"', name + 1);
    close < |s| &&
    var after := SkipBlanks(s, close + 1);
    after < |s| && s[after] == ':'
  }

  /** How a scan of a value ends: at its closing quote, at a comma before the next key, or at the end of the text. */
  datatype Stop = Closed(at: nat) | Missing(at: nat) | Ended(at: nat)

  function Scan(s: string, i: nat): (r: Stop)
    requires i <= |s|
    ensures i <= r.at <= |s|
    ensures r.Missing? ==> r.at < |s| && s[r.at] == ',' && KeyFollows(s, r.at)
    ensures r.Closed? ==> r.at < |s| && s[r.at] == '"'
    decreases |s| - i
  {
    if i == |s| then Ended(i)
    else if s[i] == '\\' && i + 1 < |s| then Scan(s, i + 2)
    else if s[i] == '"' then Closed(i)
    else if s[i] == ',' && KeyFollows(s, i) then Missing(i)
    else Scan(s, i + 1)
  }

  function Insert(s: string, p: nat): (r: string)
    requires p <= |s|
    ensures |r| == |s| + 1
  {
    s[..p] + ['"'] + s[p..]
  }

  /** What one pass of the repair does: nothing more, search on from a position, or insert a quote. */
  datatype Move = Done | Skip(to: nat) | Add(at: nat)

  /** One pass looks at the value behind the next colon. */
  function Pass(s: string, from: nat): (r: Move)
    requires from < |s|
    ensures r.Skip? ==> Find(s, ':', from) < |s| && Find(s, ':', from) < r.to
    ensures r.Add? ==> Find(s, ':', from) + 1 < r.at < |s| && s[r.at] == ','
  {
    var colon := Find(s, ':', from);
    if colon == |s| then Done
    else
      var value := SkipBlanks(s, colon + 1);
      if value == |s| || s[value] != '"' then Skip(colon + 1)
      else
        match Scan(s, value + 1)
        case Missing(p) => Add(p)
        case Closed(p) => Skip(p + 1)
        case Ended(p) => Skip(p + 1)
  }

  /** The repair from a position on. What is left to search shrinks although the text may grow. */
  function RepairFrom(s: string, from: nat): string
    decreases |s| - from
  {
    if from >= |s| then s
    else
      match Pass(s, from)
      case Done => s
      case Skip(to) => RepairFrom(s, to)
      case Add(at) => RepairFrom(Insert(s, at), at + 1)
  }

  function Repair(s: string): string {
    RepairFrom(s, 0)
  }

  // ---- The repair only inserts quotes before commas ----

  /** `s` with the characters marked as inserted taken out. */
  function Erase(s: string, inserted: seq<bool>): string
    requires |s| == |inserted|
  {
    if s == [] then []
    else Erase(s[..|s| - 1], inserted[..|s| - 1]) + if inserted[|s| - 1] then [] else [s[|s| - 1]]
  }

  /** Every marked character is a quote right before a comma, and lies before `upTo`. */
  ghost predicate QuotesBeforeCommas(s: string, inserted: seq<bool>, upTo: nat) {
    && |s| == |inserted|
    && forall i :: 0 <= i < |s| && inserted[i] ==> i < upTo && s[i] == '"' && i + 1 < |s| && s[i + 1] == ','
  }

  lemma {:induction false} EraseConcat(s: string, m: seq<bool>, t: string, n: seq<bool>)
    requires |s| == |m| && |t| == |n|
    ensures Erase(s + t, m + n) == Erase(s, m) + Erase(t, n)
    decreases |t|
  {
    if t == [] {
      assert s + t == s && m + n == m && Erase(t, n) == [];
    } else {
      var k := |t| - 1;
      EraseConcat(s, m, t[..k], n[..k]);
      hide Erase;
      EraseSplit(t, n);
      EraseSplit(s + t, m + n);
      DropLast(s, t);
      DropLast(m, n);
    }
  }

  lemma EraseSplit(s: string, m: seq<bool>)
    requires |s| == |m| != 0
    ensures var k := |s| - 1;
            Erase(s, m) == Erase(s[..k], m[..k]) + if m[k] then [] else [s[k]]
  {
  }

  lemma DropLast<T>(a: seq<T>, b: seq<T>)
    requires b != []
    ensures (a + b)[..|a + b| - 1] == a + b[..|b| - 1]
  {
  }

  function Mark(m: seq<bool>, p: nat): (r: seq<bool>)
    requires p <= |m|
    ensures |r| == |m| + 1
  {
    m[..p] + [true] + m[p..]
  }

  lemma EraseInserted(s: string, m: seq<bool>, p: nat)
    requires |s| == |m| && p <= |s|
    ensures Erase(Insert(s, p), Mark(m, p)) == Erase(s, m)
  {
    hide Erase;
    ErasePart(s[..p], m[..p], s[p..], m[p..]);
    assert s[..p] + s[p..] == s && m[..p] + m[p..] == m;
  }

  lemma EraseLast(s: string, m: seq<bool>)
    requires |s| == |m|
    ensures Erase(s + ['"'], m + [true]) == Erase(s, m)
  {
    assert (s + ['"'])[..|s|] == s && (m + [true])[..|s|] == m;
  }

  lemma ErasePart(s: string, m: seq<bool>, t: string, n: seq<bool>)
    requires |s| == |m| && |t| == |n|
    ensures Erase(s + ['"'] + t, m + [true] + n) == Erase(s + t, m + n)
  {
    hide Erase;
    EraseLast(s, m);
    EraseConcat(s, m, t, n);
    EraseConcat(s + ['"'], m + [true], t, n);
  }

  lemma MarksAfterInsert(s: string, m: seq<bool>, from: nat, p: nat)
    requires QuotesBeforeCommas(s, m, from) && from < p < |s| && s[p] == ','
    ensures QuotesBeforeCommas(Insert(s, p), Mark(m, p), p + 1)
  {
    var t, n := Insert(s, p), Mark(m, p);
    assert forall k :: p < k < |n| ==> n[k] == m[k - 1];
    forall i | 0 <= i < |t| && n[i]
      ensures i < p + 1 && t[i] == '"' && i + 1 < |t| && t[i + 1] == ','
    {
      if i < p {
        assert m[i] && s[i + 1] == t[i + 1];
      } else {
        assert t[p] == '"' && t[p + 1] == s[p];
      }
    }
  }

  lemma {:induction false} EraseNothing(s: string)
    ensures Erase(s, seq(|s|, _ => false)) == s
  {
    if s != [] {
      EraseNothing(s[..|s| - 1]);
      assert seq(|s|, _ => false)[..|s| - 1] == seq(|s| - 1, _ => false);
    }
  }

  lemma MarksStay(s: string, m: seq<bool>, from: nat)
    requires QuotesBeforeCommas(s, m, from)
    ensures |s| == |m| && QuotesBeforeCommas(s, m, |s|) && forall later :: from <= later ==>
                                                                             QuotesBeforeCommas(s, m, later)
  {
  }

  lemma {:induction false} RepairFromErases(s: string, from: nat, m: seq<bool>) returns (inserted: seq<bool>)
    requires QuotesBeforeCommas(s, m, from)
    ensures QuotesBeforeCommas(RepairFrom(s, from), inserted, |RepairFrom(s, from)|)
    ensures Erase(RepairFrom(s, from), inserted) == Erase(s, m)
    decreases |s| - from
  {
    hide Erase, Insert, Mark, Pass, QuotesBeforeCommas;
    inserted := m;
    if from >= |s| {
      MarksStay(s, m, from);
    } else {
      match Pass(s, from)
      case Done => MarksStay(s, m, from);
      case Skip(to) =>
        MarksStay(s, m, from);
        inserted := RepairFromErases(s, to, m);
      case Add(at) =>
        MarksStay(s, m, from);
        EraseInserted(s, m, at);
        MarksAfterInsert(s, m, from, at);
        inserted := RepairFromErases(Insert(s, at), at + 1, Mark(m, at));
    }
  }

  /** The repaired text is the given one with quotes inserted, each right before a comma. */
  lemma RepairOnlyInsertsQuotes(s: string)
    ensures exists inserted ::
              QuotesBeforeCommas(Repair(s), inserted, |Repair(s)|) && Erase(Repair(s), inserted) == s
  {
    EraseNothing(s);
    var none := seq(|s|, _ => false);
    assert QuotesBeforeCommas(s, none, 0);
    var inserted := RepairFromErases(s, 0, none);
    hide RepairFrom, Erase;
    assert QuotesBeforeCommas(Repair(s), inserted, |Repair(s)|) && Erase(Repair(s), inserted) == s;
  }

  // ---- How much it can grow ----

  function Colons(s: string, from: nat): nat
    decreases |s| - from
  {
    if from >= |s| then 0 else (if s[from] == ':' then 1 else 0) + Colons(s, from + 1)
  }

  lemma {:induction false} ColonsFall(s: string, from: nat, to: nat)
    requires from <= to
    ensures Colons(s, to) <= Colons(s, from)
    ensures from < |s| && s[from] == ':' && from < to ==> Colons(s, to) < Colons(s, from)
    decreases if from <= to then to - from else 0
  {
    if from < to {
      ColonsFall(s, from + 1, to);
    }
  }

  lemma {:induction false} ColonsAfterInsert(s: string, p: nat, from: nat)
    requires p <= from <= |s|
    ensures Colons(Insert(s, p), from + 1) == Colons(s, from)
    decreases |s| - from
  {
    if from < |s| {
      ColonsAfterInsert(s, p, from + 1);
      assert Insert(s, p)[from + 1] == s[from];
    }
  }

  /** Each colon leads to at most one insertion, so the text cannot grow without bound. */
  lemma {:induction false} GrowthBound(s: string, from: nat)
    ensures |s| <= |RepairFrom(s, from)| <= |s| + Colons(s, from)
    decreases |s| - from
  {
    hide Colons, Insert, Pass;
    if from < |s| {
      var colon := Find(s, ':', from);
      ColonsFall(s, from, colon);
      match Pass(s, from)
      case Done =>
      case Skip(to) =>
        ColonsFall(s, colon, to);
        GrowthBound(s, to);
      case Add(at) =>
        ColonsFall(s, colon, at);
        ColonsAfterInsert(s, at, at);
        GrowthBound(Insert(s, at), at + 1);
    }
  }

  // ---- Where it inserts ----

  /** Neither a quote nor an escape, nor a comma before a key. */
  predicate Plain(s: string, k: nat)
    requires k < |s|
  {
    s[k] != '"' && s[k] != '\\' && (s[k] == ',' ==> !KeyFollows(s, k))
  }

  /** A value of plain characters that runs into the next key gets its quote right where it ends. */
  lemma {:induction false} BrokenValueIsClosed(s: string, i: nat, p: nat)
    requires i <= p < |s| && s[p] == ',' && KeyFollows(s, p)
    requires forall k :: i <= k < p ==> Plain(s, k)
    ensures Scan(s, i) == Missing(p)
    decreases |s| - i
  {
    hide KeyFollows;
    if i < p {
      assert Plain(s, i);
      BrokenValueIsClosed(s, i + 1, p);
    }
  }

  /** A value of plain characters that its own quote closes is left alone. */
  lemma {:induction false} ClosedValueIsLeftAlone(s: string, i: nat, p: nat)
    requires i <= p < |s| && s[p] == '"'
    requires forall k :: i <= k < p ==> Plain(s, k)
    ensures Scan(s, i) == Closed(p)
    decreases |s| - i
  {
    hide KeyFollows;
    if i < p {
      assert Plain(s, i);
      ClosedValueIsLeftAlone(s, i + 1, p);
    }
  }

  /**
   A quoted name between `name` and `close` and a colon at `colon` come after the comma, with blanks
   at most between.
   */
  ghost predicate KeyAt(s: string, p: nat, name: nat, close: nat, colon: nat) {
    && p < name < close < colon < |s| && s[name] == '"' && s[close] == '"' && s[colon] == ':'
    && (forall i :: p < i < name || close < i < colon ==> s[i] == ' ')
    && forall i :: name < i < close ==> s[i] != '"'
  }

  lemma FindIs(s: string, c: char, from: nat, p: nat)
    requires from <= p < |s| && s[p] == c && forall i :: from <= i < p ==> s[i] != c
    ensures Find(s, c, from) == p
  {
  }

  lemma SkipBlanksIs(s: string, from: nat, p: nat)
    requires from <= p < |s| && s[p] != ' ' && forall i :: from <= i < p ==> s[i] == ' '
    ensures SkipBlanks(s, from) == p
  {
  }

  lemma KeyFollowsIff(s: string, p: nat)
    requires p < |s|
    ensures KeyFollows(s, p) <==> exists name, close, colon :: KeyAt(s, p, name, close, colon)
  {
    if KeyFollows(s, p) {
      var name := SkipBlanks(s, p + 1);
      var close := Find(s, '"', name + 1);
      assert KeyAt(s, p, name, close, SkipBlanks(s, close + 1));
    }
    forall name: nat, close: nat, colon: nat | KeyAt(s, p, name, close, colon)
      ensures KeyFollows(s, p)
    {
      KeyAtFollows(s, p, name, close, colon);
    }
  }

  lemma KeyAtFollows(s: string, p: nat, name: nat, close: nat, colon: nat)
    requires KeyAt(s, p, name, close, colon)
    ensures KeyFollows(s, p)
  {
    SkipBlanksIs(s, p + 1, name);
    FindIs(s, '"', name + 1, close);
    SkipBlanksIs(s, close + 1, colon);
  }

  lemma ShorterPrefix(a: string, b: string, from: nat, to: nat)
    requires from <= to <= |a| && to <= |b| && a[..to] == b[..to]
    ensures a[..from] == b[..from]
  {
    assert a[..from] == a[..to][..from];
  }

  lemma PassGoesOn(s: string, from: nat)
    requires from < |s|
    ensures Pass(s, from).Skip? ==> from < Pass(s, from).to
    ensures Pass(s, from).Add? ==> from < Pass(s, from).at < |s|
  {
  }

  lemma InsertKeepsPrefix(s: string, p: nat)
    requires p <= |s|
    ensures Insert(s, p)[..p + 1] == s[..p] + ['"'] && Insert(s, p)[..p] == s[..p]
  {
  }

  /** The repair leaves what lies before the position it starts from. */
  lemma {:induction false} RepairKeepsPrefix(s: string, from: nat)
    requires from <= |s|
    ensures |s| <= |RepairFrom(s, from)| && RepairFrom(s, from)[..from] == s[..from]
    decreases |s| - from
  {
    hide Pass, Insert;
    if from < |s| {
      PassGoesOn(s, from);
      match Pass(s, from)
      case Done =>
      case Skip(to) =>
        if to < |s| {
          RepairKeepsPrefix(s, to);
          ShorterPrefix(RepairFrom(s, to), s, from, to);
        }
      case Add(at) =>
        var t := Insert(s, at);
        RepairKeepsPrefix(t, at + 1);
        InsertKeepsPrefix(s, at);
        ShorterPrefix(RepairFrom(t, at + 1), t, from, at + 1);
        ShorterPrefix(t, s, from, at);
    }
  }

  lemma RepairPasses(s: string, from: nat, move: Move)
    requires from < |s| && Pass(s, from) == move
    ensures RepairFrom(s, from) ==
            match move
            case Done => s
            case Skip(to) => RepairFrom(s, to)
            case Add(at) => RepairFrom(Insert(s, at), at + 1)
  {
    hide Pass, Insert;
  }

  /** Behind the first colon from `from` on, a quoted value starts at `value`. */
  ghost predicate ValueAt(s: string, from: nat, colon: nat, value: nat) {
    && from <= colon < value < |s| && s[colon] == ':' && s[value] == '"'
    && (forall i :: from <= i < colon ==> s[i] != ':') && forall i :: colon < i < value ==> s[i] == ' '
  }

  lemma PassFindsValue(s: string, from: nat, colon: nat, value: nat)
    requires ValueAt(s, from, colon, value)
    ensures var r := Scan(s, value + 1);
            Pass(s, from) == if r.Missing? then Add(r.at) else Skip(r.at + 1)
  {
    hide Find, SkipBlanks, Scan;
    FindIs(s, ':', from, colon);
    SkipBlanksIs(s, colon + 1, value);
  }

  /**
   A value of plain characters that runs into the next key gets a quote right where it ends, and the repair
   goes on behind it.
   */
  lemma BrokenValueIsRepaired(s: string, from: nat, colon: nat, value: nat, p: nat)
    requires ValueAt(s, from, colon, value) && value < p < |s| && s[p] == ',' && KeyFollows(s, p)
    requires forall k :: value < k < p ==> Plain(s, k)
    ensures RepairFrom(s, from) == RepairFrom(s[..p] + ['"'] + s[p..], p + 1)
    ensures p + 1 < |RepairFrom(s, from)| && RepairFrom(s, from)[..p + 1] == s[..p] + ['"']
  {
    hide KeyFollows, Scan, Pass, RepairFrom;
    PassFindsValue(s, from, colon, value);
    BrokenValueIsClosed(s, value + 1, p);
    hide Plain, ValueAt;
    AddRepairs(s, from, p);
  }

  lemma AddRepairs(s: string, from: nat, p: nat)
    requires from < |s| && p < |s| && Pass(s, from) == Add(p)
    ensures RepairFrom(s, from) == RepairFrom(s[..p] + ['"'] + s[p..], p + 1)
    ensures p + 1 < |RepairFrom(s, from)| && RepairFrom(s, from)[..p + 1] == s[..p] + ['"']
  {
    hide Pass, Insert, RepairFrom;
    InsertIs(s, p);
    RepairPasses(s, from, Add(p));
    RepairKeepsPrefix(Insert(s, p), p + 1);
    PrefixWithQuote(s, Insert(s, p), RepairFrom(s, from), p);
  }

  lemma InsertIs(s: string, p: nat)
    requires p <= |s|
    ensures Insert(s, p) == s[..p] + ['"'] + s[p..]
  {
  }

  lemma PrefixWithQuote(s: string, t: string, r: string, p: nat)
    requires p < |s| && t == s[..p] + ['"'] + s[p..] && |t| <= |r| && r[..p + 1] == t[..p + 1]
    ensures p + 1 < |r| && r[..p + 1] == s[..p] + ['"']
  {
  }

  /** A value of plain characters with a closing quote is passed over as it is. */
  lemma ClosedValueIsKept(s: string, from: nat, colon: nat, value: nat, p: nat)
    requires ValueAt(s, from, colon, value) && value < p < |s| && s[p] == '"'
    requires forall k :: value < k < p ==> Plain(s, k)
    ensures RepairFrom(s, from) == RepairFrom(s, p + 1)
  {
    PassFindsValue(s, from, colon, value);
    ClosedValueIsLeftAlone(s, value + 1, p);
    hide KeyFollows, Scan, Pass, Plain, RepairFrom;
    RepairPasses(s, from, Skip(p + 1));
  }

  /** Values that are not quoted are passed over too. */
  lemma BareValueIsKept(s: string, from: nat, colon: nat, value: nat)
    requires from <= colon < value < |s| && s[colon] == ':' && s[value] != '"' && s[value] != ' '
    requires (forall i :: from <= i < colon ==> s[i] != ':') && forall i :: colon < i < value ==> s[i] == ' '
    ensures RepairFrom(s, from) == RepairFrom(s, colon + 1)
  {
    BarePass(s, from, colon, value);
    hide Pass, RepairFrom;
    RepairPasses(s, from, Skip(colon + 1));
  }

  lemma BarePass(s: string, from: nat, colon: nat, value: nat)
    requires from <= colon < value < |s| && s[colon] == ':' && s[value] != '"' && s[value] != ' '
    requires (forall i :: from <= i < colon ==> s[i] != ':') && forall i :: colon < i < value ==> s[i] == ' '
    ensures Pass(s, from) == Skip(colon + 1)
  {
    hide Find, SkipBlanks, Scan;
    FindIs(s, ':', from, colon);
    SkipBlanksIs(s, colon + 1, value);
  }

  /** A character behind a backslash is passed over, whatever it is. */
  lemma EscapesAreSkipped(s: string, i: nat)
    requires i + 1 < |s| && s[i] == '\\'
    ensures Scan(s, i) == Scan(s, i + 2)
  {
  }

  // ---- The loop ----

  method RepairQuotes(sanitized: string) returns (text: string, changed: bool)
    ensures text == Repair(sanitized) && (changed <==> text != sanitized)
  {
    hide Pass, Insert;
    text := sanitized;
    changed := false;
    var searchFrom: nat := 0;
    while searchFrom < |text|
      invariant RepairFrom(text, searchFrom) == Repair(sanitized)
      invariant if changed then |text| > |sanitized| else text == sanitized
      decreases |text| - searchFrom
    {
      var move := LookBehindColon(text, searchFrom);
      match move
      case Done => return;
      case Skip(to) => searchFrom := to;
      case Add(at) =>
        text, searchFrom := Insert(text, at), at + 1;
        changed := true;
    }
  }

  method LookBehindColon(text: string, from: nat) returns (move: Move)
    requires from < |text|
    ensures move == Pass(text, from)
  {
    hide KeyFollows, Scan;
    var colon := Find(text, ':', from);
    if colon == |text| {
      return Done;
    }
    var value := SkipBlanks(text, colon + 1);
    if value >= |text| || text[value] != '"' {
      return Skip(colon + 1);
    }
    var s, missing := ScanValue(text, value + 1);
    return if missing then Add(s) else Skip(s + 1);
  }

  /** Walks to where the value that starts at `from` ends. */
  method ScanValue(text: string, from: nat) returns (s: nat, missing: bool)
    requires from <= |text|
    ensures s == Scan(text, from).at && missing == Scan(text, from).Missing?
  {
    hide KeyFollows;
    s := from;
    while s < |text|
      invariant s <= |text| && Scan(text, s) == Scan(text, from)
      decreases |text| - s
    {
      if text[s] == '\\' && s + 1 < |text| {
        s := s + 2;
        continue;
      }
      if text[s] == '"' {
        return s, false;
      }
      if text[s] == ',' && KeyFollows(text, s) {
        return s, true;
      }
      s := s + 1;
    }
    return s, false;
  }
}
