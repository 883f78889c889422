/**
 Saving the server's state over three files, with a crash possible between and inside the steps:
 write a temporary file, read it back, copy the current file to the backup, rename.
 */
module StatePersistence {
  import opened FiniteSums
  import opened PortfolioRisk

  const SAVED_TRADES := 2000

  datatype Trade = Trade(
    symbol: string, timeframe: string, exitReason: string, pnl: real, fee: real, entryPrice: real,
    exitPrice: real, quantity: real, strategy: string, exchange: string, marketType: string)

  /** What the engine holds in memory. */
  datatype State = State(balance: real, peakBalance: real, ordersExecuted: nat, positions: Book, trades: seq<Trade>)

  /** A position as the file has it: its opening time is not written. */
  datatype SavedPosition = SavedPosition(
    symbol: string, timeframe: string, side: string, entryPrice: real, quantity: real, leverage: Leverage,
    slPrice: real, tp1Price: real, tier: string, strategy: string, isReal: bool, exchange: string, marketType: string)

  /** The content of a state file. */
  datatype Saved = Saved(
    balance: real, peakBalance: real, ordersExecuted: nat, positions: map<PosKey, SavedPosition>, trades: seq<Trade>)

  /** The clock's origin, which a loaded position has for an opening time. */
  const EPOCH := 0

  function SavedOf(p: Position): SavedPosition {
    SavedPosition(p.symbol, p.timeframe, p.side, p.entryPrice, p.quantity, p.leverage, p.slPrice, p.tp1Price,
                  p.tier, p.strategy, p.isReal, p.exchange, p.marketType)
  }

  function RestoredOf(p: SavedPosition): Position {
    Position(p.symbol, p.timeframe, p.side, p.entryPrice, p.quantity, p.leverage, p.slPrice, p.tp1Price,
             p.tier, p.strategy, EPOCH, p.isReal, p.exchange, p.marketType)
  }

  /** What a save writes: of the trades the last 2000. */
  function Snapshot(s: State): Saved {
    Saved(s.balance, s.peakBalance, s.ordersExecuted, map k | k in s.positions :: SavedOf(s.positions[k]),
          LastN(s.trades, SAVED_TRADES))
  }

  function Restored(f: Saved): State {
    State(f.balance, f.peakBalance, f.ordersExecuted, map k | k in f.positions :: RestoredOf(f.positions[k]), f.trades)
  }

  /** A state comes back from its file with its last 2000 trades and without its opening times. */
  lemma RestoredSnapshot(s: State)
    ensures var t := Restored(Snapshot(s));
            && t == s.(positions := t.positions, trades := LastN(s.trades, 2000))
            && t.positions.Keys == s.positions.Keys
            && forall k :: k in s.positions ==> t.positions[k] == s.positions[k].(openedAt := EPOCH)
  {
  }

  /** So it comes back unchanged exactly when it has no more trades than that and no opening time. */
  lemma RestoredUnchangedIff(s: State)
    ensures Restored(Snapshot(s)) == s <==>
            |s.trades| <= 2000 && forall k :: k in s.positions ==> s.positions[k].openedAt == EPOCH
  {
    RestoredSnapshot(s);
    var t := Restored(Snapshot(s));
    hide Restored, Snapshot;
    if forall k :: k in s.positions ==> s.positions[k].openedAt == EPOCH {
      assert t.positions == s.positions;
    }
    if t == s {
      assert |LastN(s.trades, SAVED_TRADES)| == |s.trades|;
      forall k | k in s.positions
        ensures s.positions[k].openedAt == EPOCH
      {
        assert t.positions[k] == s.positions[k];
      }
    }
  }

  /** `Garbage` is any content the loader refuses. */
  datatype Slot = Absent | Garbage | Doc(state: Saved)

  datatype Disk = Disk(main: Slot, tmp: Slot, bak: Slot)

  /** How far a save of `s` has come. `backed` says that the backup was copied in full. */
  datatype Progress =
    | Idle
    | Writing(s: Saved)
    | Written(s: Saved)
    | Checked(s: Saved)
    | Copying(s: Saved)
    | Prepared(s: Saved, backed: bool)

  datatype Store = Store(disk: Disk, progress: Progress)

  /** The main file, else the backup, else nothing. */
  function Load(d: Disk): Option<Saved> {
    if d.main.Doc? then Some(d.main.state)
    else if d.bak.Doc? then Some(d.bak.state)
    else None
  }

  // ---- The steps of a save, and crashes ----

  datatype Event =
    | Begin(s: Saved)
    | Fill(short: bool)
    | Verify
    | StartCopy(fails: bool)
    | EndCopy(fails: bool)
    | Rename(fails: bool)
    | Crash

  function Step(x: Store, e: Event): Store {
    var d := x.disk;
    match (e, x.progress)
    case (Begin(s), Idle) => Store(d.(tmp := Garbage), Writing(s))
    case (Fill(short), Writing(s)) => Store(if short then d else d.(tmp := Doc(s)), Written(s))
    case (Verify, Written(s)) => if d.tmp.Doc? then Store(d, Checked(s)) else Store(d, Idle)
    case (StartCopy(fails), Checked(s)) =>
      if d.main.Absent? || fails then Store(d, Prepared(s, false))
      else Store(d.(bak := Garbage), Copying(s))
    case (EndCopy(fails), Copying(s)) =>
      if fails then Store(d, Prepared(s, false)) else Store(d.(bak := d.main), Prepared(s, true))
    case (Rename(fails), Prepared(s, _)) =>
      if fails then Store(d, Idle) else Store(d.(main := d.tmp, tmp := Absent), Idle)
    case (Crash, _) => Store(d, Idle)
    case _ => x
  }

  function Run(x: Store, events: seq<Event>): Store {
    if events == [] then x else Step(Run(x, events[..|events| - 1]), events[|events| - 1])
  }

  /** The states committed by a run, oldest first: a save counts from the moment of its rename. */
  function Commits(x: Store, events: seq<Event>): seq<Saved> {
    if events == [] then []
    else
      var y, e := Run(x, events[..|events| - 1]), events[|events| - 1];
      Commits(x, events[..|events| - 1]) +
      if e.Rename? && !e.fails && y.progress.Prepared? then [y.progress.s] else []
  }

  const EMPTY := Store(Disk(Absent, Absent, Absent), Idle)

  /** Once verified, the temporary file holds exactly what is being saved; a short write holds nothing loadable. */
  ghost predicate TmpOk(x: Store) {
    match x.progress
    case Idle => true
    case Writing(_) => x.disk.tmp.Garbage?
    case Written(s) => x.disk.tmp == Doc(s) || x.disk.tmp.Garbage?
    case Checked(s) => x.disk.tmp == Doc(s)
    case Copying(s) => x.disk.tmp == Doc(s) && !x.disk.main.Absent?
    case Prepared(s, _) => x.disk.tmp == Doc(s)
  }

  lemma StepKeepsTmp(x: Store, e: Event)
    requires TmpOk(x)
    ensures TmpOk(Step(x, e))
  {
  }

  /** A copy or rename acts on a whole temporary file. */
  lemma RenameNeedsTmp(x: Store)
    requires TmpOk(x)
    ensures x.progress.Prepared? ==> x.disk.tmp == Doc(x.progress.s)
    ensures x.progress.Copying? ==> !x.disk.main.Absent?
  {
  }

  lemma EmptyTmpOk()
    ensures TmpOk(EMPTY)
  {
  }

  // ---- Every run from an empty directory ----

  /** The files agree with the list of commits. */
  ghost predicate Agrees(x: Store, commits: seq<Saved>) {
    && TmpOk(x)
    && (commits == [] ==> x.disk.main.Absent? && x.disk.bak.Absent?)
    && (commits != [] ==> x.disk.main == Doc(commits[|commits| - 1]))
  }

  /**
   Whatever is saved and wherever it crashes, the main file is absent or whole, never partial, and
   a load returns exactly the state committed last.
   */
  lemma {:induction false} EveryRunLoadsTheLastCommit(events: seq<Event>)
    ensures Agrees(Run(EMPTY, events), Commits(EMPTY, events))
    ensures !Run(EMPTY, events).disk.main.Garbage?
    ensures var c := Commits(EMPTY, events);
            Load(Run(EMPTY, events).disk) == if c == [] then None else Some(c[|c| - 1])
  {
    hide TmpOk;
    if events == [] {
      EmptyTmpOk();
    } else {
      EveryRunLoadsTheLastCommit(events[..|events| - 1]);
      StepKeepsTmp(Run(EMPTY, events[..|events| - 1]), events[|events| - 1]);
      RenameNeedsTmp(Run(EMPTY, events[..|events| - 1]));
    }
  }

  // ---- One save on any directory ----

  /** A run that saves at most the one state. */
  ghost predicate Saves(events: seq<Event>, s: Saved) {
    forall i :: 0 <= i < |events| && events[i].Begin? ==> events[i].s == s
  }

  /** The main file is unreadable while the backup still holds the state. */
  predicate Fragile(d: Disk) {
    d.main.Garbage? && d.bak.Doc?
  }

  ghost predicate OldOrNew(d: Disk, x: Store, s: Saved) {
    && TmpOk(x) && (x.progress != Idle ==> x.progress.s == s)
    && (x.disk.main == Doc(s)
        || (x.disk.main == d.main && (d.main.Doc? || Load(x.disk) == Load(d)) &&
            (d.main.Absent? ==> x.disk.bak == d.bak)
            && (d.main.Garbage? ==> !x.disk.bak.Doc?)))
  }

  lemma {:induction false} OldOrNewThroughout(d: Disk, s: Saved, events: seq<Event>)
    requires !Fragile(d) && Saves(events, s)
    ensures OldOrNew(d, Run(Store(d, Idle), events), s)
  {
    if events != [] {
      var n := |events| - 1;
      OldOrNewThroughout(d, s, events[..n]);
      StepKeepsTmp(Run(Store(d, Idle), events[..n]), events[n]);
      RenameNeedsTmp(Run(Store(d, Idle), events[..n]));
      assert events[n].Begin? ==> events[n].s == s;
    }
  }

  /**
   At every point of saving `s`, crashes included, a load returns the state from before or `s`,
   exactly when the save does not start with an unreadable main file and a good backup.
   */
  lemma LoadIsOldOrNewIff(d: Disk, s: Saved)
    ensures (forall events :: Saves(events, s) ==> Load(Run(Store(d, Idle), events).disk) in {Load(d), Some(s)}) <==>
            !Fragile(d)
  {
    if Fragile(d) {
      CorruptMainReplacesBackup(d, s);
    } else {
      forall events | Saves(events, s)
        ensures Load(Run(Store(d, Idle), events).disk) in {Load(d), Some(s)}
      {
        OldOrNewThroughout(d, s, events);
      }
    }
  }

  /** The events of a save up to and including its backup copy, and then a crash. */
  function CrashAfterCopy(s: Saved): seq<Event> {
    [Begin(s), Fill(false), Verify, StartCopy(false), EndCopy(false), Crash]
  }

  /**
   The save copies the unreadable main file over the good backup; a crash before the rename leaves
   nothing to load.
   */
  lemma CorruptMainReplacesBackup(d: Disk, s: Saved)
    requires Fragile(d)
    ensures Saves(CrashAfterCopy(s), s)
    ensures Load(d).Some? && Load(Run(Store(d, Idle), CrashAfterCopy(s)).disk).None?
  {
    var e := CrashAfterCopy(s);
    var x := Store(d, Idle);
    assert e[..5][..4] == e[..4] && e[..4][..3] == e[..3] && e[..3][..2] == e[..2] && e[..2][..1] == e[..1] &&
           e[..1][..0] == [];
    assert Run(x, e[..0]) == x;
    assert Run(x, e[..1]) == Store(d.(tmp := Garbage), Writing(s));
    assert Run(x, e[..2]) == Store(d.(tmp := Doc(s)), Written(s));
    assert Run(x, e[..3]) == Store(d.(tmp := Doc(s)), Checked(s));
    assert Run(x, e[..4]) == Store(d.(tmp := Doc(s), bak := Garbage), Copying(s));
    assert Run(x, e[..5]) == Store(d.(tmp := Doc(s), bak := Garbage), Prepared(s, true));
  }

  // ---- The backup ----

  ghost predicate BackedUp(x: Store) {
    x.progress.Prepared? && x.progress.backed ==> x.disk.bak == x.disk.main && !x.disk.main.Absent?
  }

  lemma {:induction false} CopyIsTheMainFile(events: seq<Event>)
    ensures BackedUp(Run(EMPTY, events))
  {
    if events != [] {
      CopyIsTheMainFile(events[..|events| - 1]);
      EveryRunLoadsTheLastCommit(events[..|events| - 1]);
    }
  }

  /**
   After a save that completed with its backup copied, losing or damaging only the main file makes
   a load return the state committed before that save.
   */
  lemma BackupIsOneCommitBehind(events: seq<Event>, damaged: Slot)
    requires events != [] && events[|events| - 1] == Rename(false) && !damaged.Doc?
    requires var p := Run(EMPTY, events[..|events| - 1]).progress; p.Prepared? && p.backed
    ensures var c := Commits(EMPTY, events);
            && |c| >= 2
            && Load(Run(EMPTY, events).disk.(main := damaged)) == Some(c[|c| - 2])
  {
    CopyIsTheMainFile(events[..|events| - 1]);
    EveryRunLoadsTheLastCommit(events[..|events| - 1]);
  }

  // ---- The component ----

  /** What goes wrong outside: opening, writing, copying and renaming, each in its place. */
  datatype Faults = Faults(open: bool, short: bool, copyStart: bool, copyEnd: bool, rename: bool)

  class StatePersistence {
    var main: Slot
    var tmp: Slot
    var bak: Slot
    var lastSave: int

    ghost function Files(): Disk
      reads this
    {
      Disk(main, tmp, bak)
    }

    constructor (now: int)
      ensures Files() == EMPTY.disk && lastSave == now
    {
      main, tmp, bak, lastSave := Absent, Absent, Absent, now;
    }

    /** The time of the last save moves only when the save went through. */
    method SaveState(s: State, now: int, faults: Faults) returns (ok: bool, ghost events: seq<Event>)
      modifies this
      ensures Store(Files(), Idle) == Run(Store(old(Files()), Idle), events) && Saves(events, Snapshot(s))
      ensures ok ==> main == Doc(Snapshot(s)) && tmp == Absent && Load(Files()) == Some(Snapshot(s)) && lastSave == now
      ensures !ok ==> main == old(main) && lastSave == old(lastSave)
      ensures ok <==> !faults.open && !faults.short && !faults.rename
    {
      ok, events := AtomicWrite(Snapshot(s), faults);
      if ok {
        lastSave := now;
      }
    }

    /** `events` are the steps taken: the files go through just the states of that run. */
    method AtomicWrite(s: Saved, faults: Faults) returns (ok: bool, ghost events: seq<Event>)
      modifies `main, `tmp, `bak
      ensures Store(Files(), Idle) == Run(Store(old(Files()), Idle), events) && Saves(events, s)
      ensures if ok then main == Doc(s) && tmp == Absent else main == old(main)
      ensures ok <==> !faults.open && !faults.short && !faults.rename
    {
      ghost var x := Store(Files(), Idle);
      ok, events := WriteAndVerify(s, faults);
      if !ok {
        return;
      }
      hide Step;
      events := Backup(x, events, faults);
      ok, events := RenameOver(s, x, events, faults);
    }

    /** The first two steps: write the temporary file and read it back. */
    method WriteAndVerify(s: Saved, faults: Faults) returns (ok: bool, ghost events: seq<Event>)
      modifies `tmp
      ensures ok <==> !faults.open && !faults.short
      ensures Run(Store(old(Files()), Idle), events) == Store(Files(), if ok then Checked(s) else Idle)
      ensures Saves(events, s) && (ok ==> tmp == Doc(s))
    {
      ghost var x := Store(Files(), Idle);
      events := [];
      if faults.open {
        return false, events;
      }
      tmp := Garbage;
      events := Then(x, events, Begin(s));
      assert Run(x, events) == Store(Files(), Writing(s));
      if !faults.short {
        tmp := Doc(s);
      }
      events := Then(x, events, Fill(faults.short));
      assert Run(x, events) == Store(Files(), Written(s));
      events := Then(x, events, Verify);
      ok := tmp.Doc?;
    }

    /** The last step. */
    method RenameOver(s: Saved, ghost x: Store, ghost before: seq<Event>, faults: Faults)
      returns (ok: bool, ghost events: seq<Event>)
      requires Run(x, before).disk == Files() && tmp == Doc(s)
      requires Run(x, before).progress.Prepared? && Run(x, before).progress.s == s && Saves(before, s)
      modifies `main, `tmp
      ensures ok <==> !faults.rename
      ensures Run(x, events) == Store(Files(), Idle) && Saves(events, s)
      ensures if ok then main == Doc(s) && tmp == Absent else main == old(main)
    {
      events := Then(x, before, Rename(faults.rename));
      if faults.rename {
        return false, events;
      }
      main, tmp := tmp, Absent;
      return true, events;
    }

    method Backup(ghost x: Store, ghost before: seq<Event>, faults: Faults) returns (ghost events: seq<Event>)
      requires Run(x, before).disk == Files() && Run(x, before).progress.Checked?
      modifies `bak
      ensures Run(x, events).disk == Files() && Run(x, events).progress.Prepared?
      ensures Run(x, events).progress.s == Run(x, before).progress.s
      ensures forall e :: e in events && e.Begin? ==> e in before
    {
      events := Then(x, before, StartCopy(faults.copyStart));
      if main.Absent? || faults.copyStart {
        return;
      }
      bak := Garbage;
      events := Then(x, events, EndCopy(faults.copyEnd));
      if !faults.copyEnd {
        bak := main;
      }
    }

    /** The periodic task: save when due. `ok` says whether a save goes through, due or not. */
    method SaveIfDue(s: State, now: int, interval: int, faults: Faults) returns (ok: bool)
      modifies this
      ensures lastSave == LastSave(old(lastSave), interval, [Poll(now, ok)])
      ensures if now - old(lastSave) >= interval && ok then main == Doc(Snapshot(s)) && lastSave == now
              else main == old(main) && lastSave == old(lastSave)
      ensures ok <==> !faults.open && !faults.short && !faults.rename
    {
      ok := !faults.open && !faults.short && !faults.rename;
      LastSaveOne(lastSave, interval, Poll(now, ok));
      var due := NeedsSave(now, interval);
      if due {
        ghost var events;
        ok, events := SaveState(s, now, faults);
      }
    }

    /** One attempt per file, the main file first. */
    method LoadState() returns (found: Option<State>)
      ensures found == if Load(Files()).None? then None else Some(Restored(Load(Files()).value))
    {
      found := TryLoad(main);
      if found.None? {
        found := TryLoad(bak);
      }
    }

    method NeedsSave(now: int, interval: int) returns (due: bool)
      ensures due == Due(lastSave, now, interval)
    {
      due := now - lastSave >= interval;
    }
  }

  function TryLoad(file: Slot): Option<State> {
    match file
    case Doc(state) => Some(Restored(state))
    case _ => None
  }

  /** One more event. */
  ghost function Then(x: Store, events: seq<Event>, e: Event): (r: seq<Event>)
    ensures Run(x, r) == Step(Run(x, events), e) && r == events + [e]
  {
    assert (events + [e])[..|events|] == events;
    events + [e]
  }

  // ---- Autosave ----

  /** One pass of the periodic task: when it looked, and whether a save it made then went through. */
  datatype Poll = Poll(time: int, ok: bool)

  function Due(last: int, now: int, interval: int): bool {
    now - last >= interval
  }

  /** The time of the last save after the polls. */
  function LastSave(last: int, interval: int, polls: seq<Poll>): int {
    if polls == [] then last
    else
      var before, p := LastSave(last, interval, polls[..|polls| - 1]), polls[|polls| - 1];
      if Due(before, p.time, interval) && p.ok then p.time else before
  }

  lemma LastSaveOne(last: int, interval: int, p: Poll)
    ensures LastSave(last, interval, [p]) == if Due(last, p.time, interval) && p.ok then p.time else last
  {
    assert [p][..0] == [];
    assert LastSave(last, interval, [p][..0]) == last;
  }

  function SavesMade(last: int, interval: int, polls: seq<Poll>): nat {
    if polls == [] then 0
    else
      var init, p := polls[..|polls| - 1], polls[|polls| - 1];
      SavesMade(last, interval, init) + if Due(LastSave(last, interval, init), p.time, interval) && p.ok then 1 else 0
  }

  /** However often it is polled, and whatever fails, it never saves more than once an interval. */
  lemma {:induction false} AtMostOncePerInterval(last: int, interval: int, polls: seq<Poll>)
    requires 0 <= interval
    ensures last + SavesMade(last, interval, polls) * interval <= LastSave(last, interval, polls)
  {
    if polls != [] {
      var init := polls[..|polls| - 1];
      AtMostOncePerInterval(last, interval, init);
      var n := SavesMade(last, interval, init);
      assert (n + 1) * interval == n * interval + interval;
    }
  }

  /**
   After a poll whose save goes through, if it makes one, the disk is less than an interval old, and
   less than the gap more until the next poll.
   */
  lemma NeverOlderThan(last: int, interval: int, gap: int, polls: seq<Poll>, now: int)
    requires 0 < interval && polls != [] && polls[|polls| - 1].ok
    requires polls[|polls| - 1].time <= now <= polls[|polls| - 1].time + gap
    ensures polls[|polls| - 1].time - LastSave(last, interval, polls) < interval
    ensures now - LastSave(last, interval, polls) < interval + gap
  {
  }
}
