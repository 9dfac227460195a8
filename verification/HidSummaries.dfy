/** The HID report summaries (src/hid_report_diagnostics.c): observers count into a table of cells
    under a lock, and a delayed flush visits the cells one by one and writes a record for each
    that changed. */
module HidSummaries {
  import opened Common

  const STAGES := 14
  const PERIOD := 5000
  const ERROR_MAX := 255

  datatype Cell = Cell(lastMs: nat, total: u16, error: nat, dirty: bool)

  const ZERO := Cell(0, 0, 0, false)

  /** A journal record of a cell: its counter, or the error that came with it. */
  datatype Record = CountRecord(time: nat, cell: nat, total: u16) | ErrorRecord(time: nat, cell: nat, error: nat)

  function Counted(c: Cell, err: int, now: nat): Cell {
    Cell(now, (c.total + 1) % 0x1_0000, if err != 0 then Magnitude(err) else c.error, true)
  }

  function Magnitude(err: int): nat { Min(if err < 0 then -err else err, ERROR_MAX) }

  function Cleared(c: Cell): Cell { c.(dirty := false, error := 0) }

  function RecordsOf(k: nat, c: Cell): seq<Record> {
    if !c.dirty then []
    else [CountRecord(c.lastMs, k, c.total)] + if c.error != 0 then [ErrorRecord(c.lastMs, k, c.error)] else []
  }

  /** What an undisturbed flush writes for the cells below n. */
  function FlushRecords(cells: seq<Cell>, n: nat): seq<Record>
    requires n <= |cells|
  {
    if n == 0 then [] else FlushRecords(cells, n - 1) + RecordsOf(n - 1, cells[n - 1])
  }

  /** The table, profile by profile; cell `profile * STAGES + stage`. */
  class Counts {
    const profiles: nat
    const cells: array<Cell>

    ghost predicate Valid() { cells.Length == profiles * STAGES }

    constructor (profiles: nat)
      ensures Valid() && this.profiles == profiles && fresh(cells)
      ensures forall k :: 0 <= k < cells.Length ==> cells[k] == ZERO
    {
      this.profiles := profiles;
      cells := new Cell[profiles * STAGES](_ => ZERO);
    }

    /** The critical section of count_event; the summary is to be scheduled if it was counted. */
    method CountEvent(profile: int, stage: nat, err: int, now: nat) returns (counted: bool)
      requires Valid() && stage < STAGES
      modifies cells
      ensures counted <==> 0 <= profile < profiles
      ensures counted ==>
                var k := profile * STAGES + stage;
                k < cells.Length && cells[..] == old(cells[..])[k := Counted(old(cells[k]), err, now)]
      ensures !counted ==> cells[..] == old(cells[..])
    {
      if profile < 0 || profile >= profiles {
        return false;
      }
      CellInside(profile, stage, profiles);
      var k := profile * STAGES + stage;
      var count := cells[k];
      count := count.(total := (count.total + 1) % 0x1_0000, lastMs := now, dirty := true);
      if err != 0 {
        count := count.(error := Min(if err < 0 then -err else err, ERROR_MAX));
      }
      cells[k] := count;
      return true;
    }

    /** The critical section of one turn of the flush loop. */
    method Visit(k: nat) returns (count: Cell)
      requires k < cells.Length
      modifies cells
      ensures count == old(cells[k]) && cells[..] == old(cells[..])[k := Cleared(old(cells[k]))]
    {
      count := cells[k];
      cells[k] := cells[k].(dirty := false);
      cells[k] := cells[k].(error := 0);
    }

    /** One turn of the flush loop. */
    method FlushCell(k: nat) returns (records: seq<Record>, changed: bool)
      requires k < cells.Length
      modifies cells
      ensures records == RecordsOf(k, old(cells[k])) && changed == old(cells[k].dirty)
      ensures cells[..] == old(cells[..])[k := Cleared(old(cells[k]))]
    {
      records := [];
      var count := Visit(k);
      changed := count.dirty;
      if count.dirty {
        records := [CountRecord(count.lastMs, k, count.total)];
        if count.error != 0 {
          records := records + [ErrorRecord(count.lastMs, k, count.error)];
        }
      }
    }

    /** A flush that no observation overlaps; `changed` asks for a save. */
    method Flush() returns (records: seq<Record>, changed: bool)
      requires Valid()
      modifies cells
      ensures records == FlushRecords(old(cells[..]), cells.Length)
      ensures changed <==> exists k :: 0 <= k < cells.Length && old(cells[k].dirty)
      ensures forall k :: 0 <= k < cells.Length ==> cells[k] == Cleared(old(cells[k]))
    {
      records, changed := [], false;
      ghost var done: nat := 0;
      ghost var was := old(cells[..]);
      for profile := 0 to profiles
        invariant done == profile * STAGES
        invariant Flushed(was, done, records, changed)
      {
        for stage := 0 to STAGES
          invariant done == profile * STAGES + stage
          invariant Flushed(was, done, records, changed)
        {
          CellInside(profile, stage, profiles);
          var written, dirty := FlushCell(profile * STAGES + stage);
          records, changed := records + written, changed || dirty;
          done := done + 1;
        }
      }
    }

    ghost predicate Flushed(was: seq<Cell>, done: nat, records: seq<Record>, changed: bool)
      reads cells
    {
      && done <= cells.Length == |was|
      && records == FlushRecords(was, done)
      && (changed <==> exists k :: 0 <= k < done && was[k].dirty)
      && (forall k :: 0 <= k < done ==> cells[k] == Cleared(was[k]))
      && (forall k :: done <= k < cells.Length ==> cells[k] == was[k])
    }
  }

  lemma CellInside(profile: nat, stage: nat, profiles: nat)
    requires profile < profiles && stage < STAGES
    ensures profile * STAGES + stage < profiles * STAGES
  {
  }

  /** Whether a keyboard report lets go of every key. */
  method AllUp(modifiers: u8, keys: seq<u8>) returns (up: bool)
    ensures up <==> modifiers == 0 && forall i :: 0 <= i < |keys| ==> keys[i] == 0
  {
    if modifiers != 0 {
      return false;
    }
    for i := 0 to |keys|
      invariant forall j :: 0 <= j < i ==> keys[j] == 0
    {
      if keys[i] != 0 {
        return false;
      }
    }
    return true;
  }

  // ----- whole runs -----

  datatype Seen = Seen(err: int, time: nat)

  /** A visit that found cell `cell` changed: it reports the observations from..upto. */
  datatype Visited = Visited(cell: nat, from: nat, upto: nat)

  /** Where the flush stands: about to visit a cell, or holding an unlocked copy of one. */
  datatype Flush = Off | At(next: nat, changed: bool) | Holding(next: nat, copy: Cell, visit: Visited)

  /** `scheduling` counts observers between their unlock and their k_work_schedule. `seen` is what
      was observed of each cell; `visits` are the visits whose records were written.
      `asked` is when the pending flush was asked for. */
  datatype Sys = Sys(cells: seq<Cell>, flush: Flush, due: Option<int>, now: nat, scheduling: nat, unsaved: bool,
                     seen: seq<seq<Seen>>, emitted: seq<Record>, visits: seq<Visited>, asked: nat)

  datatype Action =
    | Tick(ms: nat) | Count(cell: nat, err: int) | Schedule | FlushStarts | FlushVisits | FlushWrites | FlushEnds

  predicate Enabled(s: Sys, a: Action) {
    match a
    case Tick(_) => true
    case Count(k, _) => k < |s.cells| == |s.seen|
    case Schedule => s.scheduling > 0
    case FlushStarts => s.flush.Off? && s.due.Some? && s.due.value <= s.now
    case FlushVisits => s.flush.At? && s.flush.next < |s.cells| == |s.seen|
    case FlushWrites => s.flush.Holding?
    case FlushEnds => s.flush.At? && s.flush.next == |s.cells|
  }

  /** How many observations of a cell some visits have reported. */
  function Reported(k: nat, visits: seq<Visited>): nat {
    if visits == [] then 0
    else
      var last := visits[|visits| - 1];
      if last.cell == k then last.upto else Reported(k, visits[..|visits| - 1])
  }

  function Step(s: Sys, a: Action): Sys
    requires Enabled(s, a)
  {
    match a
    case Tick(ms) => s.(now := s.now + ms)
    case Count(k, err) =>
      s.(cells := s.cells[k := Counted(s.cells[k], err, s.now)], scheduling := s.scheduling + 1,
         seen := s.seen[k := s.seen[k] + [Seen(err, s.now)]])
    case Schedule =>
      // k_work_schedule keeps a deadline that is pending.
      s.(scheduling := s.scheduling - 1, due := if s.due.None? then Some(s.now + PERIOD) else s.due,
         asked := if s.due.None? then s.now else s.asked)
    case FlushStarts => s.(flush := At(0, false), due := None)
    case FlushVisits =>
      var k, c := s.flush.next, s.cells[s.flush.next];
      s.(cells := s.cells[k := Cleared(c)],
         flush := if c.dirty then Holding(k, c, Visited(k, Reported(k, s.visits), |s.seen[k]|))
                  else At(k + 1, s.flush.changed))
    case FlushWrites =>
      s.(flush := At(s.flush.next + 1, true), emitted := s.emitted + RecordsOf(s.flush.next, s.flush.copy),
         visits := s.visits + [s.flush.visit], unsaved := true)
    case FlushEnds => s.(flush := Off, unsaved := s.unsaved && !s.flush.changed)
  }

  function Run(s: Sys, actions: seq<Action>): Sys
    decreases actions
  {
    if actions == [] then s
    else Run(if Enabled(s, actions[0]) then Step(s, actions[0]) else s, actions[1..])
  }

  function Start(n: nat): Sys {
    Sys(seq(n, _ => ZERO), Off, None, 0, 0, false, seq(n, _ => []), [], [], 0)
  }

  /** The last error among some observations, 0 if there was none. */
  function LastError(seen: seq<Seen>): nat {
    if seen == [] then 0
    else if seen[|seen| - 1].err != 0 then Magnitude(seen[|seen| - 1].err)
    else LastError(seen[..|seen| - 1])
  }

  /** A summary carries the size of the last error among its observations, up to 255, and none if there
      was none. */
  lemma {:induction false} ErrorIsSeen(seen: seq<Seen>)
    ensures LastError(seen) != 0 <==> exists i :: 0 <= i < |seen| && seen[i].err != 0
    ensures forall i :: 0 <= i < |seen| && seen[i].err != 0 && (forall k :: i < k < |seen| ==> seen[k].err == 0) ==>
              var size := if seen[i].err < 0 then -seen[i].err else seen[i].err;
              LastError(seen) == if size > 255 then 255 else size
    decreases |seen|
  {
    if seen != [] {
      ErrorIsSeen(seen[..|seen| - 1]);
      assert forall i :: 0 <= i < |seen| - 1 ==> seen[..|seen| - 1][i] == seen[i];
    }
  }

  /** The records that are due for the observations from..upto of a cell. */
  function Summary(k: nat, seen: seq<Seen>, from: nat): seq<Record>
    requires from < |seen|
  {
    var time, error := seen[|seen| - 1].time, LastError(seen[from..]);
    [CountRecord(time, k, |seen| % 0x1_0000)] + if error != 0 then [ErrorRecord(time, k, error)] else []
  }

  ghost predicate GoodVisit(seen: seq<seq<Seen>>, v: Visited) {
    v.cell < |seen| && v.from < v.upto <= |seen[v.cell]|
  }

  ghost predicate GoodVisits(seen: seq<seq<Seen>>, visits: seq<Visited>) {
    forall i :: 0 <= i < |visits| ==> GoodVisit(seen, visits[i])
  }

  /** Each visit to a cell begins where the one before it ended: the visits to a cell divide its
      observations. */
  ghost predicate Chained(visits: seq<Visited>) {
    forall i :: 0 <= i < |visits| ==> visits[i].from == Reported(visits[i].cell, visits[..i])
  }

  function Summaries(seen: seq<seq<Seen>>, visits: seq<Visited>): seq<Record>
    requires GoodVisits(seen, visits)
  {
    if visits == [] then []
    else
      var v := visits[|visits| - 1];
      assert GoodVisit(seen, v);
      Summaries(seen, visits[..|visits| - 1]) + Summary(v.cell, seen[v.cell][..v.upto], v.from)
  }

  /** The visits made, with the one whose records are being written. */
  function Made(s: Sys): seq<Visited> {
    if s.flush.Holding? then s.visits + [s.flush.visit] else s.visits
  }

  /** A cell as its observations make it, of which `reported` were visited. */
  function CellOf(seen: seq<Seen>, reported: nat): Cell
    requires reported <= |seen|
  {
    Cell(if seen == [] then 0 else seen[|seen| - 1].time, |seen| % 0x1_0000, LastError(seen[reported..]),
         reported < |seen|)
  }

  /** A running flush has yet to visit this cell. */
  predicate Ahead(f: Flush, k: nat) {
    (f.At? && f.next <= k) || (f.Holding? && f.next < k)
  }

  ghost predicate CellsTrue(s: Sys) {
    && |s.cells| == |s.seen|
    && forall k :: 0 <= k < |s.cells| ==>
         Reported(k, Made(s)) <= |s.seen[k]| && s.cells[k] == CellOf(s.seen[k], Reported(k, Made(s)))
  }

  ghost predicate RecordsTrue(s: Sys) {
    && GoodVisits(s.seen, Made(s)) && Chained(Made(s))
    && GoodVisits(s.seen, s.visits) && s.emitted == Summaries(s.seen, s.visits)
    && (s.flush.Holding? ==>
          var v := s.flush.visit;
          GoodVisit(s.seen, v) && v.cell == s.flush.next && s.flush.copy == CellOf(s.seen[v.cell][..v.upto], v.from))
  }

  ghost predicate OnTheWay(s: Sys) {
    && (forall k :: 0 <= k < |s.cells| && s.cells[k].dirty ==> s.due.Some? || Ahead(s.flush, k) || s.scheduling > 0)
    && (s.due.Some? ==> s.due.value == s.asked + 5000 && s.asked <= s.now)
    && (s.unsaved ==> !s.flush.Off? && (s.flush.At? ==> s.flush.changed))
    && (s.flush.At? || s.flush.Holding? ==> s.flush.next <= |s.cells|)
  }

  ghost predicate Inv(s: Sys) { CellsTrue(s) && RecordsTrue(s) && OnTheWay(s) }

  lemma ReportedAppend(k: nat, visits: seq<Visited>, v: Visited)
    ensures Reported(k, visits + [v]) == if v.cell == k then v.upto else Reported(k, visits)
  {
    assert (visits + [v])[..|visits|] == visits;
  }

  lemma CountedCell(seen: seq<Seen>, reported: nat, o: Seen)
    requires reported <= |seen|
    ensures CellOf(seen + [o], reported) == Counted(CellOf(seen, reported), o.err, o.time)
  {
    var more := (seen + [o])[reported..];
    assert more == seen[reported..] + [o] && more[..|more| - 1] == seen[reported..];
  }

  /** New observations do not change what earlier visits had to report. */
  lemma {:induction false} SummariesStay(seen: seq<seq<Seen>>, visits: seq<Visited>, k: nat, o: Seen)
    requires GoodVisits(seen, visits) && k < |seen|
    ensures var more := seen[k := seen[k] + [o]];
      GoodVisits(more, visits) && Summaries(more, visits) == Summaries(seen, visits)
    decreases |visits|
  {
    var more := seen[k := seen[k] + [o]];
    assert forall i :: 0 <= i < |visits| ==> GoodVisit(seen, visits[i]) ==> GoodVisit(more, visits[i]);
    if visits != [] {
      var v := visits[|visits| - 1];
      SummariesStay(seen, visits[..|visits| - 1], k, o);
      assert GoodVisit(seen, v) && more[v.cell][..v.upto] == seen[v.cell][..v.upto];
    }
  }

  lemma CountKeepsRecords(s: Sys, k: nat, err: int)
    requires Inv(s) && Enabled(s, Count(k, err))
    ensures RecordsTrue(Step(s, Count(k, err)))
  {
    var o := Seen(err, s.now);
    SummariesStay(s.seen, s.visits, k, o);
    SummariesStay(s.seen, Made(s), k, o);
    if s.flush.Holding? {
      var v := s.flush.visit;
      assert Step(s, Count(k, err)).seen[v.cell][..v.upto] == s.seen[v.cell][..v.upto];
    }
  }

  lemma CountKeepsCells(s: Sys, k: nat, err: int)
    requires CellsTrue(s) && Enabled(s, Count(k, err))
    ensures CellsTrue(Step(s, Count(k, err)))
  {
    assert Made(Step(s, Count(k, err))) == Made(s);
    CountedCell(s.seen[k], Reported(k, Made(s)), Seen(err, s.now));
  }

  lemma CountOnTheWay(s: Sys, k: nat, err: int)
    requires OnTheWay(s) && Enabled(s, Count(k, err))
    ensures OnTheWay(Step(s, Count(k, err)))
  {
  }

  lemma CountKeeps(s: Sys, k: nat, err: int)
    requires Inv(s) && Enabled(s, Count(k, err))
    ensures Inv(Step(s, Count(k, err)))
  {
    CountKeepsCells(s, k, err);
    CountKeepsRecords(s, k, err);
    CountOnTheWay(s, k, err);
  }

  /** The cell that a visit clears is then as if all its observations were reported. */
  lemma ClearedCell(seen: seq<Seen>, reported: nat)
    requires reported <= |seen|
    ensures Cleared(CellOf(seen, reported)) == CellOf(seen, |seen|)
    ensures !CellOf(seen, reported).dirty ==> reported == |seen|
    ensures seen[..|seen|] == seen
  {
    assert seen[|seen|..] == [];
  }

  lemma CleanVisitKeeps(s: Sys)
    requires Inv(s) && Enabled(s, FlushVisits) && !s.cells[s.flush.next].dirty
    ensures Inv(Step(s, FlushVisits))
  {
    var k := s.flush.next;
    ClearedCell(s.seen[k], Reported(k, s.visits));
    assert Step(s, FlushVisits).cells == s.cells;
  }

  lemma DirtyVisitCells(s: Sys)
    requires Inv(s) && Enabled(s, FlushVisits) && s.cells[s.flush.next].dirty
    ensures CellsTrue(Step(s, FlushVisits))
  {
    var k, s1 := s.flush.next, Step(s, FlushVisits);
    var v := s1.flush.visit;
    ClearedCell(s.seen[k], v.from);
    forall j: nat ensures Reported(j, Made(s1)) == if j == k then v.upto else Reported(j, Made(s)) {
      ReportedAppend(j, s.visits, v);
    }
  }

  lemma DirtyVisitRecords(s: Sys)
    requires Inv(s) && Enabled(s, FlushVisits) && s.cells[s.flush.next].dirty
    ensures RecordsTrue(Step(s, FlushVisits))
  {
    var s1 := Step(s, FlushVisits);
    var v := s1.flush.visit;
    ClearedCell(s.seen[v.cell], v.from);
    VisitChained(s.visits, v);
    assert GoodVisit(s1.seen, v) && Made(s1) == s.visits + [v];
  }

  lemma DirtyVisitKeeps(s: Sys)
    requires Inv(s) && Enabled(s, FlushVisits) && s.cells[s.flush.next].dirty
    ensures Inv(Step(s, FlushVisits))
  {
    DirtyVisitCells(s);
    DirtyVisitRecords(s);
    assert OnTheWay(Step(s, FlushVisits));
  }

  lemma VisitChained(visits: seq<Visited>, v: Visited)
    requires Chained(visits) && v.from == Reported(v.cell, visits)
    ensures Chained(visits + [v])
  {
    var more := visits + [v];
    assert more[..|visits|] == visits;
    assert forall i :: 0 <= i < |visits| ==> more[..i] == visits[..i];
  }

  lemma SummariesAppend(seen: seq<seq<Seen>>, visits: seq<Visited>, v: Visited)
    requires GoodVisits(seen, visits) && GoodVisit(seen, v)
    ensures GoodVisits(seen, visits + [v])
    ensures Summaries(seen, visits + [v]) == Summaries(seen, visits) + Summary(v.cell, seen[v.cell][..v.upto], v.from)
  {
    assert (visits + [v])[..|visits|] == visits;
  }

  lemma RecordsAreSummary(k: nat, seen: seq<Seen>, from: nat)
    requires from < |seen|
    ensures RecordsOf(k, CellOf(seen, from)) == Summary(k, seen, from)
  {
  }

  lemma WriteKeepsRecords(s: Sys)
    requires RecordsTrue(s) && s.flush.Holding?
    ensures RecordsTrue(Step(s, FlushWrites))
  {
    var v := s.flush.visit;
    SummariesAppend(s.seen, s.visits, v);
    RecordsAreSummary(v.cell, s.seen[v.cell][..v.upto], v.from);
  }

  lemma WriteKeepsCells(s: Sys)
    requires CellsTrue(s) && s.flush.Holding?
    ensures CellsTrue(Step(s, FlushWrites))
  {
    assert Made(Step(s, FlushWrites)) == Made(s);
  }

  lemma WriteKeepsWay(s: Sys)
    requires OnTheWay(s) && s.flush.Holding? && s.flush.next < |s.cells|
    ensures OnTheWay(Step(s, FlushWrites))
  {
  }

  lemma WriteKeeps(s: Sys)
    requires Inv(s) && Enabled(s, FlushWrites)
    ensures Inv(Step(s, FlushWrites))
  {
    WriteKeepsCells(s);
    WriteKeepsRecords(s);
    WriteKeepsWay(s);
  }

  lemma StepKeeps(s: Sys, a: Action)
    requires Inv(s) && Enabled(s, a)
    ensures Inv(Step(s, a))
  {
    match a
    case Count(k, err) => CountKeeps(s, k, err);
    case FlushVisits => if s.cells[s.flush.next].dirty { DirtyVisitKeeps(s); } else { CleanVisitKeeps(s); }
    case FlushWrites => WriteKeeps(s);
    case _ =>
  }

  lemma {:induction false} RunKeeps(s: Sys, actions: seq<Action>)
    requires Inv(s)
    ensures Inv(Run(s, actions))
    decreases actions
  {
    if actions != [] {
      if Enabled(s, actions[0]) {
        StepKeeps(s, actions[0]);
        RunKeeps(Step(s, actions[0]), actions[1..]);
      } else {
        RunKeeps(s, actions[1..]);
      }
    }
  }

  lemma StartKeeps(n: nat)
    ensures Inv(Start(n))
  {
  }

  /** In every run, with observations at any moment of a flush: the records written are exactly
      the summaries of the visits made, the visits to each cell divide its observations in order,
      a cell is marked exactly if some observations are not reported yet, and then a flush is
      pending, a running one has yet to visit it, or an observer is about to schedule one. The
      deadline is five seconds after the flush was first asked for, and written records are followed by a save. */
  lemma NothingLost(n: nat, actions: seq<Action>)
    ensures var s := Run(Start(n), actions);
      && |s.cells| == |s.seen|
      && GoodVisits(s.seen, s.visits) && s.emitted == Summaries(s.seen, s.visits)
      && Chained(Made(s))
      && (forall k :: 0 <= k < |s.cells| ==>
            && (s.cells[k].dirty <==> Reported(k, Made(s)) < |s.seen[k]|)
            && (s.cells[k].dirty ==> s.due.Some? || Ahead(s.flush, k) || s.scheduling > 0))
      && (s.due.Some? ==> s.due.value == s.asked + 5000 && s.asked <= s.now)
      && (s.unsaved ==> !s.flush.Off?)
  {
    StartKeeps(n);
    RunKeeps(Start(n), actions);
  }

  /** The total in the last count record of a cell. */
  function LastTotal(k: nat, records: seq<Record>): Option<u16> {
    if records == [] then None
    else
      match records[|records| - 1]
      case CountRecord(_, cell, total) => if cell == k then Some(total) else LastTotal(k, records[..|records| - 1])
      case ErrorRecord(_, _, _) => LastTotal(k, records[..|records| - 1])
  }

  lemma LastTotalAppend(k: nat, records: seq<Record>, r: Record)
    ensures LastTotal(k, records + [r])
            == if r.CountRecord? && r.cell == k then Some(r.total) else LastTotal(k, records)
  {
    assert (records + [r])[..|records|] == records;
  }

  lemma {:induction false} LastTotalIsReported(seen: seq<seq<Seen>>, visits: seq<Visited>, k: nat)
    requires GoodVisits(seen, visits)
    ensures LastTotal(k, Summaries(seen, visits))
            == if Reported(k, visits) == 0 then None else Some(Reported(k, visits) % 0x1_0000)
    decreases |visits|
  {
    if visits != [] {
      var front, v := visits[..|visits| - 1], visits[|visits| - 1];
      assert GoodVisit(seen, v);
      LastTotalIsReported(seen, front, k);
      var records, summary := Summaries(seen, front), Summary(v.cell, seen[v.cell][..v.upto], v.from);
      LastTotalAppend(k, records, summary[0]);
      if |summary| == 2 {
        LastTotalAppend(k, records + [summary[0]], summary[1]);
        assert records + [summary[0]] + [summary[1]] == records + summary;
      } else {
        assert records + [summary[0]] == records + summary;
      }
    }
  }

  /** Whatever is going on with other cells: the last total written for a cell that is not marked,
      and that no flush is just writing, is the number of its observations mod 65536. */
  lemma CleanMeansReported(n: nat, actions: seq<Action>, k: nat)
    requires var s := Run(Start(n), actions);
      k < |s.cells| && !s.cells[k].dirty && !(s.flush.Holding? && s.flush.next == k)
    ensures var s := Run(Start(n), actions);
      k < |s.seen| && LastTotal(k, s.emitted) == if s.seen[k] == [] then None else Some(|s.seen[k]| % 0x1_0000)
  {
    StartKeeps(n);
    RunKeeps(Start(n), actions);
    var s := Run(Start(n), actions);
    LastTotalIsReported(s.seen, s.visits, k);
    if s.flush.Holding? {
      ReportedAppend(k, s.visits, s.flush.visit);
    }
  }

  /** In particular, when no flush is pending, running or about to be scheduled, all cells are. */
  lemma QuietMeansReported(n: nat, actions: seq<Action>, k: nat)
    requires var s := Run(Start(n), actions); k < |s.seen| && s.due.None? && s.flush.Off? && s.scheduling == 0
    ensures var s := Run(Start(n), actions);
      LastTotal(k, s.emitted) == if s.seen[k] == [] then None else Some(|s.seen[k]| % 0x1_0000)
  {
    NothingLost(n, actions);
    CleanMeansReported(n, actions, k);
  }

  /** How many cells a flush has cleared. */
  function Passed(s: Sys): nat {
    match s.flush
    case Off => |s.cells|
    case At(next, _) => next
    case Holding(next, _, _) => next + 1
  }

  predicate Undisturbed(actions: seq<Action>) {
    forall i :: 0 <= i < |actions| ==> !actions[i].Count? && !actions[i].FlushStarts?
  }

  ghost predicate PassedClean(s: Sys) {
    forall k :: 0 <= k < |s.cells| && k < Passed(s) ==> !s.cells[k].dirty
  }

  lemma PassedStep(s: Sys, a: Action)
    requires PassedClean(s) && Enabled(s, a) && !a.Count? && !a.FlushStarts?
    ensures PassedClean(Step(s, a))
  {
  }

  lemma {:induction false} PassedStayClean(s: Sys, actions: seq<Action>)
    requires PassedClean(s) && Undisturbed(actions)
    ensures PassedClean(Run(s, actions))
    decreases actions
  {
    if actions != [] {
      if Enabled(s, actions[0]) {
        PassedStep(s, actions[0]);
        PassedStayClean(Step(s, actions[0]), actions[1..]);
      } else {
        PassedStayClean(s, actions[1..]);
      }
    }
  }

  lemma {:induction false} RunAppend(s: Sys, a: seq<Action>, b: seq<Action>)
    ensures Run(s, a + b) == Run(Run(s, a), b)
    decreases |a|
  {
    if a == [] {
      assert a + b == b;
    } else {
      assert (a + b)[1..] == a[1..] + b;
      RunAppend(if Enabled(s, a[0]) then Step(s, a[0]) else s, a[1..], b);
    }
  }

  /** Each flush that no observation overlaps, from its start to its end, leaves the last total
      written for every observed cell equal to the number of its observations mod 65536. */
  lemma FlushReportsAll(n: nat, before: seq<Action>, during: seq<Action>, k: nat)
    requires var s := Run(Start(n), before); s.flush.At? && s.flush.next == 0
    requires Undisturbed(during)
    requires var s1 := Run(Start(n), before + during); s1.flush.Off? && k < |s1.seen|
    ensures var s1 := Run(Start(n), before + during);
      LastTotal(k, s1.emitted) == if s1.seen[k] == [] then None else Some(|s1.seen[k]| % 0x1_0000)
  {
    StartKeeps(n);
    RunKeeps(Start(n), before);
    RunKeeps(Start(n), before + during);
    RunAppend(Start(n), before, during);
    PassedStayClean(Run(Start(n), before), during);
    CleanMeansReported(n, before + during, k);
  }

  /** The turns of the flush loop for the first n cells. */
  function Turns(n: nat): seq<Action> { if n == 0 then [] else Turns(n - 1) + [FlushVisits, FlushWrites] }

  lemma RunTwo(s: Sys, a: Action, b: Action)
    ensures var s1 := if Enabled(s, a) then Step(s, a) else s;
      Run(s, [a, b]) == if Enabled(s1, b) then Step(s1, b) else s1
  {
    var s1 := if Enabled(s, a) then Step(s, a) else s;
    assert [a, b][1..] == [b] && [b][1..] == [];
    assert Run(s, [a, b]) == Run(s1, [b]);
    assert Run(s1, [b]) == Run(if Enabled(s1, b) then Step(s1, b) else s1, []);
  }

  /** The loop, undisturbed, writes what the method that runs it whole writes. */
  lemma {:induction false} TurnsWrite(s: Sys, n: nat)
    requires |s.cells| == |s.seen| && n <= |s.cells| && s.flush == At(0, false)
    ensures var s1 := Run(s, Turns(n));
      && s1.flush.At? && s1.flush.next == n && s1.emitted == s.emitted + FlushRecords(s.cells, n)
      && |s1.cells| == |s1.seen| == |s.cells| && forall k :: n <= k < |s.cells| ==> s1.cells[k] == s.cells[k]
    decreases n
  {
    if n > 0 {
      TurnsWrite(s, n - 1);
      RunAppend(s, Turns(n - 1), [FlushVisits, FlushWrites]);
      RunTwo(Run(s, Turns(n - 1)), FlushVisits, FlushWrites);
    } else {
      assert s.emitted + [] == s.emitted;
    }
  }

  /** A flush starts somewhere in the run. */
  predicate Flushes(s: Sys, actions: seq<Action>)
    decreases actions
  {
    actions != [] &&
    ((Enabled(s, actions[0]) && actions[0].FlushStarts?)
     || Flushes(if Enabled(s, actions[0]) then Step(s, actions[0]) else s, actions[1..]))
  }

  /** Over any run, continuous typing included, a pending deadline stands until its flush starts. */
  lemma {:induction false} DeadlineKept(s: Sys, actions: seq<Action>)
    requires s.due.Some? && !Flushes(s, actions)
    ensures Run(s, actions).due == s.due
    decreases actions
  {
    if actions != [] {
      DeadlineKept(if Enabled(s, actions[0]) then Step(s, actions[0]) else s, actions[1..]);
    }
  }
}
