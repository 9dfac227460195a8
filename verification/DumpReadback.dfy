/** What the printed lines of a dump say (src/host_event_log.c): they read back as exactly the saved
    blocks, the saved events and the ring's events, each with its own number. */
module DumpReadback {
  import opened Common
  import opened DumpText
  import opened JournalModel
  import opened DumpStream
  import opened DumpFields
  import R = JournalRuns
  import E = DumpEndToEnd
  import V = DumpVerifier

  // ----- reading all lines -----

  /** The details that `parse` can read, in order. */
  function ParseAll(parse: string -> Option<Printed>, details: seq<string>): seq<Printed> {
    if details == [] then []
    else
      ParseAll(parse, details[..|details| - 1])
      + match parse(details[|details| - 1])
        case Some(p) => [p]
        case None => []
  }

  /** The details of the data lines, in order. */
  function Details(rs: seq<V.Reading>): seq<string> {
    if rs == [] then []
    else
      Details(rs[..|rs| - 1])
      + match rs[|rs| - 1].data
        case Some(data) => [data.detail]
        case None => []
  }

  /** What a reader of the lines makes of them. */
  function Readback(lines: seq<string>): seq<Printed> { ParseAll(Parse, Details(Readings(lines))) }

  function Readings(lines: seq<string>): (rs: seq<V.Reading>) {
    seq(|lines|, i requires 0 <= i < |lines| => V.Read(lines[i]))
  }

  /** Each detail is read as the line in its place. */
  ghost predicate Reads(parse: string -> Option<Printed>, details: seq<string>, ps: seq<Printed>) {
    |details| == |ps| && forall i :: 0 <= i < |ps| ==> parse(details[i]) == Some(ps[i])
  }

  lemma {:induction false} ReadsAll(parse: string -> Option<Printed>, details: seq<string>, ps: seq<Printed>)
    requires Reads(parse, details, ps)
    ensures ParseAll(parse, details) == ps
    decreases |ps|
  {
    if ps != [] {
      var n := |ps| - 1;
      ReadsAll(parse, details[..n], ps[..n]);
      assert ps == ps[..n] + [ps[n]];
    }
  }

  lemma ReadsAppend(parse: string -> Option<Printed>, a: seq<string>, b: seq<string>, ps: seq<Printed>,
                    qs: seq<Printed>)
    requires Reads(parse, a, ps) && Reads(parse, b, qs)
    ensures Reads(parse, a + b, ps + qs)
  {
  }

  lemma {:induction false} ReadsJoined(parse: string -> Option<Printed>, turns: seq<seq<string>>,
                                       says: seq<seq<Printed>>, n: nat)
    requires |turns| == |says| && n <= |turns| && forall k: nat :: k < |turns| ==> Reads(parse, turns[k], says[k])
    ensures Reads(parse, Joined(turns, n), Joined(says, n))
    decreases n
  {
    if n > 0 {
      ReadsJoined(parse, turns, says, n - 1);
      ReadsAppend(parse, Joined(turns, n - 1), turns[n - 1], Joined(says, n - 1), says[n - 1]);
    }
  }

  /** Readings of which all but the first and the last are data lines with these details. */
  lemma {:induction false} DetailsBetween(rs: seq<V.Reading>, details: seq<string>, n: nat)
    requires |rs| == |details| + 2 && 1 <= n <= |details| + 1 && rs[0].data.None?
    requires forall k: nat :: 1 <= k <= |details| ==> rs[k].data.Some? && rs[k].data.value.detail == details[k - 1]
    ensures Details(rs[..n]) == details[..n - 1]
    decreases n
  {
    if n == 1 {
      assert rs[..1] == [rs[0]] && [rs[0]][..0] == [];
    } else {
      DetailsBetween(rs, details, n - 1);
      assert rs[..n][..n - 1] == rs[..n - 1];
      assert rs[..n][n - 1] == rs[n - 1];
      assert details[..n - 1] == details[..n - 2] + [details[n - 2]];
    }
  }

  lemma DetailsOfDump(d: V.Dump, lines: seq<string>)
    requires V.WellFormed(d) && lines == AllLines(d)
    ensures Details(Readings(lines)) == d.details
  {
    var rs := Readings(lines);
    var n := |d.details|;
    forall k: nat | k < n + 2 ensures rs[k] == V.OwnReading(d, k) {
      ReadingOfLine(d, lines, rs, k);
    }
    DetailsBetween(rs, d.details, n + 1);
    assert rs[..n + 1] == rs[..|rs| - 1] && d.details[..n] == d.details;
  }

  lemma ReadingOfLine(d: V.Dump, lines: seq<string>, rs: seq<V.Reading>, k: nat)
    requires V.WellFormed(d) && lines == AllLines(d) && rs == Readings(lines) && k < V.Size(d)
    ensures rs[k] == V.OwnReading(d, k)
  {
    V.OwnLine(d, k);
    assert rs[k] == V.Read(lines[k]) && lines[k] == V.Line(d, k);
  }

  // ----- what a dump should say -----

  /** The i-th event of a list is printed with number first + i. */
  function Numbered(source: char, slot: nat, first: nat, ev: seq<Event>): (ps: seq<Printed>) {
    seq(|ev|, i requires 0 <= i < |ev| => EventLine(source, slot, first + i, ev[i]))
  }

  function SlotSays(cells: seq<Option<Block>>, slot: nat): seq<Printed>
    requires slot < |cells|
  {
    if cells[slot].None? then []
    else
      var b := cells[slot].value;
      [BlockLine(slot, b.journalSeq, b.first, |b.ev|)] + Numbered('p', slot, b.first, b.ev)
  }

  /** The slots from the one to be written next, going round: oldest block first. */
  function SlotsSay(cells: seq<Option<Block>>, start: nat): (says: seq<seq<Printed>>)
    requires start < |cells|
  {
    seq(|cells|, off requires 0 <= off < |cells| =>
      SlotSays(cells, if start + off < |cells| then start + off else start + off - |cells|))
  }

  function PersistedSay(s: Snapshot): seq<Printed>
    requires s.start < |s.cells|
  {
    Joined(SlotsSay(s.cells, s.start), |s.cells|)
  }

  /** The events of the ring, the last of which has the journal's newest number. */
  function RamSays(s: Snapshot): (ps: seq<Printed>)
    requires |s.ring| <= s.ringSeq
  {
    seq(|s.ring|, i requires 0 <= i < |s.ring| => EventLine('r', 0, s.ringSeq + 1 + i - |s.ring|, s.ring[i]))
  }

  function DumpSays(s: Snapshot): seq<Printed>
    requires s.start < |s.cells| && |s.ring| <= s.ringSeq
  {
    PersistedSay(s) + RamSays(s)
  }

  /** A reader that gives back the fields of every printed detail. */
  ghost predicate Faithful(parse: string -> Option<Printed>) {
    && (forall slot: nat, b: Block ::
          parse(BlockDetail(slot, b)) == Some(BlockLine(slot, b.journalSeq, b.first, |b.ev|)))
    && (forall source: char, slot: nat, q: nat, e: Event ::
          parse(EventDetail(source, slot, q, e)) == Some(EventLine(source, slot, q, e)))
  }

  lemma ParseIsFaithful()
    ensures Faithful(Parse)
  {
    forall slot: nat, b: Block
      ensures Parse(BlockDetail(slot, b)) == Some(BlockLine(slot, b.journalSeq, b.first, |b.ev|))
    {
      BlockReadsBack(slot, b);
    }
    forall source: char, slot: nat, q: nat, e: Event
      ensures Parse(EventDetail(source, slot, q, e)) == Some(EventLine(source, slot, q, e))
    {
      EventReadsBack(source, slot, q, e);
    }
  }

  lemma EventsRead(parse: string -> Option<Printed>, source: char, slot: nat, first: nat, ev: seq<Event>,
                   ps: seq<Printed>)
    requires Faithful(parse) && |ps| == |ev|
    requires forall i :: 0 <= i < |ev| ==> ps[i] == EventLine(source, slot, first + i, ev[i])
    ensures Reads(parse, EventDetails(source, slot, first, ev), ps)
  {
    var ds := EventDetails(source, slot, first, ev);
    forall i | 0 <= i < |ev| ensures parse(ds[i]) == Some(ps[i]) {
      assert ds[i] == EventDetail(source, slot, first + i, ev[i]);
    }
  }

  lemma SlotReads(parse: string -> Option<Printed>, cells: seq<Option<Block>>, slot: nat)
    requires Faithful(parse) && slot < |cells|
    ensures Reads(parse, SlotDetails(cells, slot), SlotSays(cells, slot))
  {
    if cells[slot].Some? {
      var b := cells[slot].value;
      EventsRead(parse, 'p', slot, b.first, b.ev, Numbered('p', slot, b.first, b.ev));
      ReadsAppend(parse, [BlockDetail(slot, b)], EventDetails('p', slot, b.first, b.ev),
                  [BlockLine(slot, b.journalSeq, b.first, |b.ev|)], Numbered('p', slot, b.first, b.ev));
    }
  }

  lemma TurnReads(parse: string -> Option<Printed>, s: Snapshot, turns: seq<seq<string>>, says: seq<seq<Printed>>,
                  k: nat)
    requires Faithful(parse) && s.start < |s.cells| && k < |s.cells|
    requires turns == TurnsOf(s) && says == SlotsSay(s.cells, s.start)
    ensures Reads(parse, turns[k], says[k])
  {
    var slot := SlotAt(s.start, |s.cells|, k);
    SlotReads(parse, s.cells, slot);
    assert turns[k] == SlotDetails(s.cells, slot);
    assert says[k] == SlotSays(s.cells, slot);
  }

  /** The details of a dump are read as what it should say. */
  lemma DumpReads(parse: string -> Option<Printed>, s: Snapshot)
    requires Faithful(parse) && s.start < |s.cells| && |s.ring| <= s.ringSeq
    ensures Reads(parse, PersistedDetails(s, |s.cells|) + RamDetails(s), DumpSays(s))
  {
    var turns, says := TurnsOf(s), SlotsSay(s.cells, s.start);
    forall k: nat | k < |turns| ensures Reads(parse, turns[k], says[k]) {
      TurnReads(parse, s, turns, says, k);
    }
    ReadsJoined(parse, turns, says, |s.cells|);
    EventsRead(parse, 'r', 0, s.ringSeq - |s.ring| + 1, s.ring, RamSays(s));
    ReadsAppend(parse, PersistedDetails(s, |s.cells|), RamDetails(s), PersistedSay(s), RamSays(s));
  }

  /** The lines of a dump read back as the saved blocks with their events, oldest block first, and then
      the ring's events up to the newest number. */
  lemma DumpReadsBack(s: Snapshot, id: u32)
    requires Printable(s)
    ensures Readback(AllLines(DumpOf(s, id))) == DumpSays(s)
  {
    var d := DumpOf(s, id);
    DumpWellFormed(s, id);
    DetailsOfDump(d, AllLines(d));
    ParseIsFaithful();
    DumpReads(Parse, s);
    ReadsAll(Parse, d.details, DumpSays(s));
  }

  // ----- which lines there are -----

  lemma {:induction false} JoinedMembers<T(!new)>(parts: seq<seq<T>>, n: nat, x: T)
    requires n <= |parts|
    ensures x in Joined(parts, n) <==> exists k: nat :: k < n && x in parts[k]
    decreases n
  {
    if n > 0 {
      JoinedMembers(parts, n - 1, x);
    }
  }

  /** The turns of the slots, and where each slot's turn is. */
  lemma TurnOfSlot(s: Snapshot, k: nat) returns (off: nat)
    requires s.start < |s.cells| && k < |s.cells|
    ensures off < |s.cells| && SlotsSay(s.cells, s.start)[off] == SlotSays(s.cells, k)
  {
    off := if k >= s.start then k - s.start else k + |s.cells| - s.start;
  }

  lemma PersistedMembers(s: Snapshot, p: Printed)
    requires s.start < |s.cells|
    ensures p in PersistedSay(s) <==> exists k: nat :: k < |s.cells| && p in SlotSays(s.cells, k)
  {
    var says := SlotsSay(s.cells, s.start);
    JoinedMembers(says, |says|, p);
    if k: nat :| k < |s.cells| && p in SlotSays(s.cells, k) {
      var off := TurnOfSlot(s, k);
      assert p in says[off];
    }
    if off: nat :| off < |says| && p in says[off] {
      assert says[off] == SlotSays(s.cells, SlotAt(s.start, |s.cells|, off));
    }
  }

  lemma SlotMembers(cells: seq<Option<Block>>, k: nat, p: Printed)
    requires k < |cells|
    ensures p in SlotSays(cells, k) <==>
      cells[k].Some?
      && match p
         case BlockLine(slot, journalSeq, first, count) =>
           slot == k && journalSeq == cells[k].value.journalSeq && first == cells[k].value.first
           && count == |cells[k].value.ev|
         case EventLine(source, slot, number, e) =>
           source == 'p' && slot == k && exists i: nat :: InSlot(cells, k, i, number, e)
  {
    if cells[k].Some? {
      var b := cells[k].value;
      var head, tail := BlockLine(k, b.journalSeq, b.first, |b.ev|), Numbered('p', k, b.first, b.ev);
      assert SlotSays(cells, k) == [head] + tail;
      if p.EventLine? && p.source == 'p' && p.slot == k {
        if i: nat :| InSlot(cells, k, i, p.number, p.e) {
          assert tail[i] == p;
        }
        if p in tail {
          var j :| 0 <= j < |tail| && tail[j] == p;
          assert InSlot(cells, k, j, p.number, p.e);
        }
      }
    }
  }

  /** An event is printed as persisted from slot k exactly if it stands there with that number. */
  lemma PersistedLinesExact(s: Snapshot, id: u32, k: nat, n: nat, e: Event)
    requires Printable(s)
    ensures EventLine('p', k, n, e) in Readback(AllLines(DumpOf(s, id)))
            <==> exists i: nat :: InSlot(s.cells, k, i, n, e)
  {
    DumpReadsBack(s, id);
    PersistedEvents(s, k, n, e);
  }

  lemma PersistedEvents(s: Snapshot, k: nat, n: nat, e: Event)
    requires s.start < |s.cells| && |s.ring| <= s.ringSeq
    ensures EventLine('p', k, n, e) in DumpSays(s) <==> exists i: nat :: InSlot(s.cells, k, i, n, e)
  {
    var p := EventLine('p', k, n, e);
    PersistedMembers(s, p);
    assert p in DumpSays(s) <==> p in PersistedSay(s);
    if p in PersistedSay(s) {
      var l: nat :| l < |s.cells| && p in SlotSays(s.cells, l);
      SlotMembers(s.cells, l, p);
    }
    if i: nat :| InSlot(s.cells, k, i, n, e) {
      SlotMembers(s.cells, k, p);
    }
  }

  /** An event is printed from RAM with number n exactly if it is the n-th of all events and still in
      the ring. */
  lemma RamLinesExact(s: Snapshot, id: u32, n: nat, e: Event)
    requires Printable(s)
    ensures EventLine('r', 0, n, e) in Readback(AllLines(DumpOf(s, id))) <==> E.InRam(s, n, e)
  {
    DumpReadsBack(s, id);
    RamEvents(s, n, e);
  }

  lemma RamEvents(s: Snapshot, n: nat, e: Event)
    requires s.start < |s.cells| && |s.ring| <= s.ringSeq
    ensures EventLine('r', 0, n, e) in DumpSays(s) <==> E.InRam(s, n, e)
  {
    var p := EventLine('r', 0, n, e);
    PersistedMembers(s, p);
    forall l: nat | l < |s.cells| ensures p !in SlotSays(s.cells, l) {
      SlotMembers(s.cells, l, p);
    }
    assert p in DumpSays(s) <==> p in RamSays(s);
    if E.InRam(s, n, e) {
      assert RamSays(s)[n - (s.ringSeq - |s.ring|) - 1] == p;
    }
  }

  /** A block line is printed for each saved block, and for nothing else. */
  lemma BlockLinesExact(s: Snapshot, id: u32, k: nat, journalSeq: nat, first: nat, count: nat)
    requires Printable(s)
    ensures BlockLine(k, journalSeq, first, count) in Readback(AllLines(DumpOf(s, id)))
            <==> k < |s.cells| && s.cells[k].Some? && s.cells[k].value.journalSeq == journalSeq
                 && s.cells[k].value.first == first && |s.cells[k].value.ev| == count
  {
    DumpReadsBack(s, id);
    BlockMembers(s, BlockLine(k, journalSeq, first, count));
  }

  lemma BlockMembers(s: Snapshot, p: Printed)
    requires s.start < |s.cells| && |s.ring| <= s.ringSeq && p.BlockLine?
    ensures p in DumpSays(s) <==>
              p.slot < |s.cells| && s.cells[p.slot].Some? && s.cells[p.slot].value.journalSeq == p.journalSeq
              && s.cells[p.slot].value.first == p.first && |s.cells[p.slot].value.ev| == p.count
  {
    PersistedMembers(s, p);
    forall l: nat | l < |s.cells|
      ensures p in SlotSays(s.cells, l) <==>
                l == p.slot && s.cells[l].Some? && s.cells[l].value.journalSeq == p.journalSeq
                && s.cells[l].value.first == p.first && |s.cells[l].value.ev| == p.count
    {
      SlotMembers(s.cells, l, p);
    }
    assert p in DumpSays(s) <==> p in PersistedSay(s);
  }

  /** The slots below n that hold a block. */
  function Filled(cells: seq<Option<Block>>, n: nat): set<nat>
    requires n <= |cells|
  {
    set k: nat | k < n && cells[k].Some?
  }

  lemma {:induction false} BlocksAreFilled(cells: seq<Option<Block>>, n: nat)
    requires n <= |cells|
    ensures Blocks(cells, n) == |Filled(cells, n)|
    decreases n
  {
    if n > 0 {
      BlocksAreFilled(cells, n - 1);
      assert Filled(cells, n) == Filled(cells, n - 1) + if cells[n - 1].Some? then {n - 1} else {};
    }
  }

  /** The id, the number of all data lines and of those of each kind, and the newest number. */
  ghost predicate Announces(begin: Option<Begin>, id: nat, s: Snapshot)
    requires s.start < |s.cells| && |s.ring| <= s.ringSeq
  {
    && begin.Some?
    && begin.value.id == id && begin.value.lines == |DumpSays(s)|
    && begin.value.blocks == |Filled(s.cells, |s.cells|)|
    && begin.value.blocks + begin.value.persisted == |PersistedSay(s)|
    && begin.value.ram == |s.ring| && begin.value.seqno == s.ringSeq
  }

  /** The begin line says so. */
  lemma BeginSays(s: Snapshot, id: u32)
    requires Printable(s)
    ensures Announces(V.Read(V.Line(DumpOf(s, id), 0)).begin, id, s)
  {
    DumpWellFormed(s, id);
    V.OwnLine(DumpOf(s, id), 0);
    ParseIsFaithful();
    DumpReads(Parse, s);
    BlocksAreFilled(s.cells, |s.cells|);
    DumpCounts(s, id);
  }

  // ----- consistency of what is printed -----

  /** Every event line carries the event that was recorded under its number, and the lines after the
      persisted ones are the newest events, in order, up to the newest number of all. */
  ghost predicate TruePrint(history: seq<Event>, newest: seq<Event>, printed: seq<Printed>, persisted: nat) {
    && (forall p :: p in printed && p.EventLine? ==> 1 <= p.number <= |history| && p.e == history[p.number - 1])
    && |printed| == persisted + |newest| && |newest| <= |history|
    && forall i :: 0 <= i < |newest| ==>
         printed[persisted + i] == EventLine('r', 0, |history| - |newest| + 1 + i, newest[i])
  }

  /** A dump printed at any moment of any run, once the journal is ready: the RAM lines are the newest
      events recorded since the restart, in order, and the last of them is the newest event of all;
      every printed number stands for the event that was recorded under it; so a number that is printed
      both as persisted and from RAM carries the same event. */
  lemma PrintedConsistent(c: Config, actions: seq<R.Action>, id: u32)
    requires ValidConfig(c)
    requires R.Run(c, R.Start(c), actions).j.ready && Printable(SnapshotOf(R.Run(c, R.Start(c), actions).j))
    ensures var t := R.Run(c, R.Start(c), actions);
      TruePrint(t.history, R.Tail(R.Recorded(actions), c.cap), Readback(AllLines(DumpOf(SnapshotOf(t.j), id))),
                |PersistedSay(SnapshotOf(t.j))|)
  {
    var t := R.Run(c, R.Start(c), actions);
    E.DumpConsistent(c, actions);
    R.JournalTellsHistory(c, actions);
    DumpReadsBack(SnapshotOf(t.j), id);
    ToldIsPrinted(c, t, R.Tail(R.Recorded(actions), c.cap));
  }

  lemma RamIsTrue(t: R.Sys, s: Snapshot, p: Printed)
    requires s == SnapshotOf(t.j) && |s.ring| <= s.ringSeq == |t.history| && p in RamSays(s)
    requires s.ring == t.history[|t.history| - |s.ring|..]
    ensures 1 <= p.number <= |t.history| && p.e == t.history[p.number - 1]
  {
    var i :| 0 <= i < |s.ring| && RamSays(s)[i] == p;
  }

  lemma PersistedIsTrue(c: Config, t: R.Sys, s: Snapshot, p: Printed)
    requires R.HistoryTold(c, t) && s == SnapshotOf(t.j) && s.start < |s.cells| && p in PersistedSay(s) && p.EventLine?
    ensures 1 <= p.number <= |t.history| && p.e == t.history[p.number - 1]
  {
    PersistedMembers(s, p);
    var k: nat :| k < |s.cells| && p in SlotSays(s.cells, k);
    SlotMembers(s.cells, k, p);
    var i: nat :| InSlot(s.cells, k, i, p.number, p.e);
    assert R.ExactEvents(t, t.j.mirror[k].value);
  }

  lemma LineIsTrue(c: Config, t: R.Sys, s: Snapshot, p: Printed)
    requires R.HistoryTold(c, t) && s == SnapshotOf(t.j) && s.start < |s.cells|
    requires |s.ring| <= s.ringSeq == |t.history| && s.ring == t.history[|t.history| - |s.ring|..]
    requires p in PersistedSay(s) + RamSays(s) && p.EventLine?
    ensures 1 <= p.number <= |t.history| && p.e == t.history[p.number - 1]
  {
    if p in RamSays(s) {
      RamIsTrue(t, s, p);
    } else {
      PersistedIsTrue(c, t, s, p);
    }
  }

  lemma ToldIsPrinted(c: Config, t: R.Sys, newest: seq<Event>)
    requires R.HistoryTold(c, t) && SnapshotOf(t.j).ring == newest && t.j.nextSlot < c.slots
    ensures TruePrint(t.history, newest, DumpSays(SnapshotOf(t.j)), |PersistedSay(SnapshotOf(t.j))|)
  {
    var s := SnapshotOf(t.j);
    forall p: Printed | p in DumpSays(s) && p.EventLine?
      ensures 1 <= p.number <= |t.history| && p.e == t.history[p.number - 1]
    {
      LineIsTrue(c, t, s, p);
    }
  }
}
