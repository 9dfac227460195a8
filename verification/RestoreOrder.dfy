/** Restoring does not depend on the order in which the settings backend delivers the slots,
    nor on which slot holds which block (src/host_event_log.c). */
module RestoreOrder {
  import opened Common
  import opened JournalModel
  import opened JournalRuns

  /** Deliver the valid contents of the listed slots in turn. */
  function DeliverAll(c: Config, j: Journal, cells: seq<Option<Block>>, order: seq<nat>): Journal
    requires |j.mirror| == c.slots == |cells| && Fits(c, cells)
    decreases order
  {
    if order == [] then j
    else
      var j' := if order[0] < c.slots && cells[order[0]].Some? then Deliver(c, j, cells[order[0]].value) else j;
      DeliverAll(c, j', cells, order[1..])
  }

  predicate Fits(c: Config, cells: seq<Option<Block>>) {
    && |cells| == c.slots
    && forall k: nat :: k < c.slots && cells[k].Some? ==>
         cells[k].value.slot == k && 1 <= |cells[k].value.ev| && 1 <= cells[k].value.first
         && 1 <= cells[k].value.journalSeq
  }

  ghost predicate DistinctSequences(cells: seq<Option<Block>>) {
    forall i: nat, k: nat :: i < k < |cells| && cells[i].Some? && cells[k].Some? ==>
      cells[i].value.journalSeq != cells[k].value.journalSeq
  }

  /** Each slot at most once: the settings backend holds one value per key. */
  ghost predicate NoRepeats(order: seq<nat>) {
    forall i, k :: 0 <= i < k < |order| ==> order[i] != order[k]
  }

  /** A journal that has seen nothing but recording and refused saves since it booted. */
  ghost predicate JustBooted(c: Config, j: Journal) {
    && !j.ready && j.persisted == 0 && j.journalSeq == 0 && j.nextSlot == 0
    && j.mirror == seq(c.slots, _ => None)
  }

  lemma {:induction false} DeliverAllRestores(c: Config, j: Journal, cells: seq<Option<Block>>, order: seq<nat>)
    requires ValidConfig(c) && Restored(c, j) && Fits(c, cells) && NoRepeats(order)
    requires forall k: nat :: k in order && k < c.slots ==> j.mirror[k].None?
    ensures var j' := DeliverAll(c, j, cells, order);
      && Restored(c, j')
      && (forall k: nat :: k < c.slots ==> j'.mirror[k] == if k in order then cells[k] else j.mirror[k])
      && j' == j.(mirror := j'.mirror, journalSeq := j'.journalSeq, nextSlot := j'.nextSlot, persisted := j'.persisted)
    decreases order
  {
    if order != [] {
      var k := order[0];
      assert forall x :: x in order <==> x == k || x in order[1..];
      assert k !in order[1..];
      if k < c.slots && cells[k].Some? {
        RestoredStep(c, j, cells[k].value);
        DeliverAllRestores(c, Deliver(c, j, cells[k].value), cells, order[1..]);
      } else {
        DeliverAllRestores(c, j, cells, order[1..]);
      }
    }
  }

  /** The mirrored blocks determine the counters. */
  lemma RestoredUnique(c: Config, j1: Journal, j2: Journal)
    requires ValidConfig(c) && Restored(c, j1) && Restored(c, j2)
    requires j1.mirror == j2.mirror && DistinctSequences(j1.mirror)
    ensures j1.journalSeq == j2.journalSeq && j1.nextSlot == j2.nextSlot && j1.persisted == j2.persisted
  {
    if m1: nat, p1: nat :| NewestAt(c, j1, m1, p1) {
      var m2: nat, p2: nat :| NewestAt(c, j2, m2, p2);
      assert j1.mirror[m1].value.journalSeq == j1.mirror[m2].value.journalSeq;
    }
  }

  /** Any two orders of the same slots restore the same journal. */
  lemma RestoreOrderIndependent(c: Config, j: Journal, cells: seq<Option<Block>>, order1: seq<nat>, order2: seq<nat>)
    requires ValidConfig(c) && JustBooted(c, j) && Fits(c, cells) && DistinctSequences(cells)
    requires NoRepeats(order1) && NoRepeats(order2) && forall k: nat :: k in order1 <==> k in order2
    ensures DeliverAll(c, j, cells, order1) == DeliverAll(c, j, cells, order2)
  {
    DeliverAllRestores(c, j, cells, order1);
    DeliverAllRestores(c, j, cells, order2);
    var j1, j2 := DeliverAll(c, j, cells, order1), DeliverAll(c, j, cells, order2);
    assert j1.mirror == j2.mirror;
    RestoredUnique(c, j1, j2);
  }

  // ----- the previous boot's state -----

  ghost predicate SameEvents(m1: seq<Option<Block>>, m2: seq<Option<Block>>) {
    forall n: nat, e :: Saved(m1, n, e) <==> Saved(m2, n, e)
  }

  ghost predicate UniqueNumbers(m: seq<Option<Block>>) {
    forall n: nat, e, e' :: Saved(m, n, e) && Saved(m, n, e') ==> e == e'
  }

  lemma LatestUnique(m1: seq<Option<Block>>, m2: seq<Option<Block>>, p: Event -> bool,
                     r1: Option<(nat, Event)>, r2: Option<(nat, Event)>)
    requires SameEvents(m1, m2) && UniqueNumbers(m1) && Latest(m1, p, r1) && Latest(m2, p, r2)
    ensures r1 == r2
  {
    if r1.Some? {
      assert Saved(m2, r1.value.0, r1.value.1);
    }
    if r2.Some? {
      assert Saved(m1, r2.value.0, r2.value.1);
    }
  }

  /** The reported uptime, profile and endpoint depend only on which events are saved, not on
      the slots that hold them. */
  lemma PreviousStateLayoutIndependent(m1: seq<Option<Block>>, m2: seq<Option<Block>>,
                                       u1: u32, p1: i8, e1: i8, u2: u32, p2: i8, e2: i8)
    requires SameEvents(m1, m2) && UniqueNumbers(m1)
    requires PreviousState(m1, u1, p1, e1) && PreviousState(m2, u2, p2, e2)
    ensures u1 == u2 && p1 == p2 && e1 == e2
  {
    var a1, b1, d1 :| PreviousFrom(m1, a1, b1, d1, u1, p1, e1);
    var a2, b2, d2 :| PreviousFrom(m2, a2, b2, d2, u2, p2, e2);
    LatestUnique(m1, m2, AnyEvent, a1, a2);
    LatestUnique(m1, m2, CarriesProfile, b1, b2);
    LatestUnique(m1, m2, CarriesEndpoint, d1, d2);
  }

  lemma MirrorIsGood(c: Config, s: Sys)
    requires Inv(c, s)
    ensures GoodCells(c, s, s.j.mirror)
  {
    if !s.j.ready {
      forall k: nat | k < c.slots && s.j.mirror[k].Some? ensures GoodBlock(c, s, k, s.j.mirror[k].value) {
        assert s.flash[k] == s.j.mirror[k];
      }
    }
  }

  lemma GoodNumbers(c: Config, s: Sys, mirror: seq<Option<Block>>, n: nat, e: Event)
    requires GoodCells(c, s, mirror) && |mirror| == c.slots && Saved(mirror, n, e)
    ensures 1 <= n <= |s.history| && e == s.history[n - 1]
  {
    var k: nat, i: nat :| InSlot(mirror, k, i, n, e);
    assert GoodBlock(c, s, k, mirror[k].value);
  }

  /** In every reachable state the saved numbers are unique, because each stands for one event
      of the history. */
  lemma ReachableNumbersUnique(c: Config, actions: seq<Action>)
    requires ValidConfig(c)
    ensures UniqueNumbers(Run(c, Start(c), actions).j.mirror)
  {
    StartGood(c);
    RunKeeps(c, Start(c), actions);
    var s := Run(c, Start(c), actions);
    MirrorIsGood(c, s);
    forall n: nat, e | Saved(s.j.mirror, n, e) ensures 1 <= n <= |s.history| && e == s.history[n - 1] {
      GoodNumbers(c, s, s.j.mirror, n, e);
    }
  }
}
