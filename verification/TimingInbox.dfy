/** The bounded inbox of timing records (src/diagnostic_timing.c): filled from any context under
    a spinlock, drained by the system work queue into the journal. */
module TimingInbox {
  import opened Common
  import opened JournalModel
  import HostEventLog

  const TIMING_CAP := 24
  const DROPPED_MAX := 255
  const TIMING_DROPPED: u8 := 30

  /** Records oldest first, and the saturating count of those refused since the last report. */
  datatype Inbox = Inbox(queue: seq<Event>, dropped: nat)

  const EMPTY := Inbox([], 0)

  ghost predicate Bounded(x: Inbox) { |x.queue| <= TIMING_CAP && x.dropped <= DROPPED_MAX }

  function Put(x: Inbox, r: Event): Inbox {
    if |x.queue| < TIMING_CAP then x.(queue := x.queue + [r])
    else if x.dropped < DROPPED_MAX then x.(dropped := x.dropped + 1)
    else x
  }

  /** One critical section of the drain loop. */
  datatype Popped = Next(r: Event) | Finished(dropped: nat)

  function Take(x: Inbox): (Inbox, Popped) {
    if x.queue == [] then (x.(dropped := 0), Finished(x.dropped))
    else (x.(queue := x.queue[1..]), Next(x.queue[0]))
  }

  /** The overflow record that closes a drain. */
  function Overflow(now: u32, dropped: nat): Event
    requires dropped <= DROPPED_MAX
  {
    Event(now, TIMING_DROPPED, -1, -1, dropped, 0, 0)
  }

  /** Deliver records to the journal; timing records never ask for a save. */
  function RecordAll(c: Config, j: Journal, rs: seq<Event>): Journal
    decreases rs
  {
    if rs == [] then j else RecordAll(c, Record(c, j, rs[0], false).0, rs[1..])
  }

  /** What an undisturbed drain delivers. */
  function Drained(x: Inbox, now: u32): seq<Event>
    requires x.dropped <= DROPPED_MAX
  {
    x.queue + if x.dropped > 0 then [Overflow(now, x.dropped)] else []
  }

  lemma {:induction false} RecordAllAppend(c: Config, j: Journal, rs: seq<Event>, r: Event)
    ensures RecordAll(c, j, rs + [r]) == Record(c, RecordAll(c, j, rs), r, false).0
    decreases rs
  {
    if rs == [] {
      assert rs + [r] == [r];
    } else {
      assert (rs + [r])[1..] == rs[1..] + [r];
      RecordAllAppend(c, Record(c, j, rs[0], false).0, rs[1..], r);
    }
  }

  /** The queued records, from the head round the buffer. */
  function Queue(a: seq<Event>, head: nat, count: nat): (q: seq<Event>)
    requires head < |a| && count <= |a|
  {
    seq(count, i requires 0 <= i < count => a[Wrap(head + i, |a|)])
  }

  lemma QueuePut(a: seq<Event>, head: nat, count: nat, r: Event)
    requires head < |a| && count < |a|
    ensures Queue(a[Wrap(head + count, |a|) := r], head, count + 1) == Queue(a, head, count) + [r]
  {
    var n := |a|;
    var a' := a[Wrap(head + count, n) := r];
    forall i | 0 <= i <= count
      ensures Queue(a', head, count + 1)[i] == (Queue(a, head, count) + [r])[i]
    {
      assert Queue(a', head, count + 1)[i] == a'[Wrap(head + i, n)];
      assert i < count ==> Wrap(head + i, n) != Wrap(head + count, n);
    }
  }

  lemma QueueTake(a: seq<Event>, head: nat, count: nat)
    requires head < |a| && 0 < count <= |a|
    ensures Queue(a, head, count)[0] == a[head]
    ensures Queue(a, Wrap(head + 1, |a|), count - 1) == Queue(a, head, count)[1..]
  {
    var n := |a|;
    assert Wrap(head + 0, n) == head;
    forall i | 0 <= i < count - 1
      ensures Queue(a, Wrap(head + 1, n), count - 1)[i] == Queue(a, head, count)[1..][i]
    {
      assert Wrap(Wrap(head + 1, n) + i, n) == Wrap(head + (i + 1), n);
    }
  }

  class TimingLog {
    const inbox: array<Event>
    var head: nat
    var count: nat
    var dropped: nat

    ghost predicate Valid()
      reads this
    {
      inbox.Length == TIMING_CAP && head < TIMING_CAP && count <= TIMING_CAP && dropped <= DROPPED_MAX
    }

    ghost function Abs(): Inbox
      reads this, inbox
      requires Valid()
    {
      Inbox(Queue(inbox[..], head, count), dropped)
    }

    constructor ()
      ensures Valid() && Abs() == EMPTY && fresh(inbox)
    {
      inbox := new Event[TIMING_CAP](_ => HostEventLog.NO_EVENT);
      head, count, dropped := 0, 0, 0;
    }

    method Capture(r: Event)
      requires Valid()
      modifies this, inbox
      ensures Valid() && Abs() == Put(old(Abs()), r)
    {
      if count < TIMING_CAP {
        WrapIsMod(head + count, TIMING_CAP);
        QueuePut(inbox[..], head, count, r);
        ghost var was := inbox[..];
        inbox[(head + count) % TIMING_CAP] := r;
        assert inbox[..] == was[(head + count) % TIMING_CAP := r];
        count := count + 1;
      } else if dropped < DROPPED_MAX {
        dropped := dropped + 1;
      }
    }

    /** The body of the drain loop up to the unlock. */
    method Pop() returns (out: Popped)
      requires Valid()
      modifies this
      ensures Valid() && (Abs(), out) == Take(old(Abs()))
    {
      assert |Abs().queue| == count;
      if count == 0 {
        out := Finished(dropped);
        dropped := 0;
      } else {
        out := Next(inbox[head]);
        QueueTake(inbox[..], head, count);
        WrapIsMod(head + 1, TIMING_CAP);
        head := (head + 1) % TIMING_CAP;
        count := count - 1;
      }
    }

    /** timing_drain with nothing captured meanwhile. */
    method Drain(log: HostEventLog.Log, now: u32)
      requires Valid() && log.Valid() && log.ring != inbox
      modifies this, log, log.ring
      ensures Valid() && Abs() == EMPTY
      ensures log.Valid() && log.Abs() == RecordAll(log.c, old(log.Abs()), Drained(old(Abs()), now))
    {
      ghost var sent: seq<Event> := [];
      ghost var j := log.Abs();
      var out := Pop();
      while out.Next?
        invariant Valid() && log.Valid()
        invariant log.Abs() == RecordAll(log.c, j, sent)
        invariant match out
                  case Next(r) => sent + [r] + Abs().queue == old(Abs()).queue && dropped == old(dropped)
                  case Finished(refused) => sent == old(Abs()).queue && refused == old(dropped) && Abs() == EMPTY
        decreases out.Next?, |Abs().queue|
      {
        var r := out.r;
        RecordAllAppend(log.c, j, sent, r);
        var _ := log.Record(r, false);
        sent := sent + [r];
        assert sent + [] == sent;
        ghost var queue := Abs().queue;
        out := Pop();
        assert out.Next? ==> sent + [out.r] + Abs().queue == sent + queue;
      }
      if out.dropped > 0 {
        RecordAllAppend(log.c, j, sent, Overflow(now, out.dropped));
        var _ := log.Record(Overflow(now, out.dropped), false);
      }
      assert sent + [] == sent;
    }
  }
}
