/** The journal's own flash writes are timed, and the timing records go back into the journal
    (src/host_event_log.c with src/diagnostic_timing.c and src/boot_diagnostics.c). This module
    shows that the loop dies out. The save and the drain run one after the other on one work
    queue, so the records of a save reach the ring only after its commit. */
module WriteFeedback {
  import opened Common
  import opened JournalModel
  import opened TimingInbox
  import R = JournalRuns

  datatype Loop = Loop(j: Journal, inbox: Inbox, scheduled: bool)

  /** What the environment decides about one firing of the save: when it comes (after the
      minimum interval), how long it takes, whether the boot counter is still to be saved, the
      begin and end records of the two writes, and the time of an overflow report. */
  datatype Firing = Firing(slack: nat, duration: nat, counterPending: bool,
                           counterBegin: Event, counterEnd: Event, begin: Event, end: Event, reportAt: u32)

  /** One wrapped settings write: its two timing records are captured around it. */
  function TimedWrite(x: Inbox, begin: Event, end: Event): Inbox { Put(Put(x, begin), end) }

  ghost predicate WellFormed(c: Config, f: Loop) {
    && ValidConfig(c) && f.j.ready && |f.j.ring| <= c.cap && |f.j.ring| <= f.j.ringSeq
    && f.j.persisted <= f.j.ringSeq && f.j.nextSlot < c.slots == |f.j.mirror| && Bounded(f.inbox)
    && (f.j.ring == [] ==> f.j.ringSeq == f.j.persisted)
  }

  /** Every reachable journal that is ready meets what this module asks of it. */
  lemma ReachableWellFormed(c: Config, actions: seq<R.Action>, inbox: Inbox, scheduled: bool)
    requires ValidConfig(c) && Bounded(inbox)
    ensures var j := R.Run(c, R.Start(c), actions).j; j.ready ==> WellFormed(c, Loop(j, inbox, scheduled))
  {
    R.StartGood(c);
    R.RunKeeps(c, R.Start(c), actions);
  }

  /** The save handler with a successful journal write, then the drain that its records queued. */
  function Fire(c: Config, f: Loop, x: Firing): Loop
    requires WellFormed(c, f)
  {
    var now := f.j.last + c.minMs + x.slack;
    var done := now + x.duration;
    var (j1, out) := Copy(c, f.j, now);
    if !out.Copied? then f.(j := j1, scheduled := false)
    else
      var inbox1 := if x.counterPending then TimedWrite(f.inbox, x.counterBegin, x.counterEnd) else f.inbox;
      var inbox2 := TimedWrite(inbox1, x.begin, x.end);
      var (j2, more) := Commit(c, j1, out.block, true, done);
      var j3 := if more then Schedule(c, j2, true, done).0 else j2;
      Loop(RecordAll(c, j3, Drained(inbox2, x.reportAt)), EMPTY, more)
  }

  /** Firings, for as long as a save is scheduled. */
  function FireAll(c: Config, f: Loop, xs: seq<Firing>): Loop
    requires WellFormed(c, f)
    decreases xs
  {
    if xs == [] || !f.scheduled then f
    else
      SaveShrinksBacklog(c, f, xs[0]);
      FireAll(c, Fire(c, f, xs[0]), xs[1..])
  }

  /** Everything that is not saved yet, counting the overflow report that is due. */
  function Backlog(f: Loop): int { f.j.ringSeq - f.j.persisted + Waiting(f.inbox) }

  function Waiting(x: Inbox): nat { |x.queue| + if x.dropped > 0 then 1 else 0 }

  lemma {:induction false} RecordAllCounts(c: Config, j: Journal, rs: seq<Event>)
    requires ValidConfig(c) && |j.ring| <= c.cap && |j.ring| <= j.ringSeq
    ensures var j' := RecordAll(c, j, rs);
      && j'.ringSeq == j.ringSeq + |rs| && |j'.ring| <= c.cap && |j'.ring| <= j'.ringSeq
      && j' == j.(ring := j'.ring, ringSeq := j'.ringSeq, since := j'.since)
      && (j'.ring == [] ==> rs == [] && j.ring == [])
    decreases rs
  {
    if rs != [] {
      RecordAllCounts(c, Record(c, j, rs[0], false).0, rs[1..]);
    }
  }

  lemma TimedWriteWaits(x: Inbox, begin: Event, end: Event)
    requires Bounded(x)
    ensures Bounded(TimedWrite(x, begin, end)) && Waiting(TimedWrite(x, begin, end)) <= Waiting(x) + 2
  {
  }

  /** A successful save shrinks the backlog by at least four records or schedules no other
      save; what is left then is no more than the timing records that waited or that this
      save added. */
  lemma SaveShrinksBacklog(c: Config, f: Loop, x: Firing)
    requires WellFormed(c, f)
    ensures WellFormed(c, Fire(c, f, x))
    ensures Fire(c, f, x).scheduled ==> Backlog(Fire(c, f, x)) + 4 <= Backlog(f)
    ensures !Fire(c, f, x).scheduled ==> Backlog(Fire(c, f, x)) <= Waiting(f.inbox) + 4
  {
    var now := f.j.last + c.minMs + x.slack;
    var (j1, out) := Copy(c, f.j, now);
    if out.Copied? {
      var inbox1 := if x.counterPending then TimedWrite(f.inbox, x.counterBegin, x.counterEnd) else f.inbox;
      var inbox2 := TimedWrite(inbox1, x.begin, x.end);
      TimedWriteWaits(f.inbox, x.counterBegin, x.counterEnd);
      TimedWriteWaits(inbox1, x.begin, x.end);
      var (j2, more) := Commit(c, j1, out.block, true, now + x.duration);
      var j3 := if more then Schedule(c, j2, true, now + x.duration).0 else j2;
      RecordAllCounts(c, j3, Drained(inbox2, x.reportAt));
      assert |Drained(inbox2, x.reportAt)| == Waiting(inbox2);
    }
  }

  /** A successful save schedules another one exactly if more than one block was waiting when it
      copied, whatever kinds of records those are; its own timing records never do. */
  lemma SaveSchedulesIffMoreThanABlock(c: Config, f: Loop, x: Firing)
    requires WellFormed(c, f)
    ensures Fire(c, f, x).scheduled <==> f.j.ringSeq - FirstNew(f.j) + 1 > c.block
  {
    var (j1, out) := Copy(c, f.j, f.j.last + c.minMs + x.slack);
    if out.Copied? {
      assert Last(out.block) == FirstNew(f.j) + Min(f.j.ringSeq - FirstNew(f.j) + 1, c.block) - 1;
    }
  }

  /** The write loop is not self-sustaining: with successful saves and nothing else recorded,
      no save is scheduled any more after at most a quarter as many saves as there were
      unsaved records, plus one. */
  lemma {:induction false} WriteLoopDiesOut(c: Config, f: Loop, xs: seq<Firing>)
    requires WellFormed(c, f)
    requires 4 * |xs| > Backlog(f)
    ensures !FireAll(c, f, xs).scheduled
    decreases xs
  {
    if f.scheduled {
      SaveShrinksBacklog(c, f, xs[0]);
      if Fire(c, f, xs[0]).scheduled {
        WriteLoopDiesOut(c, Fire(c, f, xs[0]), xs[1..]);
      }
    }
  }
}
