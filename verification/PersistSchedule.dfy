/** When saves happen: the minimum interval between journal writes, and the guarantee that no
    event that asks for a save is left without one on its way (src/host_event_log.c). Recorders,
    the work queue, direct save requests and the writer interleave at every unlock; each holds
    the ring lock only inside one action. */
module PersistSchedule {
  import opened Common
  import opened JournalModel

  /** A call of schedule_persist_coalesced: before its critical section, or after it with the
      wait it computed at uptime `at`, when the last save had ended at `ended`, and not yet handed to the
      work queue. */
  datatype Task = Wants(urgent: bool) | Computed(urgent: bool, wait: int, at: nat, ended: Option<nat>)

  /** A request that was handed to the work queue. */
  datatype Ask = Ask(urgent: bool, at: nat, ended: Option<nat>, handed: nat)

  /** The one writer, serialized by its mutex: entered with the time it read, writing since
      `start`, or with the write's result. */
  datatype Writer = Resting | Entered(now: nat) | Writing(b: Block, start: nat) | Wrote(b: Block, start: nat, ok: bool)

  datatype Save = Save(start: nat, end: nat)

  /** `quiet` are the numbers recorded by timing records after loading: they never ask for a
      save. `saves` is the log of finished saves of this boot. `since` is when the pending save was
      first handed to the work queue, `asks` are all requests handed over since, and `lag` is the longest
      delay between unlock and hand-over. */
  datatype Sys = Sys(j: Journal, now: nat, due: Option<int>, writer: Writer, tasks: seq<Task>,
                     saves: seq<Save>, quiet: set<nat>, since: nat, lag: nat,
                     asks: seq<Ask>)

  datatype Action =
    | Tick(ms: nat)
    | DoRecord(e: Event, persist: bool)
    | TaskLocks(i: nat)
    | TaskSubmits(i: nat)
    | WorkFires
    | DirectPersist
    | WriterChecks
    | WriterFinishes(ok: bool)
    | WriterCommits
    | DoDeliver(b: Block)
    | DoLoaded

  predicate Enabled(c: Config, s: Sys, a: Action) {
    match a
    case Tick(ms) =>
      forall i :: 0 <= i < |s.tasks| && s.tasks[i].Computed? ==> s.now + ms <= s.tasks[i].at + s.lag
    case DoRecord(_, _) => true
    case TaskLocks(i) => i < |s.tasks| && s.tasks[i].Wants?
    case TaskSubmits(i) => i < |s.tasks| && s.tasks[i].Computed?
    case WorkFires => s.due.Some? && s.due.value <= s.now && s.writer.Resting?
    case DirectPersist => s.writer.Resting?
    case WriterChecks => s.writer.Entered? && |s.j.ring| <= s.j.ringSeq
    case WriterFinishes(_) => s.writer.Writing?
    // The first save ends after uptime 0, the value that stands for "never".
    case WriterCommits =>
      s.writer.Wrote? && s.now > 0 && s.writer.b.slot < c.slots == |s.j.mirror| && 1 <= |s.writer.b.ev|
    case DoDeliver(b) => !s.j.ready && b.slot < c.slots == |s.j.mirror| && 1 <= |b.ev|
    case DoLoaded => true
  }

  function Drop(tasks: seq<Task>, i: nat): seq<Task>
    requires i < |tasks|
  {
    tasks[..i] + tasks[i + 1..]
  }

  function Step(c: Config, s: Sys, a: Action): Sys
    requires Enabled(c, s, a)
  {
    match a
    case Tick(ms) => s.(now := s.now + ms)
    case DoRecord(e, persist) =>
      var (j', need) := Record(c, s.j, e, persist);
      s.(j := j', tasks := if persist then s.tasks + [Wants(need)] else s.tasks,
         quiet := if s.j.ready && !persist then s.quiet + {j'.ringSeq} else s.quiet)
    case TaskLocks(i) =>
      var (j', wait) := Schedule(c, s.j, s.tasks[i].urgent, s.now);
      s.(j := j',
         tasks :=
           if wait.Some? then s.tasks[i := Computed(s.tasks[i].urgent, wait.value, s.now, LastEnd(s))]
           else Drop(s.tasks, i))
    case TaskSubmits(i) =>
      // k_work_reschedule replaces the deadline; k_work_schedule keeps one that is pending.
      var t := s.tasks[i];
      s.(due := if t.urgent || s.due.None? then Some(s.now + t.wait) else s.due, tasks := Drop(s.tasks, i),
         since := if s.due.None? then s.now else s.since,
         asks := (if s.due.None? then [] else s.asks) + [Ask(t.urgent, t.at, t.ended, s.now)])
    case WorkFires => s.(due := None, writer := Entered(s.now))
    case DirectPersist => s.(writer := Entered(s.now))
    case WriterChecks =>
      var (j', out) := Copy(c, s.j, s.writer.now);
      (match out
       case Copied(b) => s.(j := j', writer := Writing(b, s.now))
       case TooSoon => s.(j := j', writer := Resting, tasks := s.tasks + [Wants(true)])
       case _ => s.(j := j', writer := Resting))
    case WriterFinishes(ok) => s.(writer := Wrote(s.writer.b, s.writer.start, ok))
    case WriterCommits =>
      var (j', more) := Commit(c, s.j, s.writer.b, s.writer.ok, s.now);
      s.(j := j', writer := Resting, saves := s.saves + [Save(s.writer.start, s.now)],
         tasks := if more then s.tasks + [Wants(true)] else s.tasks)
    case DoDeliver(b) => s.(j := Deliver(c, s.j, b))
    case DoLoaded =>
      var (j', pending) := Loaded(s.j);
      s.(j := j', tasks := if pending then s.tasks + [Wants(true)] else s.tasks)
  }

  function Run(c: Config, s: Sys, actions: seq<Action>): Sys
    decreases actions
  {
    if actions == [] then s
    else Run(c, if Enabled(c, s, actions[0]) then Step(c, s, actions[0]) else s, actions[1..])
  }

  function Start(c: Config, lag: nat): Sys { Sys(Boot(c), 0, None, Resting, [], [], {}, 0, lag, []) }

  /** When the last finished save of this boot ended. */
  function LastEnd(s: Sys): Option<nat> { if s.saves == [] then None else Some(s.saves[|s.saves| - 1].end) }

  // ----- what holds in every run -----

  ghost predicate Spaced(c: Config, saves: seq<Save>) {
    && (forall i :: 0 <= i < |saves| ==> saves[i].start <= saves[i].end)
    && forall i :: 0 < i < |saves| ==> saves[i].start >= saves[i - 1].end + c.minMs
  }

  ghost predicate Timing(c: Config, s: Sys) {
    && Spaced(c, s.saves)
    && (if s.saves == [] then s.j.last == 0 else s.j.last == s.saves[|s.saves| - 1].end > 0)
    && s.j.last <= s.now
    && (s.writer.Entered? ==> s.j.last <= s.writer.now <= s.now)
    && (s.writer.Writing? || s.writer.Wrote? ==>
          StartOf(s.writer) <= s.now && (s.saves != [] ==> StartOf(s.writer) >= s.j.last + c.minMs))
    && (forall i :: 0 <= i < |s.tasks| && s.tasks[i].Computed? ==> TimelyTask(c, s, s.tasks[i]))
    && (s.due.Some? ==> s.due.value <= s.now + c.minMs && s.since <= s.now && s.due.value <= Max(s.now, DueBy(c, s)))
  }

  /** A wait within the interval, which, if urgent, is no longer than what is left of it. */
  predicate TimelyTask(c: Config, s: Sys, t: Task)
    requires t.Computed?
  {
    && 0 <= t.wait <= c.minMs && t.at <= s.now <= t.at + s.lag
    && (t.urgent ==> t.wait == 0 || t.at + t.wait <= s.j.last + c.minMs)
  }

  /** The interval after the pending save was asked for, or after the last save, whichever is later. */
  function DueBy(c: Config, s: Sys): nat { Max(s.since, s.j.last) + c.minMs + s.lag }

  function StartOf(w: Writer): nat
    requires w.Writing? || w.Wrote?
  {
    w.start
  }

  /** The journal's own bounds, and: an unsaved number that is not a timing record's has a save
      pending, a writer at work, or someone about to schedule one. */
  ghost predicate Served(c: Config, s: Sys) {
    && |s.j.mirror| == c.slots && s.j.nextSlot < c.slots && |s.j.ring| <= c.cap && |s.j.ring| <= s.j.ringSeq
    && (s.writer.Writing? || s.writer.Wrote? ==> s.writer.b.slot < c.slots && 1 <= |s.writer.b.ev| && s.j.ring != [])
    && (s.j.ready && s.j.ring == [] ==> s.j.ringSeq <= s.j.persisted)
    && (s.j.ready ==> s.due.Some? || !s.writer.Resting? || s.tasks != [] || OnlyQuiet(s))
  }

  ghost predicate OnlyQuiet(s: Sys) {
    forall n: nat :: s.j.persisted < n <= s.j.ringSeq ==> n in s.quiet
  }

  lemma CommitKeepsTiming(c: Config, s: Sys)
    requires ValidConfig(c) && Timing(c, s) && Enabled(c, s, WriterCommits)
    ensures Timing(c, Step(c, s, WriterCommits))
  {
    var save := Save(s.writer.start, s.now);
    assert Spaced(c, s.saves + [save]);
  }

  lemma CopyKeepsLast(c: Config, j: Journal, now: nat)
    requires |j.ring| <= j.ringSeq
    ensures Copy(c, j, now).0.last == j.last
    ensures Copy(c, j, now).1.Copied? && j.last != 0 ==> now >= j.last + c.minMs
  {
  }

  lemma CheckKeepsTiming(c: Config, s: Sys)
    requires ValidConfig(c) && Timing(c, s) && Enabled(c, s, WriterChecks)
    ensures Timing(c, Step(c, s, WriterChecks))
  {
    var s1 := Step(c, s, WriterChecks);
    CopyKeepsLast(c, s.j, s.writer.now);
    assert s1.saves == s.saves && s1.j.last == s.j.last && s1.now == s.now && s1.due == s.due && s1.since == s.since;
    assert forall i :: 0 <= i < |s1.tasks| && s1.tasks[i].Computed? ==> i < |s.tasks| && s1.tasks[i] == s.tasks[i];
  }

  lemma LocksKeepsTiming(c: Config, s: Sys, i: nat)
    requires ValidConfig(c) && Timing(c, s) && Enabled(c, s, TaskLocks(i))
    ensures Timing(c, Step(c, s, TaskLocks(i)))
  {
  }

  lemma SubmitsKeepsTiming(c: Config, s: Sys, i: nat)
    requires ValidConfig(c) && Timing(c, s) && Enabled(c, s, TaskSubmits(i))
    ensures Timing(c, Step(c, s, TaskSubmits(i)))
  {
    assert TimelyTask(c, s, s.tasks[i]);
  }

  /** Steps that neither save nor hand over: time, recording, firing, loading. */
  lemma OtherKeepsTiming(c: Config, s: Sys, a: Action)
    requires ValidConfig(c) && Timing(c, s) && Enabled(c, s, a)
    requires !a.WriterCommits? && !a.WriterChecks? && !a.TaskLocks? && !a.TaskSubmits?
    ensures Timing(c, Step(c, s, a))
  {
    assert Step(c, s, a).saves == s.saves && Step(c, s, a).j.last == s.j.last;
  }

  lemma StepKeepsTiming(c: Config, s: Sys, a: Action)
    requires ValidConfig(c) && Timing(c, s) && Enabled(c, s, a)
    ensures Timing(c, Step(c, s, a))
  {
    match a
    case WriterCommits => CommitKeepsTiming(c, s);
    case WriterChecks => CheckKeepsTiming(c, s);
    case TaskLocks(i) => LocksKeepsTiming(c, s, i);
    case TaskSubmits(i) => SubmitsKeepsTiming(c, s, i);
    case _ => OtherKeepsTiming(c, s, a);
  }

  lemma WriterKeepsServed(c: Config, s: Sys, a: Action)
    requires ValidConfig(c) && Served(c, s) && Enabled(c, s, a) && (a.WriterChecks? || a.WriterCommits?)
    ensures Served(c, Step(c, s, a))
  {
  }

  lemma StepKeepsServed(c: Config, s: Sys, a: Action)
    requires ValidConfig(c) && Served(c, s) && Enabled(c, s, a)
    ensures Served(c, Step(c, s, a))
  {
    if a.WriterChecks? || a.WriterCommits? {
      WriterKeepsServed(c, s, a);
    }
  }

  lemma {:induction false} RunKeeps(c: Config, s: Sys, actions: seq<Action>)
    requires ValidConfig(c) && Timing(c, s) && Served(c, s)
    ensures Timing(c, Run(c, s, actions)) && Served(c, Run(c, s, actions))
    decreases actions
  {
    if actions != [] {
      if Enabled(c, s, actions[0]) {
        StepKeepsTiming(c, s, actions[0]);
        StepKeepsServed(c, s, actions[0]);
        RunKeeps(c, Step(c, s, actions[0]), actions[1..]);
      } else {
        RunKeeps(c, s, actions[1..]);
      }
    }
  }

  /** In every run: finished saves of one boot are at least the minimum interval apart, from the
      end of one to the start of the next, whether they succeeded or failed and whoever asked;
      and no wait that is handed to the work queue is longer than the interval. */
  lemma SavesAreSpaced(c: Config, lag: nat, actions: seq<Action>)
    requires ValidConfig(c)
    ensures var s := Run(c, Start(c, lag), actions);
      && Spaced(c, s.saves)
      && (s.writer.Writing? && s.saves != [] ==> s.writer.start >= s.saves[|s.saves| - 1].end + c.minMs)
      && (forall i :: 0 <= i < |s.tasks| && s.tasks[i].Computed? ==> 0 <= s.tasks[i].wait <= c.minMs)
      && (s.due.Some? ==> s.due.value <= s.now + c.minMs)
  {
    RunKeeps(c, Start(c, lag), actions);
  }

  // ----- ordinary and urgent requests -----

  /** What a request alone asks for: the end of the interval that runs since the last save, as far as
      it is off when the request is computed, or `idle` if none runs. */
  function DueOf(c: Config, a: Ask, idle: nat): int {
    if a.ended.Some? && a.at < a.ended.value + c.minMs then a.handed + (a.ended.value + c.minMs - a.at)
    else a.handed + idle
  }

  predicate LastUrgent(asks: seq<Ask>, i: nat) {
    i < |asks| && asks[i].urgent && forall k :: i < k < |asks| ==> !asks[k].urgent
  }

  /** Ordinary requests alone: the first of them decides, and it waits a whole interval. Otherwise the
      last urgent one decides, and it waits only for an interval that runs. */
  ghost predicate DueAsAsked(c: Config, due: int, asks: seq<Ask>) {
    && asks != []
    && ((forall i :: 0 <= i < |asks| ==> !asks[i].urgent) ==> due == DueOf(c, asks[0], c.minMs))
    && forall i: nat :: LastUrgent(asks, i) ==> due == DueOf(c, asks[i], 0)
  }

  ghost predicate Asked(c: Config, s: Sys) {
    && (s.due.Some? ==> DueAsAsked(c, s.due.value, s.asks))
    && forall i :: 0 <= i < |s.tasks| && s.tasks[i].Computed? ==> TrueWait(c, s.tasks[i])
  }

  predicate TrueWait(c: Config, t: Task)
    requires t.Computed?
  {
    t.wait == if t.ended.Some? && t.at < t.ended.value + c.minMs then t.ended.value + c.minMs - t.at
              else if t.urgent then 0 else c.minMs
  }

  lemma AskAppended(c: Config, due: int, asks: seq<Ask>, a: Ask)
    requires DueAsAsked(c, due, asks)
    ensures DueAsAsked(c, if a.urgent then DueOf(c, a, 0) else due, asks + [a])
  {
    var more := asks + [a];
    forall i: nat | LastUrgent(more, i)
      ensures (if a.urgent then DueOf(c, a, 0) else due) == DueOf(c, more[i], 0)
    {
      if i < |asks| {
        assert more[|asks|] == a;
        assert forall k :: i < k < |asks| ==> more[k] == asks[k];
        assert LastUrgent(asks, i);
      }
    }
    if forall i :: 0 <= i < |more| ==> !more[i].urgent {
      assert more[|asks|] == a;
      assert forall i :: 0 <= i < |asks| ==> more[i] == asks[i];
    }
  }

  lemma SubmitsKeepsAsked(c: Config, s: Sys, i: nat)
    requires Asked(c, s) && Enabled(c, s, TaskSubmits(i))
    ensures Asked(c, Step(c, s, TaskSubmits(i)))
  {
    var t := s.tasks[i];
    var a := Ask(t.urgent, t.at, t.ended, s.now);
    assert TrueWait(c, t);
    if s.due.Some? {
      AskAppended(c, s.due.value, s.asks, a);
    } else {
      assert [] + [a] == [a];
    }
  }

  lemma StepKeepsAsked(c: Config, s: Sys, a: Action)
    requires ValidConfig(c) && Timing(c, s) && Asked(c, s) && Enabled(c, s, a)
    ensures Asked(c, Step(c, s, a))
  {
    if a.TaskSubmits? {
      SubmitsKeepsAsked(c, s, a.i);
    }
  }

  lemma {:induction false} RunKeepsAsked(c: Config, s: Sys, actions: seq<Action>)
    requires ValidConfig(c) && Timing(c, s) && Asked(c, s)
    ensures Asked(c, Run(c, s, actions))
    decreases actions
  {
    if actions != [] {
      if Enabled(c, s, actions[0]) {
        StepKeepsTiming(c, s, actions[0]);
        StepKeepsAsked(c, s, actions[0]);
        RunKeepsAsked(c, Step(c, s, actions[0]), actions[1..]);
      } else {
        RunKeepsAsked(c, s, actions[1..]);
      }
    }
  }

  /** In every run: a pending save that only ordinary requests have handed over is due an interval
      after the first of them, or at the end of the interval since the last save if that was still
      running; later ones do not move it. Once an urgent request is handed over, the save is due at
      the end of the running interval, or at once if none runs. */
  lemma OrdinaryWaitsUrgentDoesNot(c: Config, lag: nat, actions: seq<Action>)
    requires ValidConfig(c)
    ensures var s := Run(c, Start(c, lag), actions); s.due.Some? ==> DueAsAsked(c, s.due.value, s.asks)
  {
    RunKeepsAsked(c, Start(c, lag), actions);
  }

  /** Each event that asks for a save makes one request, and every `every`-th of them an urgent one. */
  lemma RecordAsks(c: Config, s: Sys, e: Event, persist: bool)
    ensures Step(c, s, DoRecord(e, persist)).tasks
            == s.tasks + if persist then [Wants(s.j.since + 1 >= c.every)] else []
  {
  }

  /** When loading ends with events unsaved, in a boot that has not saved yet, the save is due at once. */
  lemma BootSavesAtOnce(c: Config, s: Sys)
    requires !s.j.ready && s.j.ring != [] && s.j.last == 0 && s.tasks == []
    ensures Run(c, s, [DoLoaded, TaskLocks(0), TaskSubmits(0)]).due == Some(s.now)
  {
    var loaded := Step(c, s, DoLoaded);
    assert loaded.tasks == [Wants(true)];
    var locked := Step(c, loaded, TaskLocks(0));
    var actions := [DoLoaded, TaskLocks(0), TaskSubmits(0)];
    assert actions[1..] == [TaskLocks(0), TaskSubmits(0)] && actions[1..][1..] == [TaskSubmits(0)];
    assert Run(c, locked, [TaskSubmits(0)]) == Run(c, Step(c, locked, TaskSubmits(0)), []);
  }

  /** The pending save does not start anywhere in the run. */
  predicate NeverFires(c: Config, s: Sys, actions: seq<Action>)
    decreases actions
  {
    actions != [] ==>
      && !(actions[0].WorkFires? && Enabled(c, s, WorkFires))
      && NeverFires(c, if Enabled(c, s, actions[0]) then Step(c, s, actions[0]) else s, actions[1..])
  }

  lemma {:induction false} StaysPending(c: Config, s: Sys, actions: seq<Action>)
    requires s.due.Some? && NeverFires(c, s, actions)
    ensures var s1 := Run(c, s, actions); s1.due.Some? && s1.since == s.since && s1.lag == s.lag
    decreases actions
  {
    if actions != [] {
      StaysPending(c, if Enabled(c, s, actions[0]) then Step(c, s, actions[0]) else s, actions[1..]);
    }
  }

  /** In every run, no storm of requests can put a pending save off for ever: as long as it has not
      started, it is overdue or due within the interval after it was first asked for, or after the
      last save, by the delay of one hand-over at most. */
  lemma PendingSaveComesDue(c: Config, lag: nat, before: seq<Action>, actions: seq<Action>)
    requires ValidConfig(c)
    requires var s := Run(c, Start(c, lag), before); s.due.Some? && NeverFires(c, s, actions)
    ensures var s := Run(c, Start(c, lag), before);
      var s1 := Run(c, s, actions);
      s1.due.Some? && s1.due.value <= Max(s1.now, Max(s.since, s1.j.last) + c.minMs + lag)
  {
    RunKeeps(c, Start(c, lag), before);
    var s := Run(c, Start(c, lag), before);
    RunKeeps(c, s, actions);
    StaysPending(c, s, actions);
    LagStays(c, Start(c, lag), before);
  }

  lemma {:induction false} LagStays(c: Config, s: Sys, actions: seq<Action>)
    ensures Run(c, s, actions).lag == s.lag
    decreases actions
  {
    if actions != [] {
      LagStays(c, if Enabled(c, s, actions[0]) then Step(c, s, actions[0]) else s, actions[1..]);
    }
  }

  /** In every run, once loading is done: if no save is pending, running or about to be
      scheduled, then every unsaved event is a timing record's, which never asks for a save. */
  lemma NoRequestStranded(c: Config, lag: nat, actions: seq<Action>)
    requires ValidConfig(c)
    ensures var s := Run(c, Start(c, lag), actions);
      s.j.ready && s.due.None? && s.writer.Resting? && s.tasks == [] ==>
        forall n: nat :: s.j.persisted < n <= s.j.ringSeq ==> n in s.quiet
  {
    RunKeeps(c, Start(c, lag), actions);
  }

  /** Record events, each with whether it asks for a save; the count is that of the urgent asks. */
  function RecordEach(c: Config, j: Journal, es: seq<(Event, bool)>): (Journal, nat) {
    if es == [] then (j, 0)
    else
      var (j1, urgent) := RecordEach(c, j, es[..|es| - 1]);
      var (j2, need) := Record(c, j1, es[|es| - 1].0, es[|es| - 1].1);
      (j2, if need then urgent + 1 else urgent)
  }

  function Asks(es: seq<(Event, bool)>): nat {
    if es == [] then 0 else Asks(es[..|es| - 1]) + if es[|es| - 1].1 then 1 else 0
  }

  /** One in every `every` events that ask for a save asks for an urgent one; the counter holds
      the rest, and timing records do not move it. */
  lemma {:induction false} UrgentAsksCounted(c: Config, j: Journal, es: seq<(Event, bool)>)
    requires ValidConfig(c) && j.since < c.every
    ensures var (j', urgent) := RecordEach(c, j, es);
      urgent * c.every + j'.since == j.since + Asks(es) && j'.since < c.every
    decreases |es|
  {
    if es != [] {
      UrgentAsksCounted(c, j, es[..|es| - 1]);
      var (j1, urgent) := RecordEach(c, j, es[..|es| - 1]);
      assert (urgent + 1) * c.every == urgent * c.every + c.every;
    }
  }

  /** The interval is kept after a save exactly when the save did not end at uptime 0, the
      value that means that there was none. */
  lemma IntervalKeptUnlessEndedAtZero(c: Config, j: Journal, b: Block, ok: bool, end: nat, now: nat)
    requires j.ready && |j.ring| <= j.ringSeq && b.slot < c.slots == |j.mirror| && 1 <= |b.ev|
    ensures Copy(c, Commit(c, j, b, ok, end).0, now).1.TooSoon? <==> end != 0 && now - end < c.minMs
  {
  }
}
