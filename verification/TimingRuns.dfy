/** Captures from any number of contexts interleaved with the drain loop, which unlocks before
    it delivers each record (src/diagnostic_timing.c). */
module TimingRuns {
  import opened Common
  import opened JournalModel
  import opened TimingInbox

  /** Where the one drain worker stands. */
  datatype Drain = Off | Looping | Holding(r: Event) | Reporting(dropped: nat)

  /** `accepted` are the captured records in order and `delivered` those handed to the journal;
      `closed` are the numbers of refused captures between successive overflow reports, `open`
      the number refused since the last; `submitting` counts the captures between their unlock
      and their submit of the work item. */
  datatype Sys = Sys(inbox: Inbox, drain: Drain, queued: bool, submitting: nat,
                     accepted: seq<Event>, delivered: seq<Event>, reports: seq<Event>, closed: seq<nat>, open: nat)

  datatype Action = DoCapture(r: Event) | DoSubmit | DoStart | DoPop | DoDeliver | DoReport(now: u32)

  const START := Sys(EMPTY, Off, false, 0, [], [], [], [], 0)

  predicate Enabled(s: Sys, a: Action) {
    match a
    case DoCapture(_) => true
    case DoSubmit => s.submitting > 0
    case DoStart => s.queued && s.drain.Off?
    case DoPop => s.drain.Looping?
    case DoDeliver => s.drain.Holding?
    case DoReport(_) => s.drain.Reporting? && s.drain.dropped <= DROPPED_MAX
  }

  function Step(s: Sys, a: Action): Sys
    requires Enabled(s, a)
  {
    match a
    case DoCapture(r) =>
      var full := |s.inbox.queue| >= TIMING_CAP;
      s.(inbox := Put(s.inbox, r), submitting := s.submitting + 1,
         accepted := if full then s.accepted else s.accepted + [r],
         open := if full then s.open + 1 else s.open)
    case DoSubmit => s.(submitting := s.submitting - 1, queued := true)
    case DoStart => s.(queued := false, drain := Looping)
    case DoPop =>
      var (inbox', out) := Take(s.inbox);
      (match out
       case Next(r) => s.(inbox := inbox', drain := Holding(r))
       case Finished(n) =>
         s.(inbox := inbox', drain := if n > 0 then Reporting(n) else Off,
            closed := if s.open > 0 then s.closed + [s.open] else s.closed, open := 0))
    case DoDeliver => s.(drain := Looping, delivered := s.delivered + [s.drain.r])
    case DoReport(now) => s.(drain := Off, reports := s.reports + [Overflow(now, s.drain.dropped)])
  }

  function Run(s: Sys, actions: seq<Action>): Sys
    decreases actions
  {
    if actions == [] then s
    else Run(if Enabled(s, actions[0]) then Step(s, actions[0]) else s, actions[1..])
  }

  /** What an overflow report can say of n refused captures. */
  function Saturated(n: nat): nat { Min(n, 255) }

  function InFlight(s: Sys): seq<Event> { if s.drain.Holding? then [s.drain.r] else [] }

  /** A record that reports n refused captures, as far as its byte goes. */
  predicate Tells(r: Event, n: nat) {
    r.kind == 30 && r.reason == Saturated(n) && r.idx == r.active == -1 && r.win == r.extra == 0
  }

  /** Each stretch of refused captures that is closed has its record, but for one being written. */
  ghost predicate Reported(s: Sys) {
    && (forall i :: 0 <= i < |s.closed| ==> s.closed[i] > 0)
    && (forall i :: 0 <= i < |s.reports| && i < |s.closed| ==> Tells(s.reports[i], s.closed[i]))
    && if s.drain.Reporting? then |s.closed| == |s.reports| + 1 && s.drain.dropped == Saturated(s.closed[|s.reports|])
       else |s.closed| == |s.reports|
  }

  /** Records come out in capture order with their own timestamps, none lost and none doubled;
      each refused capture is counted in exactly one report record, saturating at 255; and whatever
      waits in the inbox has a drain running, queued, or about to be queued. */
  ghost predicate Inv(s: Sys) {
    && Bounded(s.inbox)
    && s.accepted == s.delivered + InFlight(s) + s.inbox.queue
    && s.inbox.dropped == Saturated(s.open)
    && Reported(s)
    && (s.inbox != EMPTY ==> s.queued || s.submitting > 0 || s.drain.Looping? || s.drain.Holding?)
  }

  lemma StepKeeps(s: Sys, a: Action)
    requires Inv(s) && Enabled(s, a)
    ensures Inv(Step(s, a))
  {
    var s' := Step(s, a);
    match a
    case DoCapture(r) =>
      assert s.delivered + InFlight(s) + (s.inbox.queue + [r]) == s.accepted + [r];
    case DoPop =>
      if s.inbox.queue != [] {
        assert s.delivered + [] + s.inbox.queue == s.delivered + [s.inbox.queue[0]] + s.inbox.queue[1..];
      }
    case _ =>
  }

  lemma {:induction false} RunKeeps(s: Sys, actions: seq<Action>)
    requires Inv(s)
    ensures Inv(Run(s, actions))
    decreases actions
  {
    if actions != [] {
      if Enabled(s, actions[0]) {
        StepKeeps(s, actions[0]);
        RunKeeps(Step(s, actions[0]), actions[1..]);
      } else {
        RunKeeps(s, actions[1..]);
      }
    }
  }

  /** In every run: what was accepted is what was delivered, is in flight and is queued, in capture
      order; every stretch of refused captures has its one report, or is counted in the inbox; and
      a drain is running, queued or about to be queued while anything waits. */
  lemma TimingAccounted(actions: seq<Action>)
    ensures var s := Run(START, actions);
      && s.accepted == s.delivered + InFlight(s) + s.inbox.queue && |s.inbox.queue| <= TIMING_CAP
      && s.inbox.dropped == Saturated(s.open)
      && Reported(s)
      && (s.inbox != EMPTY ==> s.queued || s.submitting > 0 || s.drain.Looping? || s.drain.Holding?)
  {
    RunKeeps(START, actions);
  }

  function Captures(actions: seq<Action>): nat {
    if actions == [] then 0 else (if actions[0].DoCapture? then 1 else 0) + Captures(actions[1..])
  }

  function Sum(ns: seq<nat>): nat { if ns == [] then 0 else Sum(ns[..|ns| - 1]) + ns[|ns| - 1] }

  /** Every capture is either accepted or refused. */
  lemma {:induction false} CapturesConserved(s: Sys, actions: seq<Action>)
    ensures var s' := Run(s, actions);
      |s'.accepted| + Sum(s'.closed) + s'.open == |s.accepted| + Sum(s.closed) + s.open + Captures(actions)
    decreases actions
  {
    if actions != [] {
      if Enabled(s, actions[0]) {
        var s1 := Step(s, actions[0]);
        assert |s1.closed| > |s.closed| ==> s1.closed[..|s1.closed| - 1] == s.closed;
        CapturesConserved(s1, actions[1..]);
      } else {
        CapturesConserved(s, actions[1..]);
      }
    }
  }

  /** When nothing is running, queued or about to be queued, everything has come out. */
  lemma QuietMeansDelivered(actions: seq<Action>)
    ensures var s := Run(START, actions);
      s.drain.Off? && !s.queued && s.submitting == 0 ==>
        && s.delivered == s.accepted && s.inbox == EMPTY && s.open == 0
        && |s.reports| == |s.closed| && (forall i :: 0 <= i < |s.reports| ==> Tells(s.reports[i], s.closed[i]))
        && |s.delivered| + Sum(s.closed) == Captures(actions)
  {
    RunKeeps(START, actions);
    CapturesConserved(START, actions);
  }
}
