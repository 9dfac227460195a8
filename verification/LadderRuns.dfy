/** Every run of the recovery ladder against an adversarial environment (src/reconnect_watch.c).
    Handlers and profile notifications run one after the other on the work queue; where they
    record an event they can block, and there the Bluetooth callbacks, which reset the ladder,
    come in between. */
module LadderRuns {
  import opened Common
  import opened ReconnectWatch

  /** What the work queue is doing: nothing, running the handler at `step` before it writes the
      next step, about to call the light arming from the deferred one, or about to submit the
      delayed work; `arms` tells an arming from the handler, and `hit` that a reset has come in
      between. */
  datatype Phase = Idle | Handling(step: Rung) | Deferring | Submitting(delay: nat, arms: bool, hit: bool)

  // ----- the parts of the handlers -----

  function FireBegin(w: Watch, v: Env): (Watch, Phase) {
    var w0 := w.(queued := false);
    if v.usb || v.suppressed || v.open || v.up || v.scanned || w.next == None_ then (Reset(w0), Idle)
    else (w0, Handling(w.next))
  }

  function FireEnd(c: Config, w: Watch, step: Rung): (Watch, Phase) {
    match step
    case Readvertise => (w.(next := Evict), Submitting(c.step, false, false))
    case Evict => (w.(next := Verify), Submitting(c.step, false, false))
    case Verify => (Reset(w), Idle)
    case None_ => (Reset(w), Idle)
  }

  function BeginFull(c: Config, w: Watch, v: Env): (Watch, Phase) {
    if v.usb || v.suppressed || v.open || v.up then (Reset(w), Idle)
    else (w.(light := false, next := Readvertise), Submitting(FirstDelay(c), true, false))
  }

  function BeginLight(c: Config, w: Watch, v: Env): (Watch, Phase) {
    if v.usb then (w, Idle)
    else if v.open || v.up then (Reset(w), Idle)
    else if v.suppressed || w.next != None_ then (w, Idle)
    else (w.(light := true, next := Readvertise), Submitting(c.step, true, false))
  }

  function BeginActiveDown(c: Config, w: Watch, v: Env): (Watch, Phase) {
    if !c.onActiveDown || v.open || v.suppressed || v.up || w.next != None_ then (w, Idle)
    else (w, Deferring)
  }

  function BeginProfile(c: Config, w: Watch, v: Env): (Watch, Phase) {
    if v.index == w.index then (w, Idle) else BeginFull(c, w.(index := v.index), v)
  }

  function Submit(w: Watch, now: nat, delay: nat, arms: bool): Watch {
    if arms then Reschedule(w, now, delay) else Schedule(w, now, delay)
  }

  /** A part that ends, or is followed at once by the submission. */
  function Rest(now: nat, part: (Watch, Phase)): Watch {
    if part.1.Submitting? then Submit(part.0, now, part.1.delay, part.1.arms) else part.0
  }

  function HandlerRest(c: Config, now: nat, part: (Watch, Phase)): Watch {
    if part.1.Handling? then Rest(now, FireEnd(c, part.0, part.1.step)) else part.0
  }

  function DeferredRest(c: Config, now: nat, part: (Watch, Phase), v: Env): Watch {
    if part.1.Deferring? then Rest(now, BeginLight(c, part.0, v)) else part.0
  }

  /** Uninterrupted, the parts are the handlers of the class. */
  lemma PartsAreHandlers(c: Config, w: Watch, now: nat, v: Env)
    ensures HandlerRest(c, now, FireBegin(w, v)) == Fire(c, w, now, v)
    ensures Rest(now, BeginProfile(c, w, v)) == ProfileChanged(c, w, now, v)
    ensures Rest(now, BeginLight(c, w, v)) == ArmLight(c, w, now, v)
    ensures DeferredRest(c, now, BeginActiveDown(c, w, v), v) == ActiveDown(c, w, now, v)
    ensures forall failed :: Connected(w, failed, v) == if v.up && !failed then Reset(w) else w
    ensures forall encrypted :: SecurityChanged(w, encrypted, v) == if v.up && encrypted then Reset(w) else w
  {
  }

  // ----- runs -----

  /** `expired` is the deadline of queued work and `due` that of the running handler. `stale` says
      that the pending work was submitted after a reset. `arming` counts the armings, `armedAt` is
      when the last one was submitted, `full` whether a switch began it, and `steps` are the steps
      at which the handler has fired since. */
  datatype Sys = Sys(w: Watch, phase: Phase, now: nat, late: nat, expired: nat, due: nat, stale: bool,
                     arming: nat, armedAt: nat, full: bool, steps: seq<Rung>)

  datatype Action =
    | Tick(ms: nat)
    | Expires
    | Fires(v: Env)
    | FireEnds
    | Submits
    | ProfileEvent(v: Env)
    | LightRequest(v: Env)
    | ActiveDownWork(v: Env)
    | Defers(v: Env)
    | ConnectedEvent(failed: bool, v: Env)
    | SecurityEvent(encrypted: bool, v: Env)

  const LADDER: seq<Rung> := [Readvertise, Evict, Verify]

  function Start(index: int, late: nat): Sys {
    Sys(Watch(None_, false, index, None, false), Idle, 0, late, 0, 0, false, 0, 0, false, [])
  }

  /** Time passes only so far that expired work is run, and has run, `late` after its deadline. */
  predicate Enabled(s: Sys, a: Action) {
    match a
    case Tick(ms) =>
      && (s.w.timer.Some? ==> s.now + ms <= s.w.timer.value + s.late)
      && (s.w.queued ==> s.now + ms <= s.expired + s.late)
      && (InHandler(s) ==> s.now + ms <= s.due + s.late)
    case Expires => s.w.timer.Some? && s.w.timer.value <= s.now
    case Fires(_) => s.phase.Idle? && s.w.queued
    case FireEnds => s.phase.Handling?
    case Submits => s.phase.Submitting?
    case ProfileEvent(_) => s.phase.Idle?
    case LightRequest(_) => s.phase.Idle?
    case ActiveDownWork(_) => s.phase.Idle?
    case Defers(_) => s.phase.Deferring?
    case ConnectedEvent(_, _) => true
    case SecurityEvent(_, _) => true
  }

  predicate InHandler(s: Sys) { s.phase.Handling? || (s.phase.Submitting? && !s.phase.arms) }

  /** A part of a handler, or a reset: stale work stays so only while nothing is changed. */
  function Moved(s: Sys, part: (Watch, Phase)): Sys {
    s.(w := part.0, phase := part.1, stale := s.stale && part.0 == s.w)
  }

  function Began(s: Sys, part: (Watch, Phase), full: bool): Sys {
    var s1 := Moved(s, part);
    if part.1.Submitting? then s1.(full := full) else s1
  }

  /** A reset by a Bluetooth callback at any moment. */
  function Hit(s: Sys, reset: bool): Sys {
    if !reset then s
    else
      var p := if s.phase.Submitting? then s.phase.(hit := true) else s.phase;
      Moved(s, (Reset(s.w), p))
  }

  function Step(c: Config, s: Sys, a: Action): Sys
    requires Enabled(s, a)
  {
    match a
    case Tick(ms) => s.(now := s.now + ms)
    case Expires =>
      s.(w := s.w.(timer := None, queued := true), expired := if s.w.queued then s.expired else s.w.timer.value)
    case Fires(v) => Moved(s, FireBegin(s.w, v)).(due := s.expired, steps := s.steps + [s.w.next])
    case FireEnds => Moved(s, FireEnd(c, s.w, s.phase.step))
    case Submits =>
      var s1 := s.(w := Submit(s.w, s.now, s.phase.delay, s.phase.arms), phase := Idle, stale := s.phase.hit);
      if s.phase.arms then s1.(arming := s.arming + 1, armedAt := s.now, steps := []) else s1
    case ProfileEvent(v) => Began(s, BeginProfile(c, s.w, v), true)
    case LightRequest(v) => Began(s, BeginLight(c, s.w, v), false)
    case ActiveDownWork(v) => Moved(s, BeginActiveDown(c, s.w, v))
    case Defers(v) => Began(s, BeginLight(c, s.w, v), false)
    case ConnectedEvent(failed, v) => Hit(s, !failed && v.up)
    case SecurityEvent(encrypted, v) => Hit(s, encrypted && v.up)
  }

  function Run(c: Config, s: Sys, actions: seq<Action>): Sys
    decreases actions
  {
    if actions == [] then s
    else Run(c, if Enabled(s, actions[0]) then Step(c, s, actions[0]) else s, actions[1..])
  }

  // ----- the invariant -----

  /** How many steps come before this one. */
  function Rank(r: Rung): nat { if r == Evict then 1 else if r == Verify then 2 else 0 }

  predicate Climbing(steps: seq<Rung>) { |steps| <= 3 && steps == LADDER[..|steps|] }

  /** Steps in order, and then stale work that found nothing armed. */
  predicate Ended(steps: seq<Rung>) {
    0 < |steps| <= 3 && steps[|steps| - 1] == None_ && Climbing(steps[..|steps| - 1])
  }

  /** The latest deadline of the firing after `fired` others, the third being the last. */
  function Due(c: Config, s: Sys, fired: nat): nat {
    s.armedAt + 1000 * FirstDelay(c)
    + if fired == 0 then 0 else if fired == 1 then 1000 * c.step + s.late else 2 * (1000 * c.step + s.late)
  }

  ghost predicate Timing(c: Config, s: Sys) {
    && s.armedAt <= s.now
    && (s.w.timer.Some? ==> s.w.timer.value <= Due(c, s, |s.steps|) && s.now <= s.w.timer.value + s.late)
    && (s.w.queued ==> s.expired <= Due(c, s, |s.steps|) && s.expired <= s.now <= s.expired + s.late)
    && (InHandler(s) ==> 0 < |s.steps| && s.due <= Due(c, s, |s.steps| - 1) && s.now <= s.due + s.late)
  }

  ghost predicate Order(c: Config, s: Sys) {
    && (Climbing(s.steps) || Ended(s.steps))
    && (s.w.light ==> s.w.next != None_ && !s.full)
    && match s.phase
       case Idle => Between(s)
       case Deferring => Between(s) && s.w.next == None_
       case Handling(step) =>
         && step != None_ && (s.w.next == step || s.w.next == None_)
         && Climbing(s.steps) && |s.steps| == Rank(step) + 1 && !s.stale
       case Submitting(delay, arms, hit) =>
         && !s.stale
         && (hit <==> s.w.next == None_)
         && if arms then delay <= FirstDelay(c) && (s.w.next != None_ ==> s.w.next == Readvertise)
            else delay == c.step && Climbing(s.steps) && 1 <= |s.steps| <= 2
                 && (s.w.next != None_ ==> |s.steps| == Rank(s.w.next))
  }

  ghost predicate Between(s: Sys) {
    && (Pending(s.w) <==> s.w.next != None_ || s.stale) && (s.stale ==> s.w.next == None_)
    && (Pending(s.w) ==> Climbing(s.steps) && |s.steps| <= 2 && (s.w.next != None_ ==> |s.steps| == Rank(s.w.next)))
  }

  ghost predicate Inv(c: Config, s: Sys) { Timing(c, s) && Order(c, s) }

  lemma FiresKeeps(c: Config, s: Sys, v: Env)
    requires ValidConfig(c) && Inv(c, s) && Enabled(s, Fires(v))
    ensures Inv(c, Step(c, s, Fires(v)))
  {
    var steps := s.steps + [s.w.next];
    assert steps[..|steps| - 1] == s.steps;
    if s.w.next != None_ {
      assert LADDER[..|s.steps|] + [s.w.next] == LADDER[..|s.steps| + 1];
    }
  }

  lemma FireEndsKeeps(c: Config, s: Sys)
    requires ValidConfig(c) && Inv(c, s) && Enabled(s, FireEnds)
    ensures Inv(c, Step(c, s, FireEnds))
  {
  }

  lemma SubmitsKeeps(c: Config, s: Sys)
    requires ValidConfig(c) && Inv(c, s) && Enabled(s, Submits)
    ensures Inv(c, Step(c, s, Submits))
  {
  }

  /** The clock, the timer, the deferred arming's checks, and the Bluetooth callbacks. */
  lemma OutsideKeeps(c: Config, s: Sys, a: Action)
    requires ValidConfig(c) && Inv(c, s) && Enabled(s, a)
    requires a.Tick? || a.Expires? || a.ActiveDownWork? || a.ConnectedEvent? || a.SecurityEvent?
    ensures Inv(c, Step(c, s, a))
  {
  }

  /** A beginning that changes nothing, resets, or starts an arming. */
  predicate Begins(c: Config, w: Watch, part: (Watch, Phase), full: bool) {
    var w' := w.(index := part.0.index);
    if part.1.Submitting? then
      && part.1.arms && !part.1.hit && part.1.delay <= FirstDelay(c)
      && part.0 == w'.(light := !full, next := Readvertise)
    else part.1.Idle? && (part.0 == w || part.0 == Reset(w'))
  }

  lemma BeginKeeps(c: Config, s: Sys, part: (Watch, Phase), full: bool)
    requires ValidConfig(c) && Inv(c, s) && (s.phase.Idle? || s.phase.Deferring?) && Begins(c, s.w, part, full)
    ensures Inv(c, Began(s, part, full))
  {
  }

  lemma ArmingKeeps(c: Config, s: Sys, a: Action)
    requires ValidConfig(c) && Inv(c, s) && Enabled(s, a) && (a.ProfileEvent? || a.LightRequest? || a.Defers?)
    ensures Inv(c, Step(c, s, a))
  {
    match a
    case ProfileEvent(v) => BeginKeeps(c, s, BeginProfile(c, s.w, v), true);
    case LightRequest(v) => BeginKeeps(c, s, BeginLight(c, s.w, v), false);
    case Defers(v) => BeginKeeps(c, s, BeginLight(c, s.w, v), false);
  }

  lemma StepKeeps(c: Config, s: Sys, a: Action)
    requires ValidConfig(c) && Inv(c, s) && Enabled(s, a)
    ensures Inv(c, Step(c, s, a))
  {
    if a.Fires? {
      FiresKeeps(c, s, a.v);
    } else if a.FireEnds? {
      FireEndsKeeps(c, s);
    } else if a.Submits? {
      SubmitsKeeps(c, s);
    } else if a.ProfileEvent? || a.LightRequest? || a.Defers? {
      ArmingKeeps(c, s, a);
    } else {
      OutsideKeeps(c, s, a);
    }
  }

  lemma {:induction false} RunKeeps(c: Config, s: Sys, actions: seq<Action>)
    requires ValidConfig(c) && Inv(c, s)
    ensures Inv(c, Run(c, s, actions)) && Run(c, s, actions).late == s.late
    decreases actions
  {
    if actions != [] {
      if Enabled(s, actions[0]) {
        StepKeeps(c, s, actions[0]);
        RunKeeps(c, Step(c, s, actions[0]), actions[1..]);
      } else {
        RunKeeps(c, s, actions[1..]);
      }
    }
  }

  /** In every reachable state between the work queue's handlers: the work is pending exactly if a
      step is armed or a reset came in between the last step and its submission. */
  lemma ArmedIffPending(c: Config, index: int, late: nat, actions: seq<Action>)
    requires ValidConfig(c)
    ensures var s := Run(c, Start(index, late), actions);
      s.phase.Idle? ==> (s.w.next != None_ <==> Pending(s.w) && !s.stale) && (s.stale ==> Pending(s.w))
  {
    RunKeeps(c, Start(index, late), actions);
  }

  /** In every reachable state: since the last arming the handler fired at most three times, at
      steps 1, 2 and 3 in order, of which the last may have found nothing armed; while anything is
      pending or the handler runs, the arming is no older than max(boost, step) + 2 step seconds,
      plus the lateness of three handlers; and a ladder marked light was not begun by a switch. */
  lemma LadderBounded(c: Config, index: int, late: nat, actions: seq<Action>)
    requires ValidConfig(c)
    ensures var s := Run(c, Start(index, late), actions);
      && (Climbing(s.steps) || Ended(s.steps))
      && (s.w.light ==> s.w.next != None_ && !s.full)
      && (Pending(s.w) || InHandler(s) ==>
            s.now <= s.armedAt + 1000 * (Max(c.step, if c.boostOn then c.boost else 0) + 2 * c.step) + 3 * late)
  {
    RunKeeps(c, Start(index, late), actions);
  }

  // ----- exactly when an armed step has its work pending -----

  function StepOrSkip(c: Config, s: Sys, a: Action): Sys { if Enabled(s, a) then Step(c, s, a) else s }

  /** In every state of the run between handlers, a step is armed if and only if its work is
      pending. */
  predicate AlwaysMatched(c: Config, s: Sys, actions: seq<Action>)
    decreases actions
  {
    && (s.phase.Idle? ==> (s.w.next != None_ <==> Pending(s.w)))
    && (actions != [] ==> AlwaysMatched(c, StepOrSkip(c, s, actions[0]), actions[1..]))
  }

  predicate Resets(a: Action) {
    (a.ConnectedEvent? && !a.failed && a.v.up) || (a.SecurityEvent? && a.encrypted && a.v.up)
  }

  /** No Bluetooth callback resets the ladder between a step's being written and its submission. */
  predicate NoMidReset(c: Config, s: Sys, actions: seq<Action>)
    decreases actions
  {
    actions != [] ==>
      !(s.phase.Submitting? && Resets(actions[0])) && NoMidReset(c, StepOrSkip(c, s, actions[0]), actions[1..])
  }

  /** A reset in that place shows at the latest when the work is submitted. */
  lemma {:induction false} MidResetShows(c: Config, s: Sys, actions: seq<Action>)
    requires ValidConfig(c) && Inv(c, s) && s.phase.Submitting? && s.phase.hit
    ensures !AlwaysMatched(c, s, actions + [Submits])
    decreases actions
  {
    var all := actions + [Submits];
    var s1 := StepOrSkip(c, s, all[0]);
    if all[0].Submits? {
      assert s1.phase.Idle? && s1.w.next == None_ && Pending(s1.w);
    } else {
      assert all[1..] == actions[1..] + [Submits];
      if Enabled(s, all[0]) {
        StepKeeps(c, s, all[0]);
      }
      MidResetShows(c, s1, actions[1..]);
    }
  }

  /** Nothing is stale or about to become so. */
  predicate Unhit(s: Sys) { !s.stale && (s.phase.Submitting? ==> !s.phase.hit) }

  lemma UnhitStep(c: Config, s: Sys, a: Action)
    requires ValidConfig(c) && Inv(c, s) && Unhit(s) && !(s.phase.Submitting? && Resets(a))
    ensures Inv(c, StepOrSkip(c, s, a)) && Unhit(StepOrSkip(c, s, a))
  {
    if Enabled(s, a) {
      StepKeeps(c, s, a);
    }
  }

  lemma UnhitMatches(c: Config, s: Sys)
    requires Inv(c, s) && Unhit(s)
    ensures s.phase.Idle? ==> (s.w.next != None_ <==> Pending(s.w))
  {
  }

  lemma {:induction false} MatchedIffNoMidReset(c: Config, s: Sys, actions: seq<Action>)
    requires ValidConfig(c) && Inv(c, s) && Unhit(s)
    ensures AlwaysMatched(c, s, actions + [Submits]) <==> NoMidReset(c, s, actions)
    decreases actions
  {
    var all := actions + [Submits];
    var s1 := StepOrSkip(c, s, all[0]);
    UnhitMatches(c, s);
    if actions == [] {
      UnhitStep(c, s, Submits);
      UnhitMatches(c, s1);
      assert all[1..] == [];
    } else {
      assert all[1..] == actions[1..] + [Submits];
      if s.phase.Submitting? && Resets(all[0]) {
        StepKeeps(c, s, all[0]);
        MidResetShows(c, s1, actions[1..]);
      } else {
        UnhitStep(c, s, all[0]);
        MatchedIffNoMidReset(c, s1, actions[1..]);
      }
    }
  }

  /** Over a whole run, up to the submission that may be under way: between handlers, a step is
      armed if and only if its work is pending, exactly if no reset falls between the writing of a
      step and the submission of its work. */
  lemma ArmedIffPendingIffNoMidReset(c: Config, index: int, late: nat, actions: seq<Action>)
    requires ValidConfig(c)
    ensures AlwaysMatched(c, Start(index, late), actions + [Submits]) <==> NoMidReset(c, Start(index, late), actions)
  {
    MatchedIffNoMidReset(c, Start(index, late), actions);
  }

  /** Such a run: the host of a profile just selected connects while its ladder is being armed. */
  lemma MidResetLeavesWork(c: Config)
    requires ValidConfig(c)
    ensures
      var down := Env(false, false, false, false, false, 1);
      var s := Run(c, Start(0, 0), [ProfileEvent(down), ConnectedEvent(false, down.(up := true)), Submits]);
      s.phase.Idle? && s.w.next == None_ && Pending(s.w)
  {
    var down := Env(false, false, false, false, false, 1);
    var actions := [ProfileEvent(down), ConnectedEvent(false, down.(up := true)), Submits];
    assert actions[1..] == [actions[1], actions[2]] && actions[1..][1..] == [actions[2]] && [actions[2]][1..] == [];
    var s1 := Step(c, Start(0, 0), actions[0]);
    assert s1.phase == Submitting(FirstDelay(c), true, false);
    var s2 := Step(c, s1, actions[1]);
    assert Run(c, s2, [Submits]) == Run(c, Step(c, s2, Submits), []);
  }

  // ----- only a switch arms again -----

  predicate Arming(s: Sys) { s.phase.Submitting? && s.phase.arms }

  /** A step is armed, or its handler is running. */
  predicate Alive(s: Sys) { s.w.next != None_ || InHandler(s) }

  /** The ladder is alive before every action of the run, and none switches to another profile.
      Anything else may happen: light requests, deferred armings, notifications of the same profile,
      link and security events, expiry and firing. */
  predicate Continues(c: Config, s: Sys, actions: seq<Action>)
    decreases actions
  {
    actions != [] ==>
      && Alive(s)
      && !(actions[0].ProfileEvent? && actions[0].v.index != s.w.index)
      && Continues(c, StepOrSkip(c, s, actions[0]), actions[1..])
  }

  /** The one move of a pending timer is to be cancelled or to expire; only the handler's own
      submission, a step later, starts it anew. */
  predicate TimerKept(c: Config, s: Sys, a: Action, s1: Sys) {
    || s1.w.timer.None?
    || s1.w.timer == s.w.timer
    || (a.Submits? && s.w.timer.None? && s1.w.timer == Some(s.now + 1000 * c.step))
  }

  /** ... at every action of the run. */
  predicate NeverPostponed(c: Config, s: Sys, actions: seq<Action>)
    decreases actions
  {
    actions != [] ==>
      var s1 := StepOrSkip(c, s, actions[0]);
      TimerKept(c, s, actions[0], s1) && NeverPostponed(c, s1, actions[1..])
  }

  lemma ContinuingStep(c: Config, s: Sys, a: Action)
    requires ValidConfig(c) && Inv(c, s) && Enabled(s, a) && !Arming(s) && Alive(s)
    requires !(a.ProfileEvent? && a.v.index != s.w.index)
    ensures var s1 := Step(c, s, a);
      && !Arming(s1) && s1.arming == s.arming && s1.armedAt == s.armedAt
      && s1.w.index == s.w.index && s1.full == s.full && s.steps <= s1.steps && TimerKept(c, s, a, s1)
  {
  }

  lemma {:induction false} ContinuingKeeps(c: Config, s: Sys, actions: seq<Action>)
    requires ValidConfig(c) && Inv(c, s) && !Arming(s) && Continues(c, s, actions)
    ensures var s1 := Run(c, s, actions);
      && !Arming(s1) && s1.arming == s.arming && s1.armedAt == s.armedAt
      && s1.w.index == s.w.index && s1.full == s.full && s.steps <= s1.steps && NeverPostponed(c, s, actions)
    decreases actions
  {
    if actions != [] {
      if Enabled(s, actions[0]) {
        StepKeeps(c, s, actions[0]);
        ContinuingStep(c, s, actions[0]);
        ContinuingKeeps(c, Step(c, s, actions[0]), actions[1..]);
      } else {
        ContinuingKeeps(c, s, actions[1..]);
      }
    }
  }

  /** From every reachable state with an armed or firing ladder, for as long as it has not gone idle
      and no other profile is selected: no arming is begun or submitted, so the ladder keeps the time
      and the kind of its arming; and a timer that runs is never moved, by anything, until it expires
      or is cancelled. */
  lemma OnlySwitchRearms(c: Config, index: int, late: nat, before: seq<Action>, actions: seq<Action>)
    requires ValidConfig(c) && !Arming(Run(c, Start(index, late), before))
    requires Continues(c, Run(c, Start(index, late), before), actions)
    ensures var s, s1 := Run(c, Start(index, late), before), Run(c, Run(c, Start(index, late), before), actions);
      && !Arming(s1) && s1.arming == s.arming && s1.armedAt == s.armedAt
      && s1.w.index == s.w.index && s1.full == s.full && s.steps <= s1.steps
      && NeverPostponed(c, s, actions)
      && (s1.w.timer.Some? ==> s1.w.timer.value <= Due(c, s1, |s1.steps|))
      && (s1.w.queued ==> s1.expired <= Due(c, s1, |s1.steps|))
  {
    RunKeeps(c, Start(index, late), before);
    var s := Run(c, Start(index, late), before);
    ContinuingKeeps(c, s, actions);
    RunKeeps(c, s, actions);
  }

  // ----- work left over by a reset -----

  predicate NeverArms(c: Config, s: Sys, actions: seq<Action>)
    decreases actions
  {
    !Arming(s) && (actions != [] ==> NeverArms(c, StepOrSkip(c, s, actions[0]), actions[1..]))
  }

  /** Nothing is armed, and at most the left-over work has still to fire, or has fired once. */
  ghost predicate Spent(s: Sys, steps: seq<Rung>) {
    && s.w.next == None_ && !InHandler(s) && (s.stale || !Pending(s.w))
    && (s.steps == steps || (s.steps == steps + [None_] && !Pending(s.w)))
  }

  lemma SpentStep(c: Config, s: Sys, steps: seq<Rung>, a: Action)
    requires Inv(c, s) && Enabled(s, a) && Spent(s, steps) && !Arming(s) && !Arming(Step(c, s, a))
    ensures Spent(Step(c, s, a), steps)
  {
  }

  /** Until something is armed anew, left-over work fires at most once, arms nothing and starts no
      handler step. */
  lemma {:induction false} StaleWorkStops(c: Config, s: Sys, steps: seq<Rung>, actions: seq<Action>)
    requires ValidConfig(c) && Inv(c, s) && Spent(s, steps) && NeverArms(c, s, actions)
    ensures Spent(Run(c, s, actions), steps)
    decreases actions
  {
    if actions != [] {
      if Enabled(s, actions[0]) {
        StepKeeps(c, s, actions[0]);
        SpentStep(c, s, steps, actions[0]);
        StaleWorkStops(c, Step(c, s, actions[0]), steps, actions[1..]);
      } else {
        StaleWorkStops(c, s, steps, actions[1..]);
      }
    }
  }
}
