/** The course of the recovery ladder when nothing interferes (src/reconnect_watch.c): all three steps,
    each at its time, while the host stays away, and a stop as soon as it is back or recovery is ruled
    out. */
module LadderCourse {
  import opened Common
  import opened ReconnectWatch
  import opened LadderRuns

  /** The selected host is closed to pairing, not linked, and nothing rules recovery out. */
  predicate Away(v: Env) { !v.usb && !v.suppressed && !v.open && !v.up && !v.scanned }

  lemma RunCons(c: Config, s: Sys, a: Action, rest: seq<Action>)
    requires Enabled(s, a)
    ensures Run(c, s, [a] + rest) == Run(c, Step(c, s, a), rest)
  {
    assert ([a] + rest)[0] == a && ([a] + rest)[1..] == rest;
  }

  /** A step armed and waiting for time t, with handlers that run at once. */
  predicate Waiting(s: Sys, r: Rung, t: nat) {
    s.phase.Idle? && s.w.next == r && s.w.timer == Some(t) && !s.w.queued && s.now <= t && s.late == 0
  }

  /** From now to the firing of the step at time t, and what the handler does. */
  function Firing(s: Sys, t: nat, v: Env): seq<Action>
    requires s.now <= t
  {
    [Tick(t - s.now), Expires, Fires(v), FireEnds]
  }

  /** The state in which the handler of a step starts. */
  lemma HandlerStarts(c: Config, s: Sys, r: Rung, t: nat, v: Env, rest: seq<Action>) returns (s1: Sys)
    requires Waiting(s, r, t) && r != None_ && Away(v)
    ensures Run(c, s, Firing(s, t, v) + rest) == Run(c, s1, [FireEnds] + rest)
    ensures s1 == s.(w := s.w.(timer := None), phase := Handling(r), now := t, expired := t, due := t, stale := false,
                     steps := s.steps + [r])
  {
    var ticked := Step(c, s, Tick(t - s.now));
    var expired := Step(c, ticked, Expires);
    s1 := Step(c, expired, Fires(v));
    assert Firing(s, t, v) + rest == [Tick(t - s.now)] + ([Expires] + ([Fires(v)] + ([FireEnds] + rest)));
    RunCons(c, s, Tick(t - s.now), [Expires] + ([Fires(v)] + ([FireEnds] + rest)));
    RunCons(c, ticked, Expires, [Fires(v)] + ([FireEnds] + rest));
    RunCons(c, expired, Fires(v), [FireEnds] + rest);
  }

  /** Step 1 or 2 at its time: the next one is armed, `step` seconds later. */
  lemma Climbs(c: Config, s: Sys, r: Rung, t: nat, v: Env, rest: seq<Action>) returns (s1: Sys)
    requires Waiting(s, r, t) && Away(v) && (r == Readvertise || r == Evict)
    ensures Run(c, s, Firing(s, t, v) + ([Submits] + rest)) == Run(c, s1, rest)
    ensures Waiting(s1, if r == Readvertise then Evict else Verify, t + 1000 * c.step)
    ensures s1.now == t && s1.steps == s.steps + [r] && s1.arming == s.arming && s1.w.light == s.w.light
  {
    var s0 := HandlerStarts(c, s, r, t, v, [Submits] + rest);
    var ended := Step(c, s0, FireEnds);
    s1 := Step(c, ended, Submits);
    RunCons(c, s0, FireEnds, [Submits] + rest);
    RunCons(c, ended, Submits, rest);
  }

  /** Step 3 at its time is the last. */
  lemma Ends(c: Config, s: Sys, t: nat, v: Env) returns (s1: Sys)
    requires Waiting(s, Verify, t) && Away(v)
    ensures Run(c, s, Firing(s, t, v)) == s1
    ensures s1.phase.Idle? && s1.w.next == None_ && !Pending(s1.w) && s1.now == t
    ensures s1.steps == s.steps + [Verify] && s1.arming == s.arming
  {
    assert Firing(s, t, v) == Firing(s, t, v) + [];
    var s0 := HandlerStarts(c, s, Verify, t, v, []);
    s1 := Step(c, s0, FireEnds);
    RunCons(c, s0, FireEnds, []);
  }

  /** The three firings, the first at time t, the others `step` seconds apart. */
  function Climb(c: Config, now: nat, t: nat, v: Env): seq<Action>
    requires now <= t
  {
    [Tick(t - now), Expires, Fires(v), FireEnds, Submits, Tick(1000 * c.step), Expires, Fires(v), FireEnds, Submits,
     Tick(1000 * c.step), Expires, Fires(v), FireEnds]
  }

  lemma ClimbParts(c: Config, s1: Sys, s2: Sys, s3: Sys, t: nat, v: Env)
    requires s1.now <= t && s2.now == t && s3.now == t + 1000 * c.step
    ensures Climb(c, s1.now, t, v)
         == Firing(s1, t, v) + ([Submits] + (Firing(s2, t + 1000 * c.step, v)
            + ([Submits] + Firing(s3, t + 2 * 1000 * c.step, v))))
  {
  }

  /** An armed ladder whose host stays away takes steps 1, 2 and 3, at t and `step` seconds apart, and
      is then idle. */
  lemma WholeClimb(c: Config, s: Sys, t: nat, v: Env)
    requires Waiting(s, Readvertise, t) && s.steps == [] && Away(v)
    ensures var s1 := Run(c, s, Climb(c, s.now, t, v));
      && s1.phase.Idle? && s1.w.next == None_ && !Pending(s1.w)
      && s1.steps == [Readvertise, Evict, Verify] && s1.now == t + 2 * 1000 * c.step && s1.arming == s.arming
  {
    var t2, t3 := t + 1000 * c.step, t + 2 * 1000 * c.step;
    var s2 := s.(now := t);
    var s3 := s.(now := t2);
    ClimbParts(c, s, s2, s3, t, v);
    var a := Climbs(c, s, Readvertise, t, v, Firing(s2, t2, v) + ([Submits] + Firing(s3, t3, v)));
    assert Firing(a, t2, v) == Firing(s2, t2, v);
    var b := Climbs(c, a, Evict, t2, v, Firing(s3, t3, v));
    assert Firing(b, t3, v) == Firing(s3, t3, v);
    var d := Ends(c, b, t3, v);
  }

  /** Nothing is armed, pending or running. */
  predicate Unarmed(s: Sys) {
    s.phase.Idle? && s.w.next == None_ && s.w.timer.None? && !s.w.queued && s.late == 0
  }

  /** Selecting another host that stays away: the first step after the longer of the boost window and
      `step` seconds, the others `step` seconds apart, all three, and then idle. */
  lemma SwitchCourse(c: Config, s: Sys, v: Env)
    requires Unarmed(s) && Away(v) && v.index != s.w.index
    ensures var t := s.now + 1000 * Max(c.step, if c.boostOn then c.boost else 0);
      var s1 := Run(c, s, [ProfileEvent(v), Submits] + Climb(c, s.now, t, v));
      && s1.phase.Idle? && s1.w.next == None_ && !Pending(s1.w)
      && s1.steps == [Readvertise, Evict, Verify] && s1.now == t + 2 * 1000 * c.step
      && s1.arming == s.arming + 1
  {
    var t := s.now + 1000 * Max(c.step, if c.boostOn then c.boost else 0);
    var rest := Climb(c, s.now, t, v);
    var begun := Step(c, s, ProfileEvent(v));
    var armed := Step(c, begun, Submits);
    assert [ProfileEvent(v), Submits] + rest == [ProfileEvent(v)] + ([Submits] + rest);
    RunCons(c, s, ProfileEvent(v), [Submits] + rest);
    RunCons(c, begun, Submits, rest);
    WholeClimb(c, armed, t, v);
  }

  /** A light request for a host that stays away: the same, with the first step after `step` seconds. */
  lemma LightCourse(c: Config, s: Sys, v: Env)
    requires Unarmed(s) && Away(v)
    ensures var t := s.now + 1000 * c.step;
      var s1 := Run(c, s, [LightRequest(v), Submits] + Climb(c, s.now, t, v));
      && s1.phase.Idle? && s1.w.next == None_ && !Pending(s1.w)
      && s1.steps == [Readvertise, Evict, Verify] && s1.now == t + 2 * 1000 * c.step
      && s1.arming == s.arming + 1
  {
    var t := s.now + 1000 * c.step;
    var rest := Climb(c, s.now, t, v);
    var begun := Step(c, s, LightRequest(v));
    var armed := Step(c, begun, Submits);
    assert [LightRequest(v), Submits] + rest == [LightRequest(v)] + ([Submits] + rest);
    RunCons(c, s, LightRequest(v), [Submits] + rest);
    RunCons(c, begun, Submits, rest);
    WholeClimb(c, armed, t, v);
  }

  /** The deferred arming after the selected host was lost is a light request, if it is built in. */
  lemma DeferredIsLight(c: Config, s: Sys, v: Env)
    requires Unarmed(s) && Away(v)
    ensures Run(c, s, [ActiveDownWork(v), Defers(v)]) == if c.onActiveDown then Step(c, s, LightRequest(v)) else s
  {
    var begun := Step(c, s, ActiveDownWork(v));
    assert [ActiveDownWork(v), Defers(v)] == [ActiveDownWork(v)] + [Defers(v)];
    RunCons(c, s, ActiveDownWork(v), [Defers(v)]);
    assert [Defers(v)][1..] == [];
  }

  /** The events that find the host linked or pairing, or recovery ruled out. */
  predicate FindsHostBack(s: Sys, a: Action) {
    match a
    case Fires(v) => v.usb || v.suppressed || v.open || v.up || v.scanned
    case ProfileEvent(v) => v.index != s.w.index && (v.usb || v.suppressed || v.open || v.up)
    case LightRequest(v) => !v.usb && (v.open || v.up)
    case ConnectedEvent(failed, v) => !failed && v.up
    case SecurityEvent(encrypted, v) => encrypted && v.up
    case _ => false
  }

  /** From every reachable state, between handlers: such an event leaves nothing armed and nothing
      pending, and takes no further step. */
  lemma StopsWhenHostIsBack(c: Config, index: int, late: nat, before: seq<Action>, a: Action)
    requires ValidConfig(c)
    requires var s := Run(c, Start(index, late), before); s.phase.Idle? && Enabled(s, a) && FindsHostBack(s, a)
    ensures var s1 := Step(c, Run(c, Start(index, late), before), a);
      s1.phase.Idle? && s1.w.next == None_ && !Pending(s1.w)
  {
    RunKeeps(c, Start(index, late), before);
  }
}
