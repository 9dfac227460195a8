/** The radio transmit observer (src/handoff_radio_tx.c) and the counters it feeds. */
module RadioTx {
  import opened Common
  import H = Handoff

  datatype Pdu = Pdu(control: bool, len: u8, terminateOpcode: bool)

  predicate IsTermination(pdu: Pdu) { pdu.control && pdu.len >= 2 && pdu.terminateOpcode }

  /** A connection object as its interrupt handlers see it; addresses are numbers, 0 is NULL. */
  datatype Lll = Lll(address: nat, handle: nat, peripheral: bool, encrypted: bool)

  datatype Isr = ConnRx(lll: Lll) | ConnTx(lll: Lll) | Private(address: nat) {
    function Address(): nat { if Private? then address else lll.address }
  }

  datatype State = State(
    param: nat, handle: nat, active: bool, encrypted: bool, pending: bool, packet: nat, term: bool)

  const IDLE := State(0, 0, false, false, false, 0, false)

  /** What the observer tells the counters. */
  datatype Call = SetupCall(handle: nat, now: nat) | ResultCall(handle: nat, completed: bool, now: nat)

  /** `end` is the radio's END event and `now` the uptime while a hook runs. */
  datatype Action =
    | IsrSet(isr: Isr, end: bool, now: nat)
    | CcmSet(plain: Pdu, out: nat)
    | PktSet(packet: nat, pdu: Pdu, end: bool, now: nat)
    | StatusReset(end: bool, now: nat)

  function Finish(t: State, end: bool, now: nat): (State, seq<Call>) {
    if t.pending then (t.(pending := false), [ResultCall(t.handle, end, now)]) else (t, [])
  }

  predicate Armed(table: seq<H.Radio>, handle: nat) { handle < |table| && table[handle].armed }

  function Observe(t: State, table: seq<H.Radio>, a: Action): (State, seq<Call>) {
    match a
    case IsrSet(isr, end, now) =>
      var other := isr.Address() != t.param;
      var (t1, calls) := if isr.ConnRx? || other then Finish(t, end, now) else (t, []);
      if !isr.Private? then
        (State(isr.lll.address, isr.lll.handle, isr.lll.peripheral && Armed(ApplyCalls(table, calls), isr.lll.handle),
               isr.lll.encrypted, t1.pending, if other then 0 else t.packet, t.term), calls)
      else if other then (t1.(active := false, packet := 0, param := 0), calls)
      else (t1, calls)
    case CcmSet(plain, out) => (t.(packet := out, term := t.active && IsTermination(plain)), [])
    case PktSet(packet, pdu, end, now) =>
      var (t1, calls) := Finish(t, end, now);
      if t.active && (if t.encrypted then t.packet == packet && t.term else IsTermination(pdu))
      then (t1.(packet := 0, pending := true), calls + [SetupCall(t.handle, now)])
      else (t1.(packet := 0), calls)
    case StatusReset(end, now) => Finish(t, end, now)
  }

  function ApplyCall(table: seq<H.Radio>, c: Call): seq<H.Radio> {
    if c.handle >= |table| then table
    else table[c.handle := H.Apply(table[c.handle], ObservationOf(c)).0]
  }

  function ObservationOf(c: Call): H.Observation {
    match c
    case SetupCall(_, now) => H.Setup(now)
    case ResultCall(_, completed, now) => H.Result(completed, now)
  }

  function ApplyCalls(table: seq<H.Radio>, calls: seq<Call>): (out: seq<H.Radio>)
    ensures |out| == |table|
    decreases |calls|
  {
    if calls == [] then table else ApplyCall(ApplyCalls(table, calls[..|calls| - 1]), calls[|calls| - 1])
  }

  class TxRadio {
    var param: nat
    var handle: nat
    var active: bool
    var encrypted: bool
    var pending: bool
    var encryptedPacket: nat
    var encryptedTerm: bool
    const counters: H.Radios

    constructor (counters: H.Radios)
      ensures Abs() == IDLE && this.counters == counters
    {
      param, handle, active, encrypted, pending, encryptedPacket, encryptedTerm := 0, 0, false, false, false, 0, false;
      this.counters := counters;
    }

    ghost function Abs(): State
      reads this
    {
      State(param, handle, active, encrypted, pending, encryptedPacket, encryptedTerm)
    }

    method FinishPending(end: bool, now: nat)
      modifies this`pending, counters.radios
      ensures var (t, calls) := Finish(old(Abs()), end, now);
        Abs() == t && counters.radios[..] == ApplyCalls(old(counters.radios[..]), calls)
    {
      if pending {
        counters.OnTxResult(handle, end, now);
        pending := false;
        OneCall(old(counters.radios[..]), ResultCall(handle, end, now));
      }
    }

    method OnIsrSet(isr: Isr, end: bool, now: nat)
      modifies this, counters.radios
      ensures var (t, calls) := Observe(old(Abs()), old(counters.radios[..]), IsrSet(isr, end, now));
        Abs() == t && counters.radios[..] == ApplyCalls(old(counters.radios[..]), calls)
    {
      if isr.ConnRx? || isr.ConnTx? {
        if isr.ConnRx? {
          FinishPending(end, now);
        }
        if isr.Address() != param {
          FinishPending(end, now);
          encryptedPacket := 0;
        }
        Enter(isr.lll);
      } else if isr.Address() != param {
        FinishPending(end, now);
        active := false;
        encryptedPacket := 0;
        param := 0;
      }
    }

    /** The context of a connection; what is pending and sealed stays. */
    method Enter(lll: Lll)
      modifies this`param, this`handle, this`active, this`encrypted
      ensures Abs() == State(lll.address, lll.handle, lll.peripheral && Armed(counters.radios[..], lll.handle),
                             lll.encrypted, pending, encryptedPacket, encryptedTerm)
    {
      param := lll.address;
      handle := lll.handle;
      var armed := counters.Armed(lll.handle);
      active := lll.peripheral && armed;
      encrypted := lll.encrypted;
    }

    method OnCcmSet(plain: Pdu, out: nat)
      modifies this`encryptedPacket, this`encryptedTerm
      ensures Abs() == Observe(old(Abs()), counters.radios[..], CcmSet(plain, out)).0
    {
      encryptedPacket := out;
      encryptedTerm := active && IsTermination(plain);
    }

    method OnPktSet(packet: nat, pdu: Pdu, end: bool, now: nat)
      modifies this, counters.radios
      ensures var (t, calls) := Observe(old(Abs()), old(counters.radios[..]), PktSet(packet, pdu, end, now));
        Abs() == t && counters.radios[..] == ApplyCalls(old(counters.radios[..]), calls)
    {
      var term := active && if encrypted then encryptedPacket == packet && encryptedTerm else IsTermination(pdu);
      encryptedPacket := 0;
      FinishPending(end, now);
      if term {
        SetUp(now, old(counters.radios[..]), Finish(old(Abs()), end, now).1);
      }
    }

    method SetUp(now: nat, ghost was: seq<H.Radio>, ghost calls: seq<Call>)
      requires counters.radios[..] == ApplyCalls(was, calls)
      modifies this`pending, counters.radios
      ensures Abs() == old(Abs()).(pending := true)
      ensures counters.radios[..] == ApplyCalls(was, calls + [SetupCall(handle, now)])
    {
      counters.OnTxSetup(handle, now);
      pending := true;
      AppendCall(was, calls, SetupCall(handle, now));
    }

    method OnStatusReset(end: bool, now: nat)
      modifies this`pending, counters.radios
      ensures var (t, calls) := Observe(old(Abs()), old(counters.radios[..]), StatusReset(end, now));
        Abs() == t && counters.radios[..] == ApplyCalls(old(counters.radios[..]), calls)
    {
      FinishPending(end, now);
    }
  }

  lemma OneCall(table: seq<H.Radio>, c: Call)
    ensures ApplyCalls(table, [c]) == ApplyCall(table, c)
  {
    assert [c][..0] == [];
  }

  lemma AppendCall(table: seq<H.Radio>, calls: seq<Call>, c: Call)
    ensures ApplyCalls(table, calls + [c]) == ApplyCall(ApplyCalls(table, calls), c)
  {
    assert (calls + [c])[..|calls|] == calls;
  }

  // ----- whole runs -----

  /** Everything that can happen to the observer and its counters; the counters' own events are
      those of src/handoff_diagnostics.c. */
  datatype Event =
    | Hook(action: Action)
    | Connected(handle: nat)
    | Disconnected(handle: nat)
    | Arming(handle: nat)
    | RequestFailed(handle: nat)
    | ConnDone(handle: nat, peripheral: bool, e: H.Done, now: nat)

  datatype Sys = Sys(t: State, table: seq<H.Radio>)

  function Next(s: Sys, x: Event): (Sys, seq<Call>) {
    match x
    case Hook(action) =>
      var (t, calls) := Observe(s.t, s.table, action);
      (Sys(t, ApplyCalls(s.table, calls)), calls)
    case Connected(h) => (if h < |s.table| then s.(table := s.table[h := H.CLEAR]) else s, [])
    case Disconnected(h) => (if h < |s.table| then s.(table := s.table[h := H.CLEAR]) else s, [])
    case Arming(h) => (if h < |s.table| then s.(table := s.table[h := H.Arm(s.table[h])]) else s, [])
    case RequestFailed(h) =>
      (if h < |s.table| then s.(table := s.table[h := s.table[h].(armed := false)]) else s, [])
    case ConnDone(h, peripheral, e, now) =>
      (if h < |s.table| && peripheral then s.(table := s.table[h := H.ConnDone(s.table[h], e, now).0]) else s, [])
  }

  function Run(s: Sys, xs: seq<Event>): (Sys, seq<Call>) {
    if xs == [] then (s, [])
    else
      var (s1, calls) := Run(s, xs[..|xs| - 1]);
      var (s2, more) := Next(s1, xs[|xs| - 1]);
      (s2, calls + more)
  }

  /** A connection object keeps one handle, and is not NULL. */
  predicate FixedHandles(handleOf: nat -> nat, xs: seq<Event>) {
    forall i :: 0 <= i < |xs| ==> FixedHandle(handleOf, xs[i])
  }

  predicate FixedHandle(handleOf: nat -> nat, x: Event) {
    x.Hook? && x.action.IsrSet? && !x.action.isr.Private? ==>
      x.action.isr.lll.address != 0 && x.action.isr.lll.handle == handleOf(x.action.isr.lll.address)
  }

  /** What a log leaves open: None if some call in it does not fit, otherwise the handle of the
      setup that still waits for its result, if there is one. */
  function Open(log: seq<Call>): Option<Option<nat>> {
    if log == [] then Some(None)
    else
      match Open(log[..|log| - 1])
      case None => None
      case Some(open) =>
        match log[|log| - 1]
        case SetupCall(h, _) => if open == None then Some(Some(h)) else None
        case ResultCall(h, _, _) => if open == Some(h) then Some(None) else None
  }

  function OpenIn(t: State): Option<nat> { if t.pending then Some(t.handle) else None }

  predicate Bound(handleOf: nat -> nat, t: State) {
    && (t.param != 0 ==> t.handle == handleOf(t.param))
    && (t.pending || t.active ==> t.param != 0)
  }

  lemma OpenAppend(log: seq<Call>, c: Call)
    ensures Open(log + [c]) == match Open(log)
      case None => None
      case Some(open) => (match c
        case SetupCall(h, _) => if open == None then Some(Some(h)) else None
        case ResultCall(h, _, _) => if open == Some(h) then Some(None) else None)
  {
    assert (log + [c])[..|log|] == log;
  }

  lemma FinishCloses(log: seq<Call>, t: State, end: bool, now: nat)
    requires Open(log) == Some(OpenIn(t))
    ensures Open(log + Finish(t, end, now).1) == Some(None)
  {
    if t.pending {
      OpenAppend(log, ResultCall(t.handle, end, now));
    } else {
      assert log + [] == log;
    }
  }

  lemma BoundStep(handleOf: nat -> nat, s: Sys, x: Event)
    requires Bound(handleOf, s.t) && FixedHandle(handleOf, x)
    ensures Bound(handleOf, Next(s, x).0.t)
  {
  }

  /** A step calls nothing, resolves what was pending, or does so and sets up the next. */
  lemma StepShape(handleOf: nat -> nat, s: Sys, x: Event)
    requires Bound(handleOf, s.t) && FixedHandle(handleOf, x) && x.Hook? && !x.action.CcmSet?
    ensures var (s1, calls) := Next(s, x); var done := Finish(s.t, x.action.end, x.action.now).1;
      || (calls == done && !s1.t.pending)
      || (calls == [] && OpenIn(s1.t) == OpenIn(s.t))
      || (calls == done + [SetupCall(s.t.handle, x.action.now)] && OpenIn(s1.t) == Some(s.t.handle))
  {
  }

  lemma StepPairs(handleOf: nat -> nat, s: Sys, log: seq<Call>, x: Event)
    requires Bound(handleOf, s.t) && FixedHandle(handleOf, x)
    requires Open(log) == Some(OpenIn(s.t))
    ensures var (s1, calls) := Next(s, x); Open(log + calls) == Some(OpenIn(s1.t))
  {
    assert log + [] == log;
    if x.Hook? && !x.action.CcmSet? {
      var end, now := x.action.end, x.action.now;
      var done, setup := Finish(s.t, end, now).1, SetupCall(s.t.handle, now);
      StepShape(handleOf, s, x);
      FinishCloses(log, s.t, end, now);
      OpenAppend(log + done, setup);
      assert log + done + [setup] == log + (done + [setup]);
    }
  }

  /** Each termination setup is resolved exactly once and on its own handle, before the next one. */
  lemma {:induction false} SetupsResolvedOnce(handleOf: nat -> nat, table: seq<H.Radio>, xs: seq<Event>)
    requires FixedHandles(handleOf, xs)
    ensures var (s, log) := Run(Sys(IDLE, table), xs); Bound(handleOf, s.t) && Open(log) == Some(OpenIn(s.t))
    decreases |xs|
  {
    if xs != [] {
      var front, x := xs[..|xs| - 1], xs[|xs| - 1];
      assert FixedHandle(handleOf, x) && forall i :: 0 <= i < |front| ==> front[i] == xs[i];
      SetupsResolvedOnce(handleOf, table, front);
      var (s, log) := Run(Sys(IDLE, table), front);
      BoundStep(handleOf, s, x);
      StepPairs(handleOf, s, log, x);
    }
  }

  /** The hooks that resolve a pending setup made in connection `param`. */
  predicate Resolves(x: Event, param: nat) {
    x.Hook? && match x.action
      case IsrSet(isr, _, _) => isr.ConnRx? || isr.Address() != param
      case CcmSet(_, _) => false
      case PktSet(_, _, _, _) => true
      case StatusReset(_, _) => true
  }

  /** A pending setup waits, unanswered, until the first resolving hook, and is then reported as
      completed exactly if END was set at that moment. */
  lemma {:induction false} ResolvedByEnd(handleOf: nat -> nat, s: Sys, xs: seq<Event>)
    requires s.t.pending && Bound(handleOf, s.t) && FixedHandles(handleOf, xs)
    requires forall i :: 0 <= i < |xs| - 1 ==> !Resolves(xs[i], s.t.param)
    ensures var (s1, log) := Run(s, xs);
      if xs != [] && Resolves(xs[|xs| - 1], s.t.param)
      then log != [] && log[0] == ResultCall(s.t.handle, xs[|xs| - 1].action.end, xs[|xs| - 1].action.now)
           && (forall i :: 1 <= i < |log| ==> log[i].SetupCall?)
      else log == [] && s1.t.pending && s1.t.param == s.t.param && s1.t.handle == s.t.handle
    decreases |xs|
  {
    if xs != [] {
      var front, x := xs[..|xs| - 1], xs[|xs| - 1];
      assert FixedHandle(handleOf, x) && forall i :: 0 <= i < |front| ==> front[i] == xs[i];
      ResolvedByEnd(handleOf, s, front);
      assert Run(s, front).1 == [];
    }
  }

  // ----- conservation, per handle -----

  predicate PendingOn(t: State, h: nat) { t.pending && t.handle == h }

  /** What the counters of handle `h` observe of one step. */
  function ObservationsOf(h: nat, x: Event, calls: seq<Call>): seq<H.Observation> {
    if x.ConnDone? && x.peripheral && x.handle == h then [H.Finished(x.e, x.now)] else CallsOf(h, calls)
  }

  function CallsOf(h: nat, calls: seq<Call>): seq<H.Observation> {
    if calls == [] then []
    else
      var last := calls[|calls| - 1];
      CallsOf(h, calls[..|calls| - 1]) + if last.handle == h then [ObservationOf(last)] else []
  }

  function LogOf(h: nat, s: Sys, xs: seq<Event>): seq<H.Observation> {
    if xs == [] then []
    else
      var front, x := xs[..|xs| - 1], xs[|xs| - 1];
      LogOf(h, s, front) + ObservationsOf(h, x, Next(Run(s, front).0, x).1)
  }

  /** Nothing that begins, ends or disarms the observation of `h`. */
  predicate Undisturbed(h: nat, x: Event) {
    x.Hook? || x.ConnDone? || x.handle != h
  }

  lemma ObserveAppend(r: H.Radio, log: seq<H.Observation>, o: H.Observation)
    ensures H.ObserveAll(r, log + [o]).0 == H.Apply(H.ObserveAll(r, log).0, o).0
  {
    assert (log + [o])[..|log|] == log;
  }

  lemma {:induction false} CallsOnHandle(h: nat, r: H.Radio, log: seq<H.Observation>, table: seq<H.Radio>,
                                         calls: seq<Call>)
    requires h < |table| && table[h] == H.ObserveAll(r, log).0
    ensures ApplyCalls(table, calls)[h] == H.ObserveAll(r, log + CallsOf(h, calls)).0
    decreases |calls|
  {
    if calls == [] {
      assert log + [] == log;
    } else {
      var front, c := calls[..|calls| - 1], calls[|calls| - 1];
      CallsOnHandle(h, r, log, table, front);
      CallOnHandle(h, r, log + CallsOf(h, front), ApplyCalls(table, front), c);
      assert log + CallsOf(h, calls) == log + CallsOf(h, front) + if c.handle == h then [ObservationOf(c)] else [];
    }
  }

  lemma CallOnHandle(h: nat, r: H.Radio, log: seq<H.Observation>, table: seq<H.Radio>, c: Call)
    requires h < |table| && table[h] == H.ObserveAll(r, log).0
    ensures ApplyCall(table, c)[h] == H.ObserveAll(r, log + if c.handle == h then [ObservationOf(c)] else []).0
  {
    if c.handle == h {
      ObserveAppend(r, log, ObservationOf(c));
    } else {
      assert log + [] == log;
    }
  }

  lemma OtherObserves(h: nat, r: H.Radio, log: seq<H.Observation>, s: Sys, x: Event)
    requires h < |s.table| && Undisturbed(h, x) && s.table[h] == H.ObserveAll(r, log).0 && !x.Hook?
    ensures var s1 := Next(s, x).0;
      |s1.table| == |s.table| && s1.table[h] == H.ObserveAll(r, log + ObservationsOf(h, x, [])).0
  {
    if x.ConnDone? && x.peripheral && x.handle == h {
      ObserveAppend(r, log, H.Finished(x.e, x.now));
    } else {
      assert log + [] == log;
    }
  }

  lemma StepObserves(h: nat, r: H.Radio, log: seq<H.Observation>, s: Sys, x: Event)
    requires h < |s.table| && Undisturbed(h, x) && s.table[h] == H.ObserveAll(r, log).0
    ensures var (s1, calls) := Next(s, x);
      |s1.table| == |s.table| && s1.table[h] == H.ObserveAll(r, log + ObservationsOf(h, x, calls)).0
  {
    if x.Hook? {
      CallsOnHandle(h, r, log, s.table, Next(s, x).1);
    } else {
      OtherObserves(h, r, log, s, x);
    }
  }

  /** The counters of a handle observe what happened on it, and nothing else. */
  lemma {:induction false} HandleObserves(h: nat, s: Sys, xs: seq<Event>)
    requires h < |s.table| && forall i :: 0 <= i < |xs| ==> Undisturbed(h, xs[i])
    ensures var s1 := Run(s, xs).0;
      |s1.table| == |s.table| && s1.table[h] == H.ObserveAll(s.table[h], LogOf(h, s, xs)).0
    decreases |xs|
  {
    if xs != [] {
      var front, x := xs[..|xs| - 1], xs[|xs| - 1];
      assert Undisturbed(h, x) && forall i :: 0 <= i < |front| ==> front[i] == xs[i];
      HandleObserves(h, s, front);
      StepObserves(h, s.table[h], LogOf(h, s, front), Run(s, front).0, x);
    }
  }

  function Weight(o: H.Observation): int { if o.Setup? then 1 else if o.Result? then -1 else 0 }

  /** Setups left over by a log: those without a result. */
  function Balance(log: seq<H.Observation>): int {
    if log == [] then 0 else Balance(log[..|log| - 1]) + Weight(log[|log| - 1])
  }

  lemma {:induction false} BalanceIsDifference(log: seq<H.Observation>)
    ensures Balance(log) == H.Total(H.Setups, log) - H.Total(H.Completed, log) - H.Total(H.Uncompleted, log)
    decreases |log|
  {
    if log != [] {
      BalanceIsDifference(log[..|log| - 1]);
    }
  }

  lemma BalanceAppend(log: seq<H.Observation>, o: H.Observation)
    ensures Balance(log + [o]) == Balance(log) + Weight(o)
  {
    assert (log + [o])[..|log|] == log;
  }

  /** What a handle still waits for after some more calls. */
  lemma CallBalances(h: nat, log: seq<H.Observation>, calls: seq<Call>, c: Call)
    ensures Balance(log + CallsOf(h, calls + [c]))
            == Balance(log + CallsOf(h, calls)) + if c.handle == h then Weight(ObservationOf(c)) else 0
  {
    assert (calls + [c])[..|calls|] == calls;
    if c.handle == h {
      BalanceAppend(log + CallsOf(h, calls), ObservationOf(c));
      assert log + CallsOf(h, calls + [c]) == log + CallsOf(h, calls) + [ObservationOf(c)];
    } else {
      assert CallsOf(h, calls + [c]) == CallsOf(h, calls);
    }
  }

  lemma FinishBalances(h: nat, log: seq<H.Observation>, t: State, end: bool, now: nat)
    ensures Balance(log + CallsOf(h, Finish(t, end, now).1)) == Balance(log) - H.Bit(PendingOn(t, h))
  {
    assert log + CallsOf(h, []) == log;
    if t.pending {
      CallBalances(h, log, [], ResultCall(t.handle, end, now));
      assert [] + [ResultCall(t.handle, end, now)] == [ResultCall(t.handle, end, now)];
    }
  }

  lemma HookBalances(handleOf: nat -> nat, h: nat, log: seq<H.Observation>, s: Sys, x: Event)
    requires Bound(handleOf, s.t) && FixedHandle(handleOf, x) && x.Hook? && !x.action.CcmSet?
    ensures var (s1, calls) := Next(s, x);
      Balance(log + CallsOf(h, calls)) == Balance(log) + H.Bit(PendingOn(s1.t, h)) - H.Bit(PendingOn(s.t, h))
  {
    var end, now := x.action.end, x.action.now;
    assert log + CallsOf(h, []) == log;
    StepShape(handleOf, s, x);
    FinishBalances(h, log, s.t, end, now);
    CallBalances(h, log, Finish(s.t, end, now).1, SetupCall(s.t.handle, now));
  }

  lemma StepBalances(handleOf: nat -> nat, h: nat, log: seq<H.Observation>, s: Sys, x: Event)
    requires Bound(handleOf, s.t) && FixedHandle(handleOf, x)
    ensures var (s1, calls) := Next(s, x);
      Balance(log + ObservationsOf(h, x, calls)) == Balance(log) + H.Bit(PendingOn(s1.t, h)) - H.Bit(PendingOn(s.t, h))
  {
    assert log + [] == log;
    if x.ConnDone? {
      BalanceAppend(log, H.Finished(x.e, x.now));
    } else if x.Hook? && !x.action.CcmSet? {
      HookBalances(handleOf, h, log, s, x);
    }
  }

  lemma {:induction false} RunBound(handleOf: nat -> nat, s: Sys, xs: seq<Event>)
    requires Bound(handleOf, s.t) && FixedHandles(handleOf, xs)
    ensures Bound(handleOf, Run(s, xs).0.t)
    decreases |xs|
  {
    if xs != [] {
      var front, x := xs[..|xs| - 1], xs[|xs| - 1];
      assert FixedHandle(handleOf, x) && forall i :: 0 <= i < |front| ==> front[i] == xs[i];
      RunBound(handleOf, s, front);
      BoundStep(handleOf, Run(s, front).0, x);
    }
  }

  /** Setups and results balance over any run, up to what is pending at its ends. */
  lemma {:induction false} Balances(handleOf: nat -> nat, h: nat, s: Sys, xs: seq<Event>)
    requires Bound(handleOf, s.t) && FixedHandles(handleOf, xs)
    ensures Balance(LogOf(h, s, xs)) == H.Bit(PendingOn(Run(s, xs).0.t, h)) - H.Bit(PendingOn(s.t, h))
    decreases |xs|
  {
    if xs != [] {
      var front, x := xs[..|xs| - 1], xs[|xs| - 1];
      assert FixedHandle(handleOf, x) && forall i :: 0 <= i < |front| ==> front[i] == xs[i];
      Balances(handleOf, h, s, front);
      RunBound(handleOf, s, front);
      var s1 := Run(s, front).0;
      StepBalances(handleOf, h, LogOf(h, s, front), s1, x);
    }
  }

  /** A log of a handle whose counters were armed: the counters are the true counts ... */
  lemma ArmedCounts(h: nat, s: Sys, after: seq<Event>)
    requires h < |s.table| && forall i :: 0 <= i < |after| ==> Undisturbed(h, after[i])
    ensures var armed := Next(s, Arming(h)).0;
      var log := LogOf(h, armed, after);
      var end := Run(armed, after).0;
      && |end.table| == |s.table| && end.table[h] == H.ObserveAll(H.Arm(s.table[h]), log).0
      && forall k: H.Kind :: H.Counter(k, end.table[h]) == H.Capped(H.Total(k, log))
  {
    var armed := Next(s, Arming(h)).0;
    HandleObserves(h, armed, after);
    forall k: H.Kind
      ensures H.Counter(k, Run(armed, after).0.table[h]) == H.Capped(H.Total(k, LogOf(h, armed, after)))
    {
      H.CountersAreTrue(k, s.table[h], LogOf(h, armed, after));
    }
  }

  /** ... and setups equal completed plus uncompleted plus pending exactly if nothing was pending. */
  lemma ArmedBalance(handleOf: nat -> nat, h: nat, s: Sys, after: seq<Event>)
    requires h < |s.table| && Bound(handleOf, s.t) && FixedHandles(handleOf, after)
    ensures var armed := Next(s, Arming(h)).0;
      var log := LogOf(h, armed, after);
      H.Total(H.Setups, log)
      == H.Total(H.Completed, log) + H.Total(H.Uncompleted, log) + H.Bit(PendingOn(Run(armed, after).0.t, h))
      <==> !PendingOn(s.t, h)
  {
    var armed := Next(s, Arming(h)).0;
    Balances(handleOf, h, armed, after);
    BalanceIsDifference(LogOf(h, armed, after));
  }

  /** From an arming on, the counters are the true counts, and setups equal completed plus
      uncompleted plus pending, exactly if the arming found nothing pending on its handle. */
  lemma TransmissionsConserved(handleOf: nat -> nat, table: seq<H.Radio>, before: seq<Event>, h: nat, after: seq<Event>)
    requires h < |table| && FixedHandles(handleOf, before) && FixedHandles(handleOf, after)
    requires forall i :: 0 <= i < |after| ==> Undisturbed(h, after[i])
    ensures
      var s := Run(Sys(IDLE, table), before).0;
      var armed := Next(s, Arming(h)).0;
      var log := LogOf(h, armed, after);
      var (end, _) := Run(armed, after);
      && |s.table| == |end.table| == |table| && end.table[h] == H.ObserveAll(H.Arm(s.table[h]), log).0
      && (forall k: H.Kind :: H.Counter(k, end.table[h]) == H.Capped(H.Total(k, log)))
      && (H.Total(H.Setups, log)
          == H.Total(H.Completed, log) + H.Total(H.Uncompleted, log) + H.Bit(PendingOn(end.t, h))
          <==> !PendingOn(s.t, h))
  {
    var s := Run(Sys(IDLE, table), before).0;
    SetupsResolvedOnce(handleOf, table, before);
    TableKept(Sys(IDLE, table), before);
    ArmedCounts(h, s, after);
    ArmedBalance(handleOf, h, s, after);
  }

  lemma {:induction false} TableKept(s: Sys, xs: seq<Event>)
    ensures |Run(s, xs).0.table| == |s.table|
    decreases |xs|
  {
    if xs != [] {
      TableKept(s, xs[..|xs| - 1]);
    }
  }

  // ----- ciphertext -----

  function StateAt(s: Sys, xs: seq<Event>, i: nat): State
    requires i <= |xs|
  {
    Run(s, xs[..i]).0.t
  }

  lemma StateAtFront(s: Sys, xs: seq<Event>, i: nat)
    requires i < |xs|
    ensures StateAt(s, xs[..|xs| - 1], i) == StateAt(s, xs, i)
  {
    assert xs[..|xs| - 1][..i] == xs[..i];
  }

  /** Event `m` seals a termination into `packet` while the observer is active. */
  predicate Seals(s: Sys, xs: seq<Event>, packet: nat, m: nat)
    requires m < |xs|
  {
    && xs[m].Hook? && xs[m].action.CcmSet? && xs[m].action.out == packet
    && IsTermination(xs[m].action.plain) && StateAt(s, xs, m).active
  }

  /** Event `i` neither seals nor transmits a packet, nor changes the connection. */
  predicate Leaves(s: Sys, xs: seq<Event>, i: nat)
    requires i < |xs|
  {
    xs[i].Hook? ==>
      xs[i].action.StatusReset? || (xs[i].action.IsrSet? && xs[i].action.isr.Address() == StateAt(s, xs, i).param)
  }

  /** A termination was sealed into `packet`, and that is still the last sealed packet of the same
      connection, not yet handed to the radio. */
  ghost predicate Sealed(s: Sys, xs: seq<Event>, packet: nat) {
    exists m: nat :: m < |xs| && Seals(s, xs, packet, m) && forall i :: m < i < |xs| ==> Leaves(s, xs, i)
  }

  lemma SealedFront(s: Sys, xs: seq<Event>, packet: nat, m: nat)
    requires m < |xs| - 1
    ensures var front := xs[..|xs| - 1];
      && Seals(s, front, packet, m) == Seals(s, xs, packet, m)
      && Leaves(s, front, m) == Leaves(s, xs, m)
  {
    StateAtFront(s, xs, m);
  }

  lemma SealedStep(s: Sys, xs: seq<Event>, packet: nat)
    requires xs != []
    ensures var n := |xs| - 1;
      Sealed(s, xs, packet) <==> Seals(s, xs, packet, n) || (Leaves(s, xs, n) && Sealed(s, xs[..n], packet))
  {
    var n := |xs| - 1;
    forall m: nat | m < n
      ensures Seals(s, xs[..n], packet, m) == Seals(s, xs, packet, m) && Leaves(s, xs[..n], m) == Leaves(s, xs, m)
    {
      SealedFront(s, xs, packet, m);
    }
  }

  /** The kept pointer and flag say exactly which packet is sealed, if it is not NULL. */
  lemma {:induction false} SealIsKept(table: seq<H.Radio>, xs: seq<Event>, packet: nat)
    requires packet != 0
    ensures var t := Run(Sys(IDLE, table), xs).0.t;
      t.packet == packet && t.term <==> Sealed(Sys(IDLE, table), xs, packet)
    decreases |xs|
  {
    var s := Sys(IDLE, table);
    if xs == [] {
      assert !Sealed(s, xs, packet);
    } else {
      SealIsKept(table, xs[..|xs| - 1], packet);
      SealedStep(s, xs, packet);
      assert StateAt(s, xs, |xs| - 1) == Run(s, xs[..|xs| - 1]).0.t;
    }
  }

  ghost predicate MakesSetup(s: Sys, xs: seq<Event>, packet: nat, pdu: Pdu, end: bool, now: nat) {
    SetupCall(Run(s, xs).0.t.handle, now) in Next(Run(s, xs).0, Hook(PktSet(packet, pdu, end, now))).1
  }

  ghost predicate SetupIffSealed(table: seq<H.Radio>, packet: nat) {
    forall xs: seq<Event>, pdu, end, now ::
      var s := Sys(IDLE, table);
      var t := Run(s, xs).0.t;
      MakesSetup(s, xs, packet, pdu, end, now)
      <==> t.active && if t.encrypted then Sealed(s, xs, packet) else IsTermination(pdu)
  }

  /** A packet is a setup exactly if the observer is active and the packet is, in the clear, a
      termination, or under encryption the last sealed one: no stale, consumed or foreign pointer
      passes. This needs the packet not to be NULL, which is also the mark of no sealed packet,
      whatever the counters were at the start. */
  lemma SetupsAreSealed(table: seq<H.Radio>, packet: nat)
    ensures SetupIffSealed(table, packet) <==> packet != 0 || table == []
  {
    if packet != 0 || table == [] {
      forall xs: seq<Event>, pdu, end, now
        ensures var s := Sys(IDLE, table);
          var t := Run(s, xs).0.t;
          MakesSetup(s, xs, packet, pdu, end, now)
          <==> t.active && if t.encrypted then Sealed(s, xs, packet) else IsTermination(pdu)
      {
        if packet != 0 {
          SealIsKept(table, xs, packet);
        } else {
          NeverActive(xs);
        }
      }
    } else {
      NullReplays(table);
    }
  }

  /** Without an entry for any handle, nothing is observed. */
  lemma {:induction false} NeverActive(xs: seq<Event>)
    ensures var s := Run(Sys(IDLE, []), xs).0; s.table == [] && !s.t.active
    decreases |xs|
  {
    if xs != [] {
      NeverActive(xs[..|xs| - 1]);
    }
  }

  lemma RunAppend(s: Sys, xs: seq<Event>, x: Event)
    ensures Run(s, xs + [x]).0 == Next(Run(s, xs).0, x).0
  {
    assert (xs + [x])[..|xs|] == xs;
  }

  const TERMINATION := Pdu(true, 2, true)

  /** Arm handle 0 and enter its connection. */
  function Entry(encrypted: bool): seq<Event> {
    [Arming(0), Hook(IsrSet(ConnRx(Lll(1, 0, true, encrypted)), false, 0))]
  }

  lemma EntryState(table: seq<H.Radio>, encrypted: bool)
    requires table != []
    ensures Run(Sys(IDLE, table), Entry(encrypted)).0.t == State(1, 0, true, encrypted, false, 0, false)
  {
    var s, xs := Sys(IDLE, table), Entry(encrypted);
    assert xs[..1] == [] + [xs[0]] && xs == xs[..1] + [xs[1]];
    RunAppend(s, [], xs[0]);
    assert Armed(Run(s, xs[..1]).0.table, 0);
    RunAppend(s, xs[..1], xs[1]);
  }

  /** Seal a termination into packet 7, then transmit it. */
  function Replay(): seq<Event> {
    Entry(true) + [Hook(CcmSet(TERMINATION, 7)), Hook(PktSet(7, TERMINATION, false, 0))]
  }

  lemma ReplayState(table: seq<H.Radio>)
    requires table != []
    ensures Run(Sys(IDLE, table), Replay()).0.t == State(1, 0, true, true, true, 0, true)
  {
    var s, xs := Sys(IDLE, table), Replay();
    assert xs[..2] == Entry(true) && xs[..3] == xs[..2] + [xs[2]] && xs == xs[..3] + [xs[3]];
    EntryState(table, true);
    RunAppend(s, xs[..2], xs[2]);
    RunAppend(s, xs[..3], xs[3]);
  }

  /** Handing the radio NULL after a sealed termination was transmitted. */
  lemma NullReplays(table: seq<H.Radio>)
    requires table != []
    ensures !SetupIffSealed(table, 0)
  {
    var s, xs := Sys(IDLE, table), Replay();
    ReplayState(table);
    SealedStep(s, xs, 0);
    assert !Seals(s, xs, 0, 3) && !Leaves(s, xs, 3);
    assert MakesSetup(s, xs, 0, TERMINATION, false, 0);
  }

  /** A termination in the clear is transmitted, and the handle is armed again before it is resolved:
      the case in which setups and results do not balance. */
  lemma ArmingWhilePending(table: seq<H.Radio>)
    requires table != []
    ensures var before := Entry(false) + [Hook(PktSet(7, TERMINATION, false, 0))];
      FixedHandles(address => 0, before) && PendingOn(Run(Sys(IDLE, table), before).0.t, 0)
  {
    EntryState(table, false);
    RunAppend(Sys(IDLE, table), Entry(false), Hook(PktSet(7, TERMINATION, false, 0)));
  }
}
