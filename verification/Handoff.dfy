/** The handoff observer's counters for one connection handle (src/handoff_diagnostics.c). */
module Handoff {
  import opened Common

  const COUNT_MAX := 0xFFFF

  /** add_count: the addition is done in 32 bits and the result saturates at 16. */
  function AddCount(value: nat, count: nat): nat { Min((value + count) % 0x1_0000_0000, COUNT_MAX) }

  datatype Mic = NoMic | MicPass | MicFail

  /** A finished connection event. `skipped` is what the controller skipped before it: a 16-bit
      count of late prepares plus a 16-bit latency. */
  datatype Done = Done(crcValid: bool, aborted: bool, trx: u16, mic: Mic, lazy: u16, latency: u16, mustExpire: bool)

  datatype Radio = Radio(
    armed: bool, rxKnown: bool, firstBad: bool, lastRx: nat,
    done: nat, bad: nat, aborted: nat, skipped: nat,
    rxPackets: nat, noRx: nat, invalidRx: nat, micPass: nat, micFail: nat,
    txSetups: nat, txCompleted: nat, txUncompleted: nat,
    firstTxSetup: nat, firstTxEnd: nat, lastTxEnd: nat)

  const CLEAR := Radio(false, false, false, 0, 0, 0, 0, 0, 0, 0, 0, 0, 0, 0, 0, 0, 0, 0, 0)

  function Bit(b: bool): nat { if b then 1 else 0 }

  predicate ValidRx(e: Done) { e.crcValid && !e.aborted }

  /** The locked part of __wrap_ull_conn_done; the flag asks for the first-bad record. */
  function ConnDone(r: Radio, e: Done, now: nat): (Radio, bool) {
    var r1 := if ValidRx(e) then r.(rxKnown := true, lastRx := now) else r;
    if !r.armed then (r1, false)
    else
      (r1.(done := AddCount(r.done, 1), bad := AddCount(r.bad, Bit(!ValidRx(e))),
           aborted := AddCount(r.aborted, Bit(e.aborted)), rxPackets := AddCount(r.rxPackets, e.trx),
           noRx := AddCount(r.noRx, Bit(!e.aborted && e.trx == 0)),
           invalidRx := AddCount(r.invalidRx, Bit(!e.aborted && e.trx != 0 && !e.crcValid)),
           micPass := AddCount(r.micPass, Bit(e.mic.MicPass?)), micFail := AddCount(r.micFail, Bit(e.mic.MicFail?)),
           skipped := AddCount(r.skipped, e.lazy + if e.mustExpire then 0 else e.latency),
           firstBad := r.firstBad || !ValidRx(e)),
       !ValidRx(e) && !r.firstBad)
  }

  /** Arming in __wrap_bt_conn_disconnect keeps only what is known of the last reception. */
  function Arm(r: Radio): Radio { CLEAR.(armed := true, rxKnown := r.rxKnown, lastRx := r.lastRx) }

  function TxSetup(r: Radio, now: nat): Radio {
    if !r.armed then r
    else r.(txSetups := AddCount(r.txSetups, 1), firstTxSetup := if r.txSetups == 0 then now else r.firstTxSetup)
  }

  function TxResult(r: Radio, completed: bool, now: nat): Radio {
    if !r.armed then r
    else if completed then
      r.(txCompleted := AddCount(r.txCompleted, 1), firstTxEnd := if r.txCompleted == 0 then now else r.firstTxEnd,
         lastTxEnd := now)
    else r.(txUncompleted := AddCount(r.txUncompleted, 1))
  }

  /** One captured record: its time, the summary stage and the two value bytes. `tx` tells the
      transmit summaries (event 39) from the radio summaries (event 35). */
  datatype Capture = Capture(time: nat, tx: bool, stage: nat, low: nat, high: nat)

  function Value(now: nat, tx: bool, stage: nat, value: nat): Capture {
    Capture(now, tx, stage, value % 0x100, value / 0x100)
  }

  function Stamp(now: nat, tx: bool, stage: nat, known: bool, time: nat): Capture {
    Capture(if known then time else now, tx, stage, 0, Bit(known))
  }

  /** The records of totem_handoff_disconnected, in order. */
  function Report(r: Radio, now: nat): seq<Capture> {
    if !r.armed then []
    else [
      Value(now, false, 0, r.done), Value(now, false, 1, r.bad), Value(now, false, 2, r.aborted),
      Value(now, false, 3, r.skipped), Value(now, false, 7, r.rxPackets), Value(now, false, 8, r.noRx),
      Value(now, false, 9, r.invalidRx), Value(now, false, 10, r.micPass), Value(now, false, 11, r.micFail),
      Stamp(now, false, 5, r.rxKnown, r.lastRx),
      Value(now, true, 0, r.txSetups), Value(now, true, 1, r.txCompleted), Value(now, true, 2, r.txUncompleted),
      Stamp(now, true, 3, r.txSetups != 0, r.firstTxSetup), Stamp(now, true, 4, r.txCompleted != 0, r.firstTxEnd),
      Stamp(now, true, 5, r.txCompleted != 0, r.lastTxEnd)]
  }

  /** What the stack answers about a connection. */
  datatype Link = Link(infoOk: bool, le: bool, peripheral: bool, connected: bool, handleOk: bool)

  /** The per-handle table; a handle past its end is not observed. */
  class Radios {
    const radios: array<Radio>

    constructor (handles: nat)
      ensures radios.Length == handles && fresh(radios) && forall h :: 0 <= h < handles ==> radios[h] == CLEAR
    {
      radios := new Radio[handles](_ => CLEAR);
    }

    method Armed(handle: nat) returns (armed: bool)
      ensures armed <==> handle < radios.Length && radios[handle].armed
    {
      if handle >= radios.Length {
        return false;
      }
      return radios[handle].armed;
    }

    method OnTxSetup(handle: nat, now: nat)
      modifies radios
      ensures radios[..] == if handle < radios.Length then old(radios[..])[handle := TxSetup(old(radios[handle]), now)]
                            else old(radios[..])
    {
      if handle >= radios.Length {
        return;
      }
      var radio := radios[handle];
      if radio.armed {
        if radio.txSetups == 0 {
          radio := radio.(firstTxSetup := now);
        }
        radio := radio.(txSetups := AddCount(radio.txSetups, 1));
      }
      radios[handle] := radio;
    }

    method OnTxResult(handle: nat, completed: bool, now: nat)
      modifies radios
      ensures radios[..] == if handle < radios.Length
                            then old(radios[..])[handle := TxResult(old(radios[handle]), completed, now)]
                            else old(radios[..])
    {
      if handle >= radios.Length {
        return;
      }
      var radio := radios[handle];
      if radio.armed {
        if completed {
          if radio.txCompleted == 0 {
            radio := radio.(firstTxEnd := now);
          }
          radio := radio.(lastTxEnd := now, txCompleted := AddCount(radio.txCompleted, 1));
        } else {
          radio := radio.(txUncompleted := AddCount(radio.txUncompleted, 1));
        }
      }
      radios[handle] := radio;
    }

    method OnConnected(handle: nat)
      modifies radios
      ensures radios[..] == if handle < radios.Length then old(radios[..])[handle := CLEAR] else old(radios[..])
    {
      if handle >= radios.Length {
        return;
      }
      radios[handle] := CLEAR;
    }

    method OnDisconnected(handle: nat, now: nat) returns (records: seq<Capture>)
      modifies radios
      ensures radios[..] == if handle < radios.Length then old(radios[..])[handle := CLEAR] else old(radios[..])
      ensures records == if handle < radios.Length then Report(old(radios[handle]), now) else []
    {
      if handle >= radios.Length {
        return [];
      }
      var radio := radios[handle];
      radios[handle] := CLEAR;
      records := Report(radio, now);
    }

    /** The arming in __wrap_bt_conn_disconnect, before the real disconnect is requested: for a
        connected peripheral link to a host other than the selected one, with no USB power. */
    method OnDisconnectRequest(link: Link, handle: nat, usb: bool, profile: int, active: int)
      returns (handoff: bool)
      modifies radios
      ensures handoff <==>
                && link.infoOk && link.le && link.peripheral && link.connected && !usb
                && 0 <= profile && profile != active && link.handleOk && handle < radios.Length
      ensures radios[..] == if handoff then old(radios[..])[handle := Arm(old(radios[handle]))] else old(radios[..])
    {
      handoff := false;
      if link.infoOk && link.le && link.peripheral && link.connected && !usb {
        handoff := profile >= 0 && profile != active && link.handleOk && handle < radios.Length;
      }
      if handoff {
        var previous := radios[handle];
        radios[handle] := CLEAR.(armed := true, rxKnown := previous.rxKnown, lastRx := previous.lastRx);
      }
    }

    /** The disarming when the request returned an error. */
    method OnRequestFailed(handle: nat)
      requires handle < radios.Length
      modifies radios
      ensures radios[..] == old(radios[..])[handle := old(radios[handle]).(armed := false)]
    {
      radios[handle] := radios[handle].(armed := false);
    }

    method OnConnDone(handle: nat, peripheral: bool, e: Done, now: nat) returns (firstBad: bool)
      modifies radios
      ensures handle < radios.Length && peripheral ==>
                (radios[handle], firstBad) == ConnDone(old(radios[handle]), e, now)
                && radios[..] == old(radios[..])[handle := radios[handle]]
      ensures !(handle < radios.Length && peripheral) ==> !firstBad && radios[..] == old(radios[..])
    {
      firstBad := false;
      if handle < radios.Length && peripheral {
        var valid := e.crcValid && !e.aborted;
        var radio := radios[handle];
        if valid {
          radio := radio.(rxKnown := true, lastRx := now);
        }
        if radio.armed {
          radio := radio.(
            done := AddCount(radio.done, 1),
            bad := AddCount(radio.bad, Bit(!valid)),
            aborted := AddCount(radio.aborted, Bit(e.aborted)),
            rxPackets := AddCount(radio.rxPackets, e.trx),
            noRx := AddCount(radio.noRx, Bit(!e.aborted && e.trx == 0)),
            invalidRx := AddCount(radio.invalidRx, Bit(!e.aborted && e.trx != 0 && !e.crcValid)),
            micPass := AddCount(radio.micPass, Bit(e.mic.MicPass?)),
            micFail := AddCount(radio.micFail, Bit(e.mic.MicFail?)),
            skipped := AddCount(radio.skipped, e.lazy + if e.mustExpire then 0 else e.latency));
          firstBad := !valid && !radio.firstBad;
          radio := radio.(firstBad := radio.firstBad || !valid);
        }
        radios[handle] := radio;
      }
    }
  }

  // ----- true counts -----

  /** Everything one handle can be told between its arming and its end. */
  datatype Observation = Finished(e: Done, now: nat) | Setup(now: nat) | Result(completed: bool, now: nat)

  function Apply(r: Radio, o: Observation): (Radio, bool) {
    match o
    case Finished(e, now) => ConnDone(r, e, now)
    case Setup(now) => (TxSetup(r, now), false)
    case Result(completed, now) => (TxResult(r, completed, now), false)
  }

  predicate IsReception(o: Observation) { o.Finished? && ValidRx(o.e) }
  predicate IsBad(o: Observation) { o.Finished? && !ValidRx(o.e) }
  predicate IsSetup(o: Observation) { o.Setup? }
  predicate IsCompletion(o: Observation) { o.Result? && o.completed }

  datatype Kind =
    | Events | Bad | Aborted | Skipped | Packets | NoRx | InvalidRx | MicPassed | MicFailed
    | Setups | Completed | Uncompleted

  /** What each counter is meant to count of one observation. */
  function CountOf(k: Kind, o: Observation): nat {
    match k
    case Events => Bit(o.Finished?)
    case Bad => Bit(IsBad(o))
    case Aborted => Bit(o.Finished? && o.e.aborted)
    case Skipped => if o.Finished? then if o.e.mustExpire then o.e.lazy else o.e.lazy + o.e.latency else 0
    case Packets => if o.Finished? then o.e.trx else 0
    case NoRx => Bit(o.Finished? && !o.e.aborted && o.e.trx == 0)
    case InvalidRx => Bit(o.Finished? && !o.e.aborted && o.e.trx > 0 && !o.e.crcValid)
    case MicPassed => Bit(o.Finished? && o.e.mic.MicPass?)
    case MicFailed => Bit(o.Finished? && o.e.mic.MicFail?)
    case Setups => Bit(IsSetup(o))
    case Completed => Bit(IsCompletion(o))
    case Uncompleted => Bit(o.Result? && !o.completed)
  }

  function Counter(k: Kind, r: Radio): nat {
    match k
    case Events => r.done
    case Bad => r.bad
    case Aborted => r.aborted
    case Skipped => r.skipped
    case Packets => r.rxPackets
    case NoRx => r.noRx
    case InvalidRx => r.invalidRx
    case MicPassed => r.micPass
    case MicFailed => r.micFail
    case Setups => r.txSetups
    case Completed => r.txCompleted
    case Uncompleted => r.txUncompleted
  }

  function Total(k: Kind, log: seq<Observation>): nat {
    if log == [] then 0 else Total(k, log[..|log| - 1]) + CountOf(k, log[|log| - 1])
  }

  function Capped(n: nat): nat { Min(n, COUNT_MAX) }

  /** One step of a counter that has been saturating. */
  lemma AddCapped(n: nat, count: nat)
    requires count < 0x1_0000_0000 - COUNT_MAX
    ensures AddCount(Capped(n), count) == Capped(n + count)
  {
    assert Capped(n) + count < 0x1_0000_0000;
  }

  /** The state after some observations, and which of them asked for a first-bad record. */
  function ObserveAll(r: Radio, log: seq<Observation>): (Radio, seq<Observation>) {
    if log == [] then (r, [])
    else
      var (r1, out) := ObserveAll(r, log[..|log| - 1]);
      var last := log[|log| - 1];
      var (r2, first) := Apply(r1, last);
      (r2, if first then out + [last] else out)
  }

  lemma {:induction false} StaysArmed(before: Radio, log: seq<Observation>)
    ensures ObserveAll(Arm(before), log).0.armed
    decreases |log|
  {
    if log != [] {
      StaysArmed(before, log[..|log| - 1]);
    }
  }

  lemma EventCounterStep(k: Kind, r: Radio, o: Observation)
    requires r.armed && Counter(k, r) <= COUNT_MAX && !k.Setups? && !k.Completed? && !k.Uncompleted?
    ensures Counter(k, Apply(r, o).0) == AddCount(Counter(k, r), CountOf(k, o)) && CountOf(k, o) <= 2 * COUNT_MAX
  {
    match o
    case Finished(e, now) =>
    case _ =>
  }

  lemma CounterStep(k: Kind, r: Radio, o: Observation)
    requires r.armed && Counter(k, r) <= COUNT_MAX
    ensures Counter(k, Apply(r, o).0) == AddCount(Counter(k, r), CountOf(k, o)) && CountOf(k, o) <= 2 * COUNT_MAX
  {
    match k {
      case Setups => case Completed => case Uncompleted =>
      case _ => EventCounterStep(k, r, o);
    }
  }

  /** After any observations since an arming, each counter is the true count, capped at 65535. */
  lemma {:induction false} CountersAreTrue(k: Kind, before: Radio, log: seq<Observation>)
    ensures Counter(k, ObserveAll(Arm(before), log).0) == Capped(Total(k, log))
    decreases |log|
  {
    if log != [] {
      var front, o := log[..|log| - 1], log[|log| - 1];
      CountersAreTrue(k, before, front);
      StaysArmed(before, front);
      CounterStep(k, ObserveAll(Arm(before), front).0, o);
      AddCapped(Total(k, front), CountOf(k, o));
    }
  }

  /** Between a connection, or the end or failure of a handoff, and the next arming nothing is counted,
      asked for or reported. */
  lemma {:induction false} UnarmedIsSilent(r: Radio, log: seq<Observation>, now: nat)
    requires !r.armed
    ensures var (r1, records) := ObserveAll(r, log);
      !r1.armed && records == [] && Report(r1, now) == [] && forall k: Kind :: Counter(k, r1) == Counter(k, r)
    decreases |log|
  {
    if log != [] {
      UnarmedIsSilent(r, log[..|log| - 1], now);
    }
  }

  /** A new connection starts with nothing armed, counted or known; a failed request stops the counting. */
  lemma ConnectionStartsClear(r: Radio)
    ensures !CLEAR.armed && !CLEAR.rxKnown && !CLEAR.firstBad && forall k: Kind :: Counter(k, CLEAR) == 0
    ensures !r.(armed := false).armed
  {
    forall k: Kind ensures Counter(k, CLEAR) == 0 {
      match k {
        case _ =>
      }
    }
  }

  /** The bad events divide into aborted, silent and invalid ones exactly when no event reported a
      valid checksum without a received packet. */
  lemma {:induction false} BadEventsDivide(log: seq<Observation>)
    ensures Total(Bad, log)
            <= Total(Aborted, log) + Total(NoRx, log) + Total(InvalidRx, log)
    ensures Total(Bad, log)
            == Total(Aborted, log) + Total(NoRx, log) + Total(InvalidRx, log)
            <==> forall i :: 0 <= i < |log| && log[i].Finished? && ValidRx(log[i].e) ==> log[i].e.trx > 0
    decreases |log|
  {
    if log != [] {
      var front := log[..|log| - 1];
      BadEventsDivide(front);
      assert forall i :: 0 <= i < |front| ==> front[i] == log[i];
    }
  }

  lemma FirstBadStep(r: Radio, o: Observation)
    requires r.armed
    ensures var (r1, first) := Apply(r, o);
      r1.armed && r1.firstBad == (r.firstBad || IsBad(o)) && first == (IsBad(o) && !r.firstBad)
  {
  }

  /** Exactly one first-bad record per arming, for the first bad event, if there was one. */
  lemma {:induction false} FirstBadOnce(before: Radio, log: seq<Observation>)
    ensures var (r, records) := ObserveAll(Arm(before), log);
      && r.armed && (r.firstBad <==> exists i :: 0 <= i < |log| && IsBad(log[i]))
      && (!r.firstBad ==> records == [])
      && (r.firstBad ==> exists i :: 0 <= i < |log| && IsBad(log[i]) && records == [log[i]]
                           && forall k :: 0 <= k < i ==> !IsBad(log[k]))
    decreases |log|
  {
    if log != [] {
      var front := log[..|log| - 1];
      FirstBadOnce(before, front);
      FirstBadStep(ObserveAll(Arm(before), front).0, log[|log| - 1]);
      var (r, records) := ObserveAll(Arm(before), front);
      if r.firstBad {
        var i :| 0 <= i < |front| && IsBad(front[i]) && records == [front[i]]
                 && forall k :: 0 <= k < i ==> !IsBad(front[k]);
        assert log[i] == front[i] && forall k :: 0 <= k < i ==> log[k] == front[k];
      } else {
        forall k | 0 <= k < |front| ensures !IsBad(log[k]) {
          assert log[k] == front[k] && !IsBad(front[k]);
        }
      }
    }
  }

  // ----- true times -----

  function FirstTime(p: Observation -> bool, log: seq<Observation>): Option<nat> {
    if log == [] then None
    else
      var t := FirstTime(p, log[..|log| - 1]);
      if t.Some? then t else if p(log[|log| - 1]) then Some(log[|log| - 1].now) else None
  }

  function LastTime(p: Observation -> bool, log: seq<Observation>): Option<nat> {
    if log == [] then None
    else if p(log[|log| - 1]) then Some(log[|log| - 1].now)
    else LastTime(p, log[..|log| - 1])
  }

  function Known(known: bool, time: nat): Option<nat> { if known then Some(time) else None }

  /** What is known of the last reception before some observations, and after them. */
  function LastReception(before: Radio, log: seq<Observation>): Option<nat> {
    var t := LastTime(IsReception, log);
    if t.Some? then t else Known(before.rxKnown, before.lastRx)
  }

  lemma TimesStep(r: Radio, o: Observation)
    requires r.armed && r.txSetups <= COUNT_MAX && r.txCompleted <= COUNT_MAX
    ensures var r1 := Apply(r, o).0;
      && r1.armed
      && Known(r1.rxKnown, r1.lastRx) == (if IsReception(o) then Some(o.now) else Known(r.rxKnown, r.lastRx))
      && Known(r1.txSetups != 0, r1.firstTxSetup)
         == (if IsSetup(o) && r.txSetups == 0 then Some(o.now) else Known(r.txSetups != 0, r.firstTxSetup))
      && Known(r1.txCompleted != 0, r1.firstTxEnd)
         == (if IsCompletion(o) && r.txCompleted == 0 then Some(o.now) else Known(r.txCompleted != 0, r.firstTxEnd))
      && Known(r1.txCompleted != 0, r1.lastTxEnd)
         == (if IsCompletion(o) then Some(o.now) else Known(r.txCompleted != 0, r.lastTxEnd))
  {
  }

  /** The kept times are those of the first and last transmissions, and of the last good reception,
      which an arming carries over. */
  lemma {:induction false} TimesAreTrue(before: Radio, log: seq<Observation>)
    ensures var r := ObserveAll(Arm(before), log).0;
      && r.armed
      && Known(r.rxKnown, r.lastRx) == LastReception(before, log)
      && Known(r.txSetups != 0, r.firstTxSetup) == FirstTime(IsSetup, log)
      && Known(r.txCompleted != 0, r.firstTxEnd) == FirstTime(IsCompletion, log)
      && Known(r.txCompleted != 0, r.lastTxEnd) == LastTime(IsCompletion, log)
    decreases |log|
  {
    if log != [] {
      var front := log[..|log| - 1];
      TimesAreTrue(before, front);
      StaysArmed(before, front);
      CountersAreTrue(Setups, before, front);
      CountersAreTrue(Completed, before, front);
      TimesStep(ObserveAll(Arm(before), front).0, log[|log| - 1]);
    }
  }

  // ----- the disconnect report -----

  function ValueOf(x: Capture): nat { x.low + 0x100 * x.high }

  /** A record of a transmit (`tx`) or radio summary stage that carries `value` in two bytes. */
  predicate Carries(x: Capture, tx: bool, stage: nat, value: nat) {
    x.tx == tx && x.stage == stage && x.low < 0x100 && x.high < 0x100 && ValueOf(x) == value
  }

  /** A record that carries a time, and in its value whether the time is known. */
  predicate CarriesTime(x: Capture, tx: bool, stage: nat, time: Option<nat>) {
    && x.tx == tx && x.stage == stage && x.low == 0 && x.high == Bit(time.Some?)
    && (time.Some? ==> x.time == time.value)
  }

  /** Where the report carries each counter, and the stage it is labelled with. */
  function Position(k: Kind): nat {
    match k
    case Events => 0 case Bad => 1 case Aborted => 2 case Skipped => 3 case Packets => 4 case NoRx => 5
    case InvalidRx => 6 case MicPassed => 7 case MicFailed => 8
    case Setups => 10 case Completed => 11 case Uncompleted => 12
  }

  function StageOf(k: Kind): nat {
    var n := Position(k);
    if n <= 3 then n else if n <= 8 then n + 3 else n - 10
  }

  /** The disconnect report of an armed handle equals the true counts since the arming ... */
  lemma ReportCarriesCounts(k: Kind, before: Radio, log: seq<Observation>, now: nat)
    ensures var report := Report(ObserveAll(Arm(before), log).0, now);
      && |report| == 16
      && Carries(report[Position(k)], Position(k) >= 10, StageOf(k), Capped(Total(k, log)))
  {
    var r := ObserveAll(Arm(before), log).0;
    StaysArmed(before, log);
    CountersAreTrue(k, before, log);
    ReportPlaces(k, r, now);
  }

  lemma ReportPlaces(k: Kind, r: Radio, now: nat)
    requires r.armed
    ensures |Report(r, now)| == 16
    ensures Report(r, now)[Position(k)] == Value(now, Position(k) >= 10, StageOf(k), Counter(k, r))
  {
  }

  /** ... and the true times. */
  lemma ReportCarriesTimes(before: Radio, log: seq<Observation>, now: nat)
    ensures var report := Report(ObserveAll(Arm(before), log).0, now);
      && |report| == 16
      && CarriesTime(report[9], false, 5, LastReception(before, log))
      && CarriesTime(report[13], true, 3, FirstTime(IsSetup, log))
      && CarriesTime(report[14], true, 4, FirstTime(IsCompletion, log))
      && CarriesTime(report[15], true, 5, LastTime(IsCompletion, log))
  {
    TimesAreTrue(before, log);
  }
}
