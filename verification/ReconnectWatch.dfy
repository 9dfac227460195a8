/** The recovery ladder that runs while the selected host stays away (src/reconnect_watch.c).
    Each method is one handler or listener, uninterrupted; the environment answers every question
    that it asks. */
module ReconnectWatch {
  import opened Common

  datatype Rung = None_ | Readvertise | Evict | Verify

  /** Seconds between the steps and the first delay after a switch, from the options. */
  datatype Config = Config(step: nat, boost: nat, boostOn: bool, onActiveDown: bool)

  predicate ValidConfig(c: Config) { 4 <= c.step <= 30 }

  /** reconnect_watch_first_delay_sec. */
  function FirstDelay(c: Config): nat { if c.boostOn && c.boost > c.step then c.boost else c.step }

  /** The answers to one handler's questions. */
  datatype Env = Env(usb: bool, suppressed: bool, open: bool, up: bool, scanned: bool, index: int)

  /** `timer` is the uptime in ms at which the delayed work is due, and `queued` whether its timer
      has expired and the handler is to run. */
  datatype Watch = Watch(next: Rung, light: bool, index: int, timer: Option<nat>, queued: bool)

  predicate Pending(w: Watch) { w.timer.Some? || w.queued }

  /** k_work_cancel_delayable takes the work from the timer and from the queue. */
  function Reset(w: Watch): Watch { w.(next := None_, light := false, timer := None, queued := false) }

  /** k_work_schedule leaves pending work alone. */
  function Schedule(w: Watch, now: nat, delay: nat): Watch {
    if Pending(w) then w else w.(timer := Some(now + 1000 * delay))
  }

  /** k_work_reschedule replaces the timer; work that is queued already stays queued. */
  function Reschedule(w: Watch, now: nat, delay: nat): Watch { w.(timer := Some(now + 1000 * delay)) }

  /** reconnect_watch_work_handler, run from the queue. */
  function Fire(c: Config, w: Watch, now: nat, v: Env): Watch {
    var w0 := w.(queued := false);
    if v.usb || v.suppressed || v.open || v.up || v.scanned then Reset(w0)
    else match w.next
      case Readvertise => Schedule(w0.(next := Evict), now, c.step)
      case Evict => Schedule(w0.(next := Verify), now, c.step)
      case Verify => Reset(w0)
      case None_ => Reset(w0)
  }

  /** reconnect_watch_arm_full. */
  function ArmFull(c: Config, w: Watch, now: nat, v: Env): Watch {
    if v.usb || v.suppressed || v.open || v.up then Reset(w)
    else Reschedule(w.(light := false, next := Readvertise), now, FirstDelay(c))
  }

  /** reconnect_watch_arm_light. */
  function ArmLight(c: Config, w: Watch, now: nat, v: Env): Watch {
    if v.usb then w
    else if v.open || v.up then Reset(w)
    else if v.suppressed then w
    else if w.next != None_ then w
    else Reschedule(w.(light := true, next := Readvertise), now, c.step)
  }

  /** active_down_arm_work_handler. */
  function ActiveDown(c: Config, w: Watch, now: nat, v: Env): Watch {
    if !c.onActiveDown || v.open || v.suppressed || v.up || w.next != None_ then w
    else ArmLight(c, w, now, v)
  }

  /** reconnect_watch_profile_changed. */
  function ProfileChanged(c: Config, w: Watch, now: nat, v: Env): Watch {
    if v.index == w.index then w else ArmFull(c, w.(index := v.index), now, v)
  }

  function Connected(w: Watch, failed: bool, v: Env): Watch { if !failed && v.up then Reset(w) else w }

  function SecurityChanged(w: Watch, encrypted: bool, v: Env): Watch { if encrypted && v.up then Reset(w) else w }

  class Ladder {
    const c: Config
    var next: Rung
    var light: bool
    var index: int
    var timer: Option<nat>
    var queued: bool
    /** Connection references taken and not yet given back, in the order taken. */
    ghost var refs: seq<nat>

    ghost function Abs(): Watch
      reads this
    {
      Watch(next, light, index, timer, queued)
    }

    constructor (c: Config, index: int)
      ensures this.c == c && Abs() == Watch(None_, false, index, None, false) && refs == []
    {
      this.c := c;
      next, light, this.index, timer, queued, refs := None_, false, index, None, false, [];
    }

    method DoReset()
      modifies this
      ensures Abs() == Reset(old(Abs())) && refs == old(refs)
    {
      next, light, timer, queued := None_, false, None, false;
    }

    method Submit(now: nat, delay: nat)
      modifies this`timer
      ensures Abs() == Schedule(old(Abs()), now, delay)
    {
      if timer.None? && !queued {
        timer := Some(now + 1000 * delay);
      }
    }

    /** reconnect_watch_work_handler: whatever it finds, it gives back every connection
        reference that its scan took. */
    method WorkHandler(now: nat, usb: bool, suppressed: bool, open: bool, up: bool, conns: seq<Conn>, active: int)
      modifies this
      ensures Abs() == Fire(c, old(Abs()), now,
                            Env(usb, suppressed, open, up, ActiveMatch(conns, active).Some?, active))
      ensures refs == old(refs)
    {
      queued := false;
      if usb || suppressed {
        DoReset();
        return;
      }
      if open {
        DoReset();
        return;
      }
      if up {
        DoReset();
        return;
      }
      var scan := ScanHosts(conns, active);
      if scan.activeMatch.Some? {
        DoReset();
        Release(scan, old(refs));
        return;
      }
      match next {
        case Readvertise =>
          next := Evict;
          Submit(now, c.step);
        case Evict =>
          next := Verify;
          Submit(now, c.step);
        case Verify =>
          DoReset();
        case None_ =>
          DoReset();
      }
      Release(scan, old(refs));
    }

    /** bt_conn_foreach(scan_host_conns): the first connected host and the first one that is the
        active profile's, each with a reference. */
    method ScanHosts(conns: seq<Conn>, active: int) returns (scan: Scan)
      modifies this`refs
      ensures scan.activeMatch == ActiveMatch(conns, active)
      ensures match scan.activeMatch
              case Some(id) =>
                exists i: nat :: FirstMatch(conns, active, i) && conns[i].id == id
              case None =>
                forall i :: 0 <= i < |conns| && conns[i].profile == active ==>
                  !conns[i].infoOk || !conns[i].peripheral || !conns[i].connected
      ensures scan.anyHost.Some? <==> scan.hosts > 0
      ensures scan.hosts == HostCount(conns) == |Linked(conns)|
      ensures refs == old(refs) + RefsOf(scan)
    {
      scan := Scan(None, None, 0);
      for i := 0 to |conns|
        invariant scan.activeMatch == ActiveMatch(conns[..i], active)
        invariant scan.hosts == HostCount(conns[..i]) && (scan.anyHost.Some? <==> scan.hosts > 0)
        invariant scan.activeMatch.Some? ==> scan.anyHost.Some?
        invariant refs == old(refs) + RefsOf(scan)
      {
        assert conns[..i + 1][..i] == conns[..i];
        var conn := conns[i];
        if !conn.infoOk || !conn.peripheral {
          continue;
        }
        if !conn.connected {
          continue;
        }
        scan := scan.(hosts := scan.hosts + 1);
        if scan.anyHost.None? {
          refs := refs + [conn.id];
          scan := scan.(anyHost := Some(conn.id));
        }
        if conn.profile == active && scan.activeMatch.None? {
          refs := refs + [conn.id];
          scan := scan.(activeMatch := Some(conn.id));
        }
      }
      assert conns[..|conns|] == conns;
      ActiveMatchIsFirst(conns, active);
      HostCountIsLinked(conns);
    }

    /** host_conn_scan_release. */
    method Release(scan: Scan, ghost before: seq<nat>)
      requires refs == before + RefsOf(scan)
      modifies this`refs
      ensures refs == before
    {
      if scan.activeMatch.Some? {
        refs := refs[..|refs| - 1];
      }
      if scan.anyHost.Some? {
        refs := refs[..|refs| - 1];
      }
      assert refs == before;
    }

    method DoArmFull(now: nat, v: Env)
      modifies this
      ensures Abs() == ArmFull(c, old(Abs()), now, v) && refs == old(refs)
    {
      if v.usb || v.suppressed {
        DoReset();
        return;
      }
      if v.open || v.up {
        DoReset();
        return;
      }
      light, next := false, Readvertise;
      timer := Some(now + 1000 * FirstDelay(c));
    }

    method DoArmLight(now: nat, v: Env)
      modifies this
      ensures Abs() == ArmLight(c, old(Abs()), now, v) && refs == old(refs)
    {
      if v.usb {
        return;
      }
      if v.open || v.up {
        DoReset();
        return;
      }
      if v.suppressed {
        return;
      }
      if next != None_ {
        return;
      }
      light, next := true, Readvertise;
      timer := Some(now + 1000 * c.step);
    }

    method DoActiveDown(now: nat, v: Env)
      modifies this
      ensures Abs() == ActiveDown(c, old(Abs()), now, v) && refs == old(refs)
    {
      if !c.onActiveDown || v.open || v.suppressed || v.up || next != None_ {
        return;
      }
      DoArmLight(now, v);
    }

    method OnProfileChanged(now: nat, v: Env)
      modifies this
      ensures Abs() == ProfileChanged(c, old(Abs()), now, v) && refs == old(refs)
    {
      if v.index == index {
        return;
      }
      index := v.index;
      DoArmFull(now, v);
    }

    /** The settings commit and the start-up take the profile index without arming anything. */
    method OnSettingsCommit(active: int)
      modifies this`index
      ensures Abs() == old(Abs()).(index := active)
    {
      index := active;
    }

    method OnConnected(failed: bool, v: Env)
      modifies this
      ensures Abs() == Connected(old(Abs()), failed, v) && refs == old(refs)
    {
      if failed {
        return;
      }
      if v.up {
        DoReset();
      }
    }

    method OnSecurityChanged(encrypted: bool, v: Env)
      modifies this
      ensures Abs() == SecurityChanged(old(Abs()), encrypted, v) && refs == old(refs)
    {
      if encrypted && v.up {
        DoReset();
      }
    }
  }

  // ----- the connection table -----

  datatype Conn = Conn(id: nat, infoOk: bool, peripheral: bool, connected: bool, profile: int)

  datatype Scan = Scan(activeMatch: Option<nat>, anyHost: Option<nat>, hosts: nat)

  predicate IsHost(conn: Conn) { conn.infoOk && conn.peripheral && conn.connected }

  /** The first connected host that belongs to the active profile. */
  function ActiveMatch(conns: seq<Conn>, active: int): Option<nat> {
    if conns == [] then None
    else
      var earlier := ActiveMatch(conns[..|conns| - 1], active);
      var conn := conns[|conns| - 1];
      if earlier.Some? then earlier
      else if IsHost(conn) && conn.profile == active then Some(conn.id) else None
  }

  function HostCount(conns: seq<Conn>): nat {
    if conns == [] then 0 else HostCount(conns[..|conns| - 1]) + if IsHost(conns[|conns| - 1]) then 1 else 0
  }

  /** The i-th connection is the first connected host of the active profile. */
  predicate FirstMatch(conns: seq<Conn>, active: int, i: nat) {
    && i < |conns| && conns[i].infoOk && conns[i].peripheral && conns[i].connected && conns[i].profile == active
    && forall k :: 0 <= k < i && conns[k].profile == active ==>
         !conns[k].infoOk || !conns[k].peripheral || !conns[k].connected
  }

  lemma {:induction false} ActiveMatchIsFirst(conns: seq<Conn>, active: int)
    ensures match ActiveMatch(conns, active)
            case Some(id) => exists i: nat :: FirstMatch(conns, active, i) && conns[i].id == id
            case None =>
              forall i :: 0 <= i < |conns| && conns[i].profile == active ==>
                !conns[i].infoOk || !conns[i].peripheral || !conns[i].connected
    decreases |conns|
  {
    if conns != [] {
      var front := conns[..|conns| - 1];
      ActiveMatchIsFirst(front, active);
      assert forall i :: 0 <= i < |front| ==> front[i] == conns[i];
      match ActiveMatch(front, active) {
        case Some(id) =>
          var i: nat :| FirstMatch(front, active, i) && front[i].id == id;
          assert FirstMatch(conns, active, i);
        case None =>
          if ActiveMatch(conns, active).Some? {
            assert FirstMatch(conns, active, |conns| - 1);
          }
      }
    }
  }

  /** The indices of the connected hosts. */
  function Linked(conns: seq<Conn>): set<nat> {
    set i: nat | i < |conns| && conns[i].infoOk && conns[i].peripheral && conns[i].connected
  }

  lemma {:induction false} HostCountIsLinked(conns: seq<Conn>)
    ensures HostCount(conns) == |Linked(conns)|
    decreases |conns|
  {
    if conns != [] {
      var n := |conns| - 1;
      HostCountIsLinked(conns[..n]);
      assert Linked(conns) == Linked(conns[..n]) + if IsHost(conns[n]) then {n} else {};
    }
  }

  function RefsOf(scan: Scan): seq<nat> {
    (if scan.anyHost.Some? then [scan.anyHost.value] else [])
    + if scan.activeMatch.Some? then [scan.activeMatch.value] else []
  }
}
