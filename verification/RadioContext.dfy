/** Which packets are counted as transmitted terminations (src/handoff_radio_tx.c), said in terms of
    what the controller did alone: the connection whose handlers are set, what it was when they were
    set, and the packets sealed and handed to the radio since. */
module RadioContext {
  import opened Common
  import opened RadioTx
  import H = Handoff

  predicate Enters(x: Event, lll: Lll) {
    x.Hook? && x.action.IsrSet? && !x.action.isr.Private? && x.action.isr.lll == lll
  }

  predicate EntersAny(x: Event) { x.Hook? && x.action.IsrSet? && !x.action.isr.Private? }

  /** Any handler set by this event belongs to this address. */
  predicate StaysAt(x: Event, address: nat) { x.Hook? && x.action.IsrSet? ==> x.action.isr.Address() == address }

  /** The handlers of connection `lll` were last set at m, and only its own private ones since. */
  ghost predicate InContext(xs: seq<Event>, m: nat, lll: Lll) {
    && m < |xs| && Enters(xs[m], lll)
    && forall i :: m < i < |xs| && xs[i].Hook? && xs[i].action.IsrSet? ==> xs[i].action.isr == Private(lll.address)
  }

  /** The connection is a peripheral whose counters were armed when its handlers were set. */
  ghost predicate Watched(table: seq<H.Radio>, xs: seq<Event>, m: nat, lll: Lll) {
    InContext(xs, m, lll) && lll.peripheral && Armed(Run(Sys(IDLE, table), xs[..m]).0.table, lll.handle)
  }

  ghost predicate Observing(table: seq<H.Radio>, xs: seq<Event>) { exists m: nat, lll :: Watched(table, xs, m, lll) }

  lemma CallKeepsArmed(table: seq<H.Radio>, c: Call, h: nat)
    ensures Armed(ApplyCall(table, c), h) == Armed(table, h)
  {
  }

  lemma {:induction false} CallsKeepArmed(table: seq<H.Radio>, calls: seq<Call>, h: nat)
    ensures Armed(ApplyCalls(table, calls), h) == Armed(table, h)
    decreases |calls|
  {
    if calls != [] {
      CallsKeepArmed(table, calls[..|calls| - 1], h);
      CallKeepsArmed(ApplyCalls(table, calls[..|calls| - 1]), calls[|calls| - 1], h);
    }
  }

  lemma InContextFront(xs: seq<Event>, m: nat, lll: Lll)
    requires m < |xs| - 1
    ensures InContext(xs, m, lll) <==>
              InContext(xs[..|xs| - 1], m, lll)
              && (xs[|xs| - 1].Hook? && xs[|xs| - 1].action.IsrSet? ==> xs[|xs| - 1].action.isr == Private(lll.address))
  {
    assert forall i :: 0 <= i < |xs| - 1 ==> xs[..|xs| - 1][i] == xs[i];
  }

  /** The observer's context is that of the history. */
  ghost predicate ContextTrue(table: seq<H.Radio>, xs: seq<Event>, t: State) {
    && (forall m: nat, lll :: InContext(xs, m, lll) ==>
          t.param == lll.address && t.handle == lll.handle && t.encrypted == lll.encrypted
          && (t.active <==> Watched(table, xs, m, lll)))
    && (t.active ==> exists m: nat, lll :: InContext(xs, m, lll))
  }

  lemma EnterStep(table: seq<H.Radio>, xs: seq<Event>, lll: Lll)
    requires xs != [] && Enters(xs[|xs| - 1], lll)
    ensures ContextTrue(table, xs, Run(Sys(IDLE, table), xs).0.t)
  {
    var n := |xs| - 1;
    var s := Run(Sys(IDLE, table), xs[..n]).0;
    var calls := Next(s, xs[n]).1;
    CallsKeepArmed(s.table, calls, lll.handle);
    assert InContext(xs, n, lll);
    forall m: nat, l | InContext(xs, m, l) ensures m == n && l == lll {
    }
  }

  /** What an event that enters no connection does to the context. */
  lemma OtherKeeps(s: Sys, x: Event)
    requires !EntersAny(x)
    ensures var t := Next(s, x).0.t;
      && t.handle == s.t.handle && t.encrypted == s.t.encrypted
      && if StaysAt(x, s.t.param) then t.param == s.t.param && t.active == s.t.active
         else t.param == 0 && !t.active
  {
  }

  lemma OtherContext(table: seq<H.Radio>, xs: seq<Event>, m: nat, lll: Lll)
    requires xs != [] && !EntersAny(xs[|xs| - 1])
    ensures InContext(xs, m, lll) <==> InContext(xs[..|xs| - 1], m, lll) && StaysAt(xs[|xs| - 1], lll.address)
    ensures m < |xs| - 1 ==> xs[..m] == xs[..|xs| - 1][..m]
  {
    var n := |xs| - 1;
    if m < n {
      InContextFront(xs, m, lll);
    }
  }

  lemma OtherStep(table: seq<H.Radio>, xs: seq<Event>)
    requires xs != [] && !EntersAny(xs[|xs| - 1])
    requires ContextTrue(table, xs[..|xs| - 1], Run(Sys(IDLE, table), xs[..|xs| - 1]).0.t)
    ensures ContextTrue(table, xs, Run(Sys(IDLE, table), xs).0.t)
  {
    var front, x := xs[..|xs| - 1], xs[|xs| - 1];
    var s := Run(Sys(IDLE, table), front).0;
    OtherKeeps(s, x);
    forall m: nat, lll
      ensures InContext(xs, m, lll) <==> InContext(front, m, lll) && StaysAt(x, lll.address)
      ensures InContext(xs, m, lll) ==> (Watched(table, xs, m, lll) <==> Watched(table, front, m, lll))
    {
      OtherContext(table, xs, m, lll);
    }
    if Next(s, x).0.t.active {
      var m: nat, lll :| InContext(front, m, lll);
      assert InContext(xs, m, lll);
    }
  }

  lemma {:induction false} ContextIsLast(table: seq<H.Radio>, xs: seq<Event>)
    ensures ContextTrue(table, xs, Run(Sys(IDLE, table), xs).0.t)
    decreases |xs|
  {
    if xs != [] {
      ContextIsLast(table, xs[..|xs| - 1]);
      if EntersAny(xs[|xs| - 1]) {
        EnterStep(table, xs, xs[|xs| - 1].action.isr.lll);
      } else {
        OtherStep(table, xs);
      }
    }
  }

  /** The observer is active exactly while the handlers in place are those of a connection that was an
      armed peripheral when they were set. */
  lemma ActiveIffWatched(table: seq<H.Radio>, xs: seq<Event>)
    ensures Run(Sys(IDLE, table), xs).0.t.active <==> Observing(table, xs)
  {
    ContextIsLast(table, xs);
    var t := Run(Sys(IDLE, table), xs).0.t;
    if t.active {
      var m: nat, lll :| InContext(xs, m, lll);
      assert Watched(table, xs, m, lll);
    }
  }

  // ----- ciphertext -----

  /** At m a termination was sealed into `packet` for connection `lll`, whose handlers were set at k;
      since then nothing was sealed or handed to the radio, and only its own handlers were set. */
  ghost predicate SealedFor(table: seq<H.Radio>, xs: seq<Event>, packet: nat, k: nat, lll: Lll, m: nat) {
    && m < |xs| && xs[m].Hook? && xs[m].action.CcmSet? && xs[m].action.out == packet
    && IsTermination(xs[m].action.plain) && Watched(table, xs[..m], k, lll)
    && forall i :: m < i < |xs| && xs[i].Hook? ==>
         !xs[i].action.CcmSet? && !xs[i].action.PktSet? && StaysAt(xs[i], lll.address)
  }

  ghost predicate SealedInHistory(table: seq<H.Radio>, xs: seq<Event>, packet: nat) {
    exists k: nat, lll, m: nat :: SealedFor(table, xs, packet, k, lll, m)
  }

  /** While only handlers of one address are set, the observer stays there. */
  lemma {:induction false} ParamStays(s: Sys, xs: seq<Event>, m: nat, n: nat, address: nat)
    requires m <= n <= |xs| && StateAt(s, xs, m).param == address
    requires forall i :: m <= i < n ==> StaysAt(xs[i], address)
    ensures StateAt(s, xs, n).param == address
    decreases n - m
  {
    if m < n {
      ParamStays(s, xs, m, n - 1, address);
      assert xs[..n][..n - 1] == xs[..n - 1];
      assert StaysAt(xs[n - 1], address);
    }
  }

  lemma SealedIsInHistory(table: seq<H.Radio>, xs: seq<Event>, packet: nat)
    ensures Sealed(Sys(IDLE, table), xs, packet) <==> SealedInHistory(table, xs, packet)
  {
    var s := Sys(IDLE, table);
    if m: nat :| m < |xs| && Seals(s, xs, packet, m) && forall i :: m < i < |xs| ==> Leaves(s, xs, i) {
      SealSeen(table, xs, packet, m);
    }
    if k: nat, lll, m: nat :| SealedFor(table, xs, packet, k, lll, m) {
      SeenSealed(table, xs, packet, k, lll, m);
    }
  }

  lemma SealSeen(table: seq<H.Radio>, xs: seq<Event>, packet: nat, m: nat)
    requires m < |xs| && Seals(Sys(IDLE, table), xs, packet, m)
    requires forall i :: m < i < |xs| ==> Leaves(Sys(IDLE, table), xs, i)
    ensures SealedInHistory(table, xs, packet)
  {
    var s := Sys(IDLE, table);
    ActiveIffWatched(table, xs[..m]);
    ContextIsLast(table, xs[..m]);
    var k: nat, lll :| Watched(table, xs[..m], k, lll);
    LeavingStays(s, xs, m, |xs|, lll.address);
    forall i | m < i < |xs| && xs[i].Hook?
      ensures !xs[i].action.CcmSet? && !xs[i].action.PktSet? && StaysAt(xs[i], lll.address)
    {
      assert Leaves(s, xs, i);
    }
    assert SealedFor(table, xs, packet, k, lll, m);
  }

  lemma SeenSealed(table: seq<H.Radio>, xs: seq<Event>, packet: nat, k: nat, lll: Lll, m: nat)
    requires SealedFor(table, xs, packet, k, lll, m)
    ensures Sealed(Sys(IDLE, table), xs, packet)
  {
    var s := Sys(IDLE, table);
    ActiveIffWatched(table, xs[..m]);
    ContextIsLast(table, xs[..m]);
    assert Seals(s, xs, packet, m);
    forall i | m < i < |xs| ensures Leaves(s, xs, i) {
      ParamStays(s, xs, m, i, lll.address);
    }
  }

  lemma {:induction false} LeavingStays(s: Sys, xs: seq<Event>, m: nat, n: nat, address: nat)
    requires m < n <= |xs| && StateAt(s, xs, m).param == address && xs[m].Hook? && xs[m].action.CcmSet?
    requires forall i :: m < i < |xs| ==> Leaves(s, xs, i)
    ensures forall i :: m <= i < n ==> StaysAt(xs[i], address)
    decreases n
  {
    if n > m + 1 {
      LeavingStays(s, xs, m, n - 1, address);
      ParamStays(s, xs, m, n - 1, address);
      assert Leaves(s, xs, n - 1);
    }
  }

  /** A packet that is not NULL is counted as a termination exactly if the handlers in place are those
      of a connection that was an armed peripheral when they were set, and the packet is, on a link in
      the clear, a termination, or on an encrypted one the last packet sealed for it, a termination that
      was not handed to the radio before. */
  lemma SetupIffTermination(table: seq<H.Radio>, xs: seq<Event>, packet: nat, pdu: Pdu, end: bool, now: nat)
    requires packet != 0
    ensures MakesSetup(Sys(IDLE, table), xs, packet, pdu, end, now) <==>
              exists m: nat, lll :: Watched(table, xs, m, lll)
                && if lll.encrypted then SealedInHistory(table, xs, packet) else IsTermination(pdu)
  {
    ContextIsLast(table, xs);
    ActiveIffWatched(table, xs);
    SealIsKept(table, xs, packet);
    SealedIsInHistory(table, xs, packet);
  }
}
