/** The serial framing of diagnostic lines and the two decoders that undo it.

    `Encode` and `Decoder` follow `frame` and `Deframer` of tools/read_diag_dump.py;
    `OpenDecoder` follows the second, unbounded decoder `frames` of
    tools/totem_battery_windows.py. */
module Framing {

  type byte = x: int | 0 <= x < 0x100

  const SOF: byte := 0xAB
  const ESC: byte := 0xAC
  const EOF: byte := 0xAD

  /** A decoder gives up on a partial payload that grows past this many bytes. */
  const LIMIT := 512

  predicate Special(b: byte) { b == SOF || b == ESC || b == EOF }

  function Stuff(p: seq<byte>): seq<byte> {
    if p == [] then []
    else (if Special(p[0]) then [ESC, p[0]] else [p[0]]) + Stuff(p[1..])
  }

  function Encode(p: seq<byte>): seq<byte> { [SOF] + Stuff(p) + [EOF] }

  function EncodeAll(ps: seq<seq<byte>>): seq<byte> {
    if ps == [] then [] else Encode(ps[0]) + EncodeAll(ps[1..])
  }

  lemma {:induction false} StuffAppend(p: seq<byte>, q: seq<byte>)
    ensures Stuff(p + q) == Stuff(p) + Stuff(q)
  {
    if p == [] {
      assert p + q == q;
    } else {
      assert (p + q)[1..] == p[1..] + q;
      StuffAppend(p[1..], q);
    }
  }

  /** The sender's loop: one SOF, the stuffed payload, one EOF. */
  method Frame(payload: seq<byte>) returns (result: seq<byte>)
    ensures result == Encode(payload)
  {
    result := [SOF];
    for i := 0 to |payload|
      invariant result == [SOF] + Stuff(payload[..i])
    {
      StuffAppend(payload[..i], [payload[i]]);
      assert payload[..i + 1] == payload[..i] + [payload[i]];
      if Special(payload[i]) {
        result := result + [ESC];
      }
      result := result + [payload[i]];
    }
    assert payload[..|payload|] == payload;
    result := result + [EOF];
  }

  // ----- the bounded decoder -----

  datatype Decoder = Decoder(active: bool, escaped: bool, payload: seq<byte>)

  const IDLE := Decoder(false, false, [])

  /** What one byte does inside a frame, before the length limit is applied. */
  function InFrame(d: Decoder, b: byte): (Decoder, seq<seq<byte>>) {
    if d.escaped then (d.(payload := d.payload + [b], escaped := false), [])
    else if b == ESC then (d.(escaped := true), [])
    else if b == SOF then (d.(payload := []), [])
    else if b == EOF then (Decoder(false, d.escaped, []), [d.payload])
    else (d.(payload := d.payload + [b]), [])
  }

  function Step(d: Decoder, b: byte): (Decoder, seq<seq<byte>>) {
    if !d.active then
      (if b == SOF then Decoder(true, d.escaped, []) else d, [])
    else
      var (d', out) := InFrame(d, b);
      (if |d'.payload| > LIMIT then IDLE else d', out)
  }

  /** All bytes of a stream in turn: the decoder afterwards and the payloads completed on the way. */
  function Run(d: Decoder, bs: seq<byte>): (Decoder, seq<seq<byte>>)
    decreases bs
  {
    if bs == [] then (d, [])
    else
      var (d1, out1) := Step(d, bs[0]);
      var (d2, out2) := Run(d1, bs[1..]);
      (d2, out1 + out2)
  }

  /** Feeding `a` and then `b` is feeding `a + b`. */
  lemma {:induction false} RunAppend(d: Decoder, a: seq<byte>, b: seq<byte>)
    ensures var (d1, out1) := Run(d, a);
            var (d2, out2) := Run(d1, b);
            Run(d, a + b) == (d2, out1 + out2)
    decreases a
  {
    if a == [] {
      assert a + b == b;
      assert [] + Run(d, b).1 == Run(d, b).1;
    } else {
      assert (a + b)[1..] == a[1..] + b;
      var (d1, out1) := Step(d, a[0]);
      RunAppend(d1, a[1..], b);
      assert out1 + Run(d1, a[1..]).1 + Run(Run(d1, a[1..]).0, b).1
          == out1 + (Run(d1, a[1..]).1 + Run(Run(d1, a[1..]).0, b).1);
    }
  }

  lemma RunOne(d: Decoder, b: byte)
    ensures Run(d, [b]) == Step(d, b)
  {
    assert [b][1..] == [];
    assert Run(Step(d, b).0, []) == (Step(d, b).0, []);
    assert Step(d, b).1 + [] == Step(d, b).1;
  }

  lemma RunEscaped(d: Decoder, b: byte)
    ensures Run(d, [ESC, b]) == (Step(Step(d, ESC).0, b).0, Step(d, ESC).1 + Step(Step(d, ESC).0, b).1)
  {
    assert [ESC, b][1..] == [b];
    RunOne(Step(d, ESC).0, b);
  }

  class Deframer {
    var active: bool
    var escaped: bool
    var payload: seq<byte>

    ghost function Abs(): Decoder
      reads this
    {
      Decoder(active, escaped, payload)
    }

    constructor ()
      ensures Abs() == IDLE
    {
      active, escaped, payload := false, false, [];
    }

    /** One received chunk; `out` is what the generator yields. */
    method Feed(chunk: seq<byte>) returns (out: seq<seq<byte>>)
      modifies this
      ensures (Abs(), out) == Run(old(Abs()), chunk)
    {
      out := [];
      for i := 0 to |chunk|
        invariant (Abs(), out) == Run(old(Abs()), chunk[..i])
      {
        ghost var before := Abs();
        var byte := chunk[i];
        assert chunk[..i + 1] == chunk[..i] + [byte];
        RunAppend(old(Abs()), chunk[..i], [byte]);
        RunOne(before, byte);
        assert out + [] == out;
        if !active {
          if byte == SOF {
            active, payload := true, [];
          }
          continue;
        }
        if escaped {
          payload, escaped := payload + [byte], false;
        } else if byte == ESC {
          escaped := true;
        } else if byte == SOF {
          payload := [];
        } else if byte == EOF {
          out := out + [payload];
          active, payload := false, [];
        } else {
          payload := payload + [byte];
        }
        if |payload| > LIMIT {
          active, escaped, payload := false, false, [];
        }
      }
      assert chunk[..|chunk|] == chunk;
    }
  }

  // ----- reachable decoders -----

  /** What holds of a decoder started idle, whatever bytes it has seen. */
  ghost predicate Sane(d: Decoder) {
    |d.payload| <= LIMIT && (!d.active ==> !d.escaped && d.payload == [])
  }

  lemma {:induction false} RunSane(d: Decoder, bs: seq<byte>)
    requires Sane(d)
    ensures Sane(Run(d, bs).0)
    ensures forall p :: p in Run(d, bs).1 ==> |p| <= LIMIT
    decreases bs
  {
    if bs != [] {
      RunSane(Step(d, bs[0]).0, bs[1..]);
    }
  }

  /** A stuffed payload moves a decoder that is not mid-escape to another such decoder,
      also when the limit strikes on the way. */
  lemma {:induction false} StuffKeepsBoundary(d: Decoder, p: seq<byte>)
    requires Sane(d) && !d.escaped
    ensures Sane(Run(d, Stuff(p)).0) && !Run(d, Stuff(p)).0.escaped
    decreases p
  {
    if p != [] {
      var head := if Special(p[0]) then [ESC, p[0]] else [p[0]];
      RunAppend(d, head, Stuff(p[1..]));
      RunOne(d, p[0]);
      RunEscaped(d, p[0]);
      StuffKeepsBoundary(Run(d, head).0, p[1..]);
    }
  }

  /** Self-synchronisation: one whole frame leaves any reachable decoder idle. */
  lemma {:induction false} FrameResynchronises(d: Decoder, p: seq<byte>)
    requires Sane(d)
    ensures Run(d, Encode(p)).0 == IDLE
  {
    RunAppend(d, [SOF] + Stuff(p), [EOF]);
    RunAppend(d, [SOF], Stuff(p));
    RunOne(d, SOF);
    var d1 := Step(d, SOF).0;
    StuffKeepsBoundary(d1, p);
    RunOne(Run(d1, Stuff(p)).0, EOF);
  }

  lemma ByteCollects(d: Decoder, b: byte)
    requires d.active && !d.escaped && |d.payload| < LIMIT
    ensures Run(d, if Special(b) then [ESC, b] else [b]) == (d.(payload := d.payload + [b]), [])
  {
    RunOne(d, b);
    RunEscaped(d, b);
  }

  lemma {:induction false} StuffCollects(d: Decoder, p: seq<byte>)
    requires d.active && !d.escaped && |d.payload| + |p| <= LIMIT
    ensures Run(d, Stuff(p)) == (d.(payload := d.payload + p), [])
    decreases p
  {
    if p == [] {
      assert d.payload + p == d.payload;
    } else {
      var head := if Special(p[0]) then [ESC, p[0]] else [p[0]];
      RunAppend(d, head, Stuff(p[1..]));
      ByteCollects(d, p[0]);
      var d' := d.(payload := d.payload + [p[0]]);
      StuffCollects(d', p[1..]);
      assert d.payload + [p[0]] + p[1..] == d.payload + p;
    }
  }

  /** An idle decoder gives a frame's payload back exactly when the payload fits the limit. */
  lemma {:induction false} FrameRoundTrip(p: seq<byte>)
    ensures Run(IDLE, Encode(p)) == (IDLE, [p]) <==> |p| <= LIMIT
  {
    if |p| <= LIMIT {
      RunAppend(IDLE, [SOF] + Stuff(p), [EOF]);
      RunAppend(IDLE, [SOF], Stuff(p));
      RunOne(IDLE, SOF);
      var d := Decoder(true, false, []);
      StuffCollects(d, p);
      assert d.payload + p == p;
      RunOne(d.(payload := p), EOF);
      assert [] + [] + [p] == [p];
    } else {
      RunSane(IDLE, Encode(p));
      assert p in [p];
    }
  }

  lemma {:induction false} FramesRoundTrip(ps: seq<seq<byte>>)
    requires forall p :: p in ps ==> |p| <= LIMIT
    ensures Run(IDLE, EncodeAll(ps)) == (IDLE, ps)
  {
    if ps != [] {
      FrameRoundTrip(ps[0]);
      RunAppend(IDLE, Encode(ps[0]), EncodeAll(ps[1..]));
      FramesRoundTrip(ps[1..]);
      assert [ps[0]] + ps[1..] == ps;
    }
  }

  /** After any noise at all, one frame may be spoilt but every later one is delivered. */
  lemma {:induction false} FramesAfterNoise(noise: seq<byte>, p: seq<byte>, ps: seq<seq<byte>>)
    requires forall q :: q in ps ==> |q| <= LIMIT
    ensures Run(IDLE, noise + Encode(p) + EncodeAll(ps))
         == (IDLE, Run(IDLE, noise + Encode(p)).1 + ps)
  {
    RunAppend(IDLE, noise + Encode(p), EncodeAll(ps));
    RunAppend(IDLE, noise, Encode(p));
    RunSane(IDLE, noise);
    FrameResynchronises(Run(IDLE, noise).0, p);
    FramesRoundTrip(ps);
  }

  /** Inside a stuffed payload the decoder either holds all of it behind what it had, or has lost the
      start of it. */
  lemma {:induction false} StuffLengths(d: Decoder, p: seq<byte>)
    requires Sane(d) && !d.escaped
    ensures var d1 := Run(d, Stuff(p)).0;
      d1.active ==> (d.active && |d1.payload| == |d.payload| + |p|) || |d1.payload| < |p|
    ensures Run(d, Stuff(p)).1 == [] && !Run(d, Stuff(p)).0.escaped
    decreases p
  {
    if p != [] {
      var head := if Special(p[0]) then [ESC, p[0]] else [p[0]];
      RunAppend(d, head, Stuff(p[1..]));
      RunOne(d, p[0]);
      RunEscaped(d, p[0]);
      StuffLengths(Run(d, head).0, p[1..]);
    }
  }

  /** A payload that fits the limit is delivered by its next whole frame, whatever the decoder was in
      the middle of, exactly if that was not an escape. */
  lemma FrameDeliveredIffNotEscaped(d: Decoder, p: seq<byte>)
    requires Sane(d) && |p| <= LIMIT
    ensures Run(d, Encode(p)) == (IDLE, [p]) <==> !d.escaped
  {
    var rest := Stuff(p) + [EOF];
    assert Encode(p) == [SOF] + rest;
    RunAppend(d, [SOF], rest);
    RunOne(d, SOF);
    var d1 := Step(d, SOF).0;
    RunAppend(d1, Stuff(p), [EOF]);
    StuffLengths(d1, p);
    var d2 := Run(d1, Stuff(p)).0;
    RunOne(d2, EOF);
    if !d.escaped {
      RunAppend(IDLE, [SOF], rest);
      RunOne(IDLE, SOF);
      assert Step(d, SOF) == Step(IDLE, SOF);
      FrameRoundTrip(p);
    } else {
      var out := Run(d, Encode(p)).1;
      assert out == Step(d2, EOF).1;
      if d2.active {
        assert |d2.payload| != |p|;
        assert out == [d2.payload] && out[0] != p;
      }
    }
  }

  function Flatten(chunks: seq<seq<byte>>): seq<byte> {
    if chunks == [] then [] else chunks[0] + Flatten(chunks[1..])
  }

  /** The reading loop: one `Feed` per chunk that the port returns. */
  method FeedChunks(d: Deframer, chunks: seq<seq<byte>>) returns (out: seq<seq<byte>>)
    modifies d
    ensures (d.Abs(), out) == Run(old(d.Abs()), Flatten(chunks))
  {
    out := [];
    for i := 0 to |chunks|
      invariant (d.Abs(), out) == Run(old(d.Abs()), Flatten(chunks[..i]))
    {
      FlattenAppend(chunks[..i], chunks[i]);
      assert chunks[..i + 1] == chunks[..i] + [chunks[i]];
      RunAppend(old(d.Abs()), Flatten(chunks[..i]), chunks[i]);
      var more := d.Feed(chunks[i]);
      out := out + more;
    }
    assert chunks[..|chunks|] == chunks;
  }

  lemma {:induction false} FlattenAppend(chunks: seq<seq<byte>>, last: seq<byte>)
    ensures Flatten(chunks + [last]) == Flatten(chunks) + last
  {
    if chunks == [] {
      assert chunks + [last] == [last] && [last][1..] == [];
    } else {
      assert (chunks + [last])[1..] == chunks[1..] + [last];
      FlattenAppend(chunks[1..], last);
    }
  }

  // ----- the second, unbounded decoder -----

  function OpenStep(d: Decoder, b: byte): (Decoder, seq<seq<byte>>) {
    if !d.active then
      (if b == SOF then Decoder(true, false, []) else d, [])
    else if d.escaped then (d.(payload := d.payload + [b], escaped := false), [])
    else if b == ESC then (d.(escaped := true), [])
    else if b == SOF then (d.(payload := []), [])
    else if b == EOF then (d.(active := false), [d.payload])
    else (d.(payload := d.payload + [b]), [])
  }

  function OpenRun(d: Decoder, bs: seq<byte>): (Decoder, seq<seq<byte>>)
    decreases bs
  {
    if bs == [] then (d, [])
    else
      var (d1, out1) := OpenStep(d, bs[0]);
      var (d2, out2) := OpenRun(d1, bs[1..]);
      (d2, out1 + out2)
  }

  lemma {:induction false} OpenRunAppend(d: Decoder, a: seq<byte>, b: seq<byte>)
    ensures var (d1, out1) := OpenRun(d, a);
            var (d2, out2) := OpenRun(d1, b);
            OpenRun(d, a + b) == (d2, out1 + out2)
    decreases a
  {
    if a == [] {
      assert a + b == b;
      assert [] + OpenRun(d, b).1 == OpenRun(d, b).1;
    } else {
      assert (a + b)[1..] == a[1..] + b;
      var (d1, out1) := OpenStep(d, a[0]);
      OpenRunAppend(d1, a[1..], b);
      assert out1 + OpenRun(d1, a[1..]).1 + OpenRun(OpenRun(d1, a[1..]).0, b).1
          == out1 + (OpenRun(d1, a[1..]).1 + OpenRun(OpenRun(d1, a[1..]).0, b).1);
    }
  }

  lemma OpenRunOne(d: Decoder, b: byte)
    ensures OpenRun(d, [b]) == OpenStep(d, b)
  {
    assert [b][1..] == [];
    assert OpenRun(OpenStep(d, b).0, []) == (OpenStep(d, b).0, []);
    assert OpenStep(d, b).1 + [] == OpenStep(d, b).1;
  }

  /** The state dictionary that `frames` carries from one read to the next. */
  class OpenDeframer {
    var active: bool
    var escaped: bool
    var payload: seq<byte>

    ghost function Abs(): Decoder
      reads this
    {
      Decoder(active, escaped, payload)
    }

    constructor ()
      ensures Abs() == IDLE
    {
      active, escaped, payload := false, false, [];
    }

    method Frames(data: seq<byte>) returns (out: seq<seq<byte>>)
      modifies this
      ensures (Abs(), out) == OpenRun(old(Abs()), data)
    {
      out := [];
      for i := 0 to |data|
        invariant (Abs(), out) == OpenRun(old(Abs()), data[..i])
      {
        ghost var before := Abs();
        var byte := data[i];
        assert data[..i + 1] == data[..i] + [byte];
        OpenRunAppend(old(Abs()), data[..i], [byte]);
        OpenRunOne(before, byte);
        assert out + [] == out;
        if !active {
          if byte == SOF {
            active, escaped, payload := true, false, [];
          }
          continue;
        }
        if escaped {
          payload, escaped := payload + [byte], false;
        } else if byte == ESC {
          escaped := true;
        } else if byte == SOF {
          payload := [];
        } else if byte == EOF {
          active := false;
          out := out + [payload];
        } else {
          payload := payload + [byte];
        }
      }
      assert data[..|data|] == data;
    }
  }

  /** The decoders agree on what matters: the mode, and the partial payload inside a frame. */
  ghost predicate Agree(d: Decoder, o: Decoder) {
    d.active == o.active && d.escaped == o.escaped && (d.active ==> d.payload == o.payload)
  }

  /** No partial payload of the unbounded decoder ever passes the limit on this stream. */
  ghost predicate WithinLimit(o: Decoder, bs: seq<byte>)
    decreases bs
  {
    (o.active ==> |o.payload| <= LIMIT) && (bs != [] ==> WithinLimit(OpenStep(o, bs[0]).0, bs[1..]))
  }

  ghost predicate InStep(d: Decoder, o: Decoder, bs: seq<byte>)
    decreases bs
  {
    && Agree(d, o)
    && (bs != [] ==>
      && Step(d, bs[0]).1 == OpenStep(o, bs[0]).1
      && InStep(Step(d, bs[0]).0, OpenStep(o, bs[0]).0, bs[1..]))
  }

  /** The two decoders move in step over a whole stream exactly when no partial payload
      passes the limit. */
  lemma {:induction false} DecodersAgree(d: Decoder, o: Decoder, bs: seq<byte>)
    requires Sane(d) && Agree(d, o)
    ensures InStep(d, o, bs) <==> WithinLimit(o, bs)
    decreases bs
  {
    if bs != [] {
      var d' := Step(d, bs[0]).0;
      var o' := OpenStep(o, bs[0]).0;
      if o'.active && |o'.payload| > LIMIT {
        assert !d'.active;
        assert !WithinLimit(o', bs[1..]);
      } else {
        DecodersAgree(d', o', bs[1..]);
      }
    }
  }

  lemma {:induction false} InStepSameOutput(d: Decoder, o: Decoder, bs: seq<byte>)
    requires InStep(d, o, bs)
    ensures Run(d, bs).1 == OpenRun(o, bs).1
    decreases bs
  {
    if bs != [] {
      InStepSameOutput(Step(d, bs[0]).0, OpenStep(o, bs[0]).0, bs[1..]);
    }
  }

  /** Both decoders, started fresh, return the same payloads on every stream within the limit. */
  lemma SamePayloadsWithinLimit(bs: seq<byte>)
    requires WithinLimit(IDLE, bs)
    ensures Run(IDLE, bs).1 == OpenRun(IDLE, bs).1
  {
    DecodersAgree(IDLE, IDLE, bs);
    InStepSameOutput(IDLE, IDLE, bs);
  }
}
