/** A dump on its way as one piece: what the firmware sends, boot and fault lines included, framed
    and read in any chunks, and the reading program's verdict (src/host_event_log.c and
    tools/read_diag_dump.py). */
module DumpReception {
  import opened Common
  import opened JournalModel
  import opened DumpStream
  import opened DumpEndToEnd
  import DumpText
  import HostEventLog
  import F = Framing
  import V = DumpVerifier
  import J = DumpJudgement

  /** A boot or fault line: printable, within its buffer, and not a line of the dump protocol. */
  predicate Foreign(line: string) {
    DumpText.Plain(line) && 6 < |line| < LINE_SIZE && line[6] != 'd'
  }

  ghost predicate AllForeign(lines: seq<string>) { forall i :: 0 <= i < |lines| ==> Foreign(lines[i]) }

  ghost predicate AllPlain(lines: seq<string>) { forall i :: 0 <= i < |lines| ==> DumpText.Plain(lines[i]) }

  /** The frames of some lines, as the link puts them on the wire. */
  function Wire(lines: seq<string>): seq<F.byte>
    requires AllPlain(lines)
  {
    F.EncodeAll(Payloads(lines))
  }

  function Payloads(lines: seq<string>): (ps: seq<seq<F.byte>>)
    requires AllPlain(lines)
  {
    seq(|lines|, i requires 0 <= i < |lines| => Payload(lines[i]))
  }

  /** The boot and fault lines as foreign frames, then the dump's lines from..upto. */
  function FramesOf(d: V.Dump, pre: seq<string>, from: nat, upto: nat): seq<Frame>
    requires AllPlain(pre) && from <= upto
    decreases |pre| + upto - from
  {
    if pre != [] then [Other(Payload(pre[0]))] + FramesOf(d, pre[1..], from, upto)
    else if from < upto then [Mine(from)] + FramesOf(d, [], from + 1, upto)
    else []
  }

  lemma {:induction false} MineFrames(d: V.Dump, pre: seq<string>, from: nat, upto: nat, k: nat)
    requires AllPlain(pre) && from <= upto
    ensures Mine(k) in FramesOf(d, pre, from, upto) <==> from <= k < upto
    decreases |pre| + upto - from
  {
    if pre != [] {
      MineFrames(d, pre[1..], from, upto, k);
    } else if from < upto {
      MineFrames(d, [], from + 1, upto, k);
    }
  }

  /** A foreign line says nothing about any dump. */
  lemma ForeignUnrelated(line: string, id: nat, decode: seq<F.byte> -> string)
    requires Foreign(line) && KeepsPlain(decode)
    ensures TextOf(Payload(line), decode) == Some(line) && V.Unrelated(id, V.Read(line))
    ensures |Payload(line)| <= F.LIMIT
  {
    assert Payload(line)[1..] == BytesOf(line);
    DumpText.OtherSubsystem(line);
  }

  lemma {:induction false} FramesArrive(d: V.Dump, pre: seq<string>, from: nat, upto: nat,
                                        decode: seq<F.byte> -> string)
    requires AllForeign(pre) && from <= upto <= V.Size(d) && KeepsPlain(decode)
    ensures Arriving(d, from, FramesOf(d, pre, from, upto), decode)
    decreases |pre| + upto - from
  {
    if pre != [] {
      ForeignUnrelated(pre[0], d.id, decode);
      FramesArrive(d, pre[1..], from, upto, decode);
    } else if from < upto {
      FramesArrive(d, [], from + 1, upto, decode);
    }
  }

  /** The frames are those of the lines. */
  lemma {:induction false} FramesAreLines(d: V.Dump, pre: seq<string>, from: nat, upto: nat)
    requires LinesPrintable(d) && AllPlain(pre) && from <= upto <= V.Size(d)
    ensures AllPlain(pre + AllLines(d)[from..upto])
    ensures FramePayloads(d, FramesOf(d, pre, from, upto)) == Payloads(pre + AllLines(d)[from..upto])
    decreases |pre| + upto - from
  {
    var fs, lines := FramesOf(d, pre, from, upto), pre + AllLines(d)[from..upto];
    if pre != [] {
      FramesAreLines(d, pre[1..], from, upto);
      assert lines[1..] == pre[1..] + AllLines(d)[from..upto];
      PayloadsHead(d, fs, lines);
    } else if from < upto {
      FramesAreLines(d, [], from + 1, upto);
      assert lines[0] == V.Line(d, from) && lines[1..] == [] + AllLines(d)[from + 1..upto];
      PayloadsHead(d, fs, lines);
    } else {
      assert lines == [];
    }
  }

  lemma PayloadsHead(d: V.Dump, fs: seq<Frame>, lines: seq<string>)
    requires LinesPrintable(d) && fs != [] && lines != [] && DumpText.Plain(lines[0]) && AllPlain(lines[1..])
    requires FramePayload(d, fs[0]) == Payload(lines[0]) && FramePayloads(d, fs[1..]) == Payloads(lines[1..])
    ensures AllPlain(lines) && FramePayloads(d, fs) == Payloads(lines)
  {
    forall i | 0 <= i < |lines| ensures DumpText.Plain(lines[i]) {
      if i > 0 {
        assert lines[i] == lines[1..][i - 1];
      }
    }
    assert Payloads(lines) == [Payload(lines[0])] + Payloads(lines[1..]);
  }

  /** What a dump sends, whole or cut short by the link. */
  function Sent(s: Snapshot, id: u32, pre: seq<string>, done: nat): seq<string>
    requires Printable(s) && done <= |pre| + V.Size(DumpOf(s, id))
  {
    (pre + AllLines(DumpOf(s, id)))[..done]
  }

  /** For any chunks in which the port returns the framed lines: the program accepts if and only if
      the whole dump was sent. */
  lemma AcceptedIffAllSent(s: Snapshot, id: u32, pre: seq<string>, done: nat, decode: seq<F.byte> -> string)
    requires Printable(s) && AllForeign(pre) && KeepsPlain(decode) && done <= |pre| + V.Size(DumpOf(s, id))
    ensures AllPlain(Sent(s, id, pre, done))
    ensures forall chunks :: F.Flatten(chunks) == Wire(Sent(s, id, pre, done)) ==>
      (AcceptsStream(V.FRESH, F.Run(F.IDLE, F.Flatten(chunks)).1, decode) <==> done == |pre| + V.Size(DumpOf(s, id)))
  {
    DumpWellFormed(s, id);
    var d := DumpOf(s, id);
    var begun := pre[..Min(done, |pre|)];
    var upto := Max(done - |pre|, 0);
    var fs := FramesOf(d, begun, 0, upto);
    assert begun + AllLines(d)[0..upto] == Sent(s, id, pre, done);
    FramesAreLines(d, begun, 0, upto);
    FramesArrive(d, begun, 0, upto, decode);
    forall k: nat ensures Mine(k) in fs <==> k < upto {
      MineFrames(d, begun, 0, upto, k);
    }
    forall chunks | F.Flatten(chunks) == Wire(Sent(s, id, pre, done))
      ensures AcceptsStream(V.FRESH, F.Run(F.IDLE, F.Flatten(chunks)).1, decode) <==> done == |pre| + V.Size(d)
    {
      HostAcceptsIffWhole(d, fs, chunks, decode);
      assert upto < V.Size(d) ==> Mine(upto) !in fs;
    }
  }

  /** The firmware's dump on a fresh link, and the program on the other side of a port that may
      return the bytes in any chunks: it accepts if and only if every send succeeded. */
  method DumpAndRead(log: HostEventLog.Log, tmp: array<Event>, link: Link, id: u32, pre: seq<string>,
                     activity: seq<Activity>, chunksOf: seq<F.byte> -> seq<seq<F.byte>>, decode: seq<F.byte> -> string)
    returns (done: nat, accepted: bool)
    requires log.Valid() && tmp.Length == log.c.cap && tmp != log.ring && link.sent == []
    requires Printable(SnapshotOf(Meanwhile(log.c, log.Abs(), activity))) && AllForeign(pre) && KeepsPlain(decode)
    requires forall bytes :: F.Flatten(chunksOf(bytes)) == bytes
    modifies tmp, link, log, log.ring, log.restored, log.restoredValid
    ensures accepted <==>
              done == |pre| + V.Size(DumpOf(SnapshotOf(Meanwhile(log.c, old(log.Abs()), activity)), id))
    ensures !accepted ==> link.Failed()
  {
    ghost var s := SnapshotOf(Meanwhile(log.c, log.Abs(), activity));
    done := Dump(log, tmp, link, id, pre, activity);
    AcceptedIffAllSent(s, id, pre, done, decode);
    assert link.sent == Sent(s, id, pre, done);
    var chunks := chunksOf(Wire(link.sent));
    accepted := ReadPort(chunks, decode);
  }

  // ----- one dump after another -----

  /** The text of the lines' payloads is the lines. */
  lemma {:induction false} TextsOfLines(lines: seq<string>, decode: seq<F.byte> -> string)
    requires AllPlain(lines) && KeepsPlain(decode)
    ensures Texts(Payloads(lines), decode) == lines
    decreases |lines|
  {
    if lines != [] {
      TextsOfLines(lines[1..], decode);
      assert Payloads(lines)[1..] == Payloads(lines[1..]);
      assert Payload(lines[0])[1..] == BytesOf(lines[0]);
      assert [lines[0]] + lines[1..] == lines;
    }
  }

  lemma {:induction false} ReadAllAt(lines: seq<string>)
    ensures |V.ReadAll(lines)| == |lines|
    ensures forall i :: 0 <= i < |lines| ==> V.ReadAll(lines)[i] == V.Read(lines[i])
    decreases |lines|
  {
    if lines != [] {
      ReadAllAt(lines[1..]);
    }
  }

  lemma {:induction false} ReadAllAppend(a: seq<string>, b: seq<string>)
    ensures V.ReadAll(a + b) == V.ReadAll(a) + V.ReadAll(b)
    decreases |a|
  {
    if a == [] {
      assert a + b == b;
    } else {
      assert (a + b)[1..] == a[1..] + b;
      ReadAllAppend(a[1..], b);
    }
  }

  lemma {:induction false} TextsAppend(a: seq<seq<F.byte>>, b: seq<seq<F.byte>>, decode: seq<F.byte> -> string)
    ensures Texts(a + b, decode) == Texts(a, decode) + Texts(b, decode)
    decreases |a|
  {
    if a == [] {
      assert a + b == b;
    } else {
      assert (a + b)[1..] == a[1..] + b;
      TextsAppend(a[1..], b, decode);
    }
  }

  /** Boot and fault lines, and the lines of a dump but for its last, are no end lines. */
  lemma CutHasNoEnd(s: Snapshot, id: u32, pre: seq<string>, done: nat)
    requires Printable(s) && AllForeign(pre) && done < |pre| + V.Size(DumpOf(s, id))
    ensures J.NoEnd(V.ReadAll(Sent(s, id, pre, done)))
  {
    var d, lines := DumpOf(s, id), Sent(s, id, pre, done);
    DumpWellFormed(s, id);
    ReadAllAt(lines);
    forall i | 0 <= i < |lines| ensures V.ReadAll(lines)[i].end.None? {
      if i < |pre| {
        DumpText.OtherSubsystem(pre[i]);
      } else {
        V.OwnLine(d, i - |pre|);
      }
    }
  }

  function Owns(from: nat, upto: nat): seq<V.Item>
    requires from <= upto
    decreases upto - from
  {
    if from == upto then [] else [V.Own(from)] + Owns(from + 1, upto)
  }

  lemma {:induction false} OwnsArrive(d: V.Dump, from: nat)
    requires from <= V.Size(d)
    ensures V.Arrival(d, from, Owns(from, V.Size(d)))
    decreases V.Size(d) - from
  {
    if from < V.Size(d) {
      OwnsArrive(d, from + 1);
      var rest := Owns(from + 1, V.Size(d));
      assert ([V.Own(from)] + rest)[1..] == rest;
    }
  }

  lemma {:induction false} OwnsHave(from: nat, upto: nat, k: nat)
    requires from <= k < upto
    ensures V.Own(k) in Owns(from, upto)
    decreases upto - from
  {
    if k > from {
      OwnsHave(from + 1, upto, k);
    }
  }

  /** Readings of the lines from..Size of a dump are what arrives when none is missing. */
  lemma {:induction false} OwnsReceived(d: V.Dump, rs: seq<V.Reading>, from: nat)
    requires from <= V.Size(d) && |rs| == V.Size(d) - from
    requires forall i :: 0 <= i < |rs| ==> rs[i] == V.OwnReading(d, from + i)
    ensures rs == V.Received(d, Owns(from, V.Size(d)))
    decreases |rs|
  {
    if from < V.Size(d) {
      OwnsReceived(d, rs[1..], from + 1);
      V.ReceivedTail(d, Owns(from, V.Size(d)));
      assert rs == [rs[0]] + rs[1..];
    }
  }

  lemma LinesReceived(d: V.Dump, lines: seq<string>, from: nat)
    requires V.WellFormed(d) && from <= V.Size(d) && |lines| == V.Size(d) - from
    requires forall i :: 0 <= i < |lines| ==> lines[i] == V.Line(d, from + i)
    ensures V.ReadAll(lines) == V.Received(d, Owns(from, V.Size(d)))
  {
    var rs := V.ReadAll(lines);
    assert |rs| == |lines| by { ReadAllAt(lines); }
    forall i | 0 <= i < |lines| ensures rs[i] == V.OwnReading(d, from + i) {
      LineReceived(d, lines, rs, from, i);
    }
    OwnsReceived(d, rs, from);
  }

  lemma LineReceived(d: V.Dump, lines: seq<string>, rs: seq<V.Reading>, from: nat, i: nat)
    requires V.WellFormed(d) && rs == V.ReadAll(lines) && i < |lines|
    requires from + i < V.Size(d) && lines[i] == V.Line(d, from + i)
    ensures |rs| == |lines|
    ensures rs[i] == V.OwnReading(d, from + i)
  {
    ReadAllAt(lines);
    V.OwnLine(d, from + i);
  }

  /** From any state, a whole dump is accepted. */
  lemma LinesAccepted(d: V.Dump, lines: seq<string>, v: V.State)
    requires V.WellFormed(d) && |lines| == V.Size(d) && forall i :: 0 <= i < |lines| ==> lines[i] == V.Line(d, i)
    ensures V.Accepts(v, V.ReadAll(lines))
  {
    LinesReceived(d, lines[1..], 1);
    OwnsArrive(d, 1);
    forall k | 1 <= k < V.Size(d) ensures V.Own(k) in Owns(1, V.Size(d)) {
      OwnsHave(1, V.Size(d), k);
    }
    V.OwnLine(d, 0);
    assert lines == [lines[0]] + lines[1..];
    ReadAllCons(lines[0], lines[1..]);
    J.AcceptedFromBegin(d, v, Owns(1, V.Size(d)));
  }

  /** From any state that has decided nothing: boot and fault lines and a whole dump are accepted. */
  lemma WholeAccepted(s: Snapshot, id: u32, pre: seq<string>, v: V.State)
    requires Printable(s) && AllForeign(pre) && !v.complete
    ensures V.Accepts(v, V.ReadAll(pre + AllLines(DumpOf(s, id))))
  {
    var d := DumpOf(s, id);
    DumpWellFormed(s, id);
    ReadAllAppend(pre, AllLines(d));
    assert Sent(s, id, pre, |pre|) == pre;
    CutHasNoEnd(s, id, pre, |pre|);
    J.NoEndUndecided(v, V.ReadAll(pre));
    J.AcceptsAppend(v, V.ReadAll(pre), V.ReadAll(AllLines(d)));
    LinesAccepted(d, AllLines(d), J.After(v, V.ReadAll(pre)));
  }

  /** The payloads that came before have not made the program stop. */
  ghost predicate Unfinished(earlier: seq<seq<F.byte>>, decode: seq<F.byte> -> string) {
    && (forall p :: p in earlier ==> |p| <= F.LIMIT)
    && J.Undecided(V.FRESH, V.ReadAll(Texts(earlier, decode)))
    && !J.After(V.FRESH, V.ReadAll(Texts(earlier, decode))).complete
  }

  /** A dump that the link cut off before its end line leaves the program waiting, as does anything
      else before it that did. */
  lemma CutDumpUnfinished(earlier: seq<seq<F.byte>>, s: Snapshot, id: u32, pre: seq<string>, done: nat,
                          decode: seq<F.byte> -> string)
    requires Printable(s) && AllForeign(pre) && KeepsPlain(decode) && done < |pre| + V.Size(DumpOf(s, id))
    requires Unfinished(earlier, decode)
    ensures AllPlain(Sent(s, id, pre, done)) && Unfinished(earlier + Payloads(Sent(s, id, pre, done)), decode)
  {
    var lines := Sent(s, id, pre, done);
    AcceptedIffAllSent(s, id, pre, done, decode);
    SentShort(s, id, pre, done);
    TextsOfLines(lines, decode);
    TextsAppend(earlier, Payloads(lines), decode);
    ReadAllAppend(Texts(earlier, decode), lines);
    CutHasNoEnd(s, id, pre, done);
    UndecidedAppend(V.ReadAll(Texts(earlier, decode)), V.ReadAll(lines));
  }

  lemma {:induction false} UndecidedAppend(a: seq<V.Reading>, b: seq<V.Reading>)
    requires J.Undecided(V.FRESH, a) && !J.After(V.FRESH, a).complete && J.NoEnd(b)
    ensures J.Undecided(V.FRESH, a + b) && !J.After(V.FRESH, a + b).complete
    decreases |b|
  {
    if b == [] {
      assert a + b == a;
    } else {
      var front, last := b[..|b| - 1], b[|b| - 1];
      UndecidedAppend(a, front);
      UndecidedOne(a + front, last);
      assert a + front + [last] == a + b;
    }
  }

  lemma UndecidedOne(rs: seq<V.Reading>, r: V.Reading)
    requires J.Undecided(V.FRESH, rs) && !J.After(V.FRESH, rs).complete && r.end.None?
    ensures J.Undecided(V.FRESH, rs + [r]) && !J.After(V.FRESH, rs + [r]).complete
  {
    J.AfterAppend(V.FRESH, rs, r);
  }

  lemma SentShort(s: Snapshot, id: u32, pre: seq<string>, done: nat)
    requires Printable(s) && AllForeign(pre) && done <= |pre| + V.Size(DumpOf(s, id))
    requires AllPlain(Sent(s, id, pre, done))
    ensures forall p :: p in Payloads(Sent(s, id, pre, done)) ==> |p| <= F.LIMIT
  {
    DumpWellFormed(s, id);
    var d, lines := DumpOf(s, id), Sent(s, id, pre, done);
    forall i | 0 <= i < |lines| ensures |Payload(lines[i])| <= F.LIMIT {
      if i >= |pre| {
        assert lines[i] == V.Line(d, i - |pre|);
      }
    }
  }

  /** After anything that has left the program waiting, such as dumps that the link cut off, a later
      dump is accepted if and only if all of it was sent, in whatever chunks the bytes arrive. */
  lemma LaterDumpAccepted(earlier: seq<seq<F.byte>>, s: Snapshot, id: u32, pre: seq<string>, done: nat,
                          chunks: seq<seq<F.byte>>, decode: seq<F.byte> -> string)
    requires Printable(s) && AllForeign(pre) && KeepsPlain(decode) && done <= |pre| + V.Size(DumpOf(s, id))
    requires Unfinished(earlier, decode) && AllPlain(Sent(s, id, pre, done))
    requires F.Flatten(chunks) == F.EncodeAll(earlier + Payloads(Sent(s, id, pre, done)))
    ensures AcceptsStream(V.FRESH, F.Run(F.IDLE, F.Flatten(chunks)).1, decode)
            <==> done == |pre| + V.Size(DumpOf(s, id))
  {
    var lines := Sent(s, id, pre, done);
    SentShort(s, id, pre, done);
    F.FramesRoundTrip(earlier + Payloads(lines));
    TextsOfLines(lines, decode);
    TextsAppend(earlier, Payloads(lines), decode);
    ReadAllAppend(Texts(earlier, decode), lines);
    var before := V.ReadAll(Texts(earlier, decode));
    J.AcceptsAppend(V.FRESH, before, V.ReadAll(lines));
    var v := J.After(V.FRESH, before);
    if done < |pre| + V.Size(DumpOf(s, id)) {
      CutHasNoEnd(s, id, pre, done);
      J.NoEndNotAccepted(v, V.ReadAll(lines));
    } else {
      assert lines == pre + AllLines(DumpOf(s, id));
      WholeAccepted(s, id, pre, v);
    }
  }
}
