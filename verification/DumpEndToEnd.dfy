/** The dump from the journal to the host: the firmware's snapshot and lines, framed bytes read
    in arbitrary chunks, and the reading program's verdict (src/host_event_log.c and
    tools/read_diag_dump.py). */
module DumpEndToEnd {
  import opened Common
  import opened JournalModel
  import opened JournalRuns
  import opened DumpStream
  import DumpText
  import HostEventLog
  import F = Framing
  import V = DumpVerifier

  // ----- the firmware's side -----

  /** The copies taken under the ring lock. */
  method TakeSnapshot(log: HostEventLog.Log, tmp: array<Event>) returns (s: Snapshot)
    requires log.Valid() && tmp.Length == log.c.cap && tmp != log.ring
    modifies tmp
    ensures s == SnapshotOf(log.Abs())
  {
    var n := log.RingGetOrdered(tmp);
    s := Snapshot(HostEventLog.MirrorOf(log.restored[..], log.restoredValid[..]), log.nextSlot, tmp[..n], log.ringSeq);
  }

  /** What other threads do to the journal while the boot and fault lines are sent: recorders and
      their requests, and the writer's two critical sections with the write's result. */
  datatype Activity =
    | Recording(e: Event, persist: bool)
    | Requesting(urgent: bool, at: nat)
    | Saving(now: int, ok: bool, end: nat)

  ghost function Active(c: Config, j: Journal, a: Activity): Journal {
    match a
    case Recording(e, persist) => Record(c, j, e, persist).0
    case Requesting(urgent, at) => Schedule(c, j, urgent, at).0
    case Saving(now, ok, end) =>
      if |j.ring| > j.ringSeq then j
      else
        var (j1, out) := Copy(c, j, now);
        if out.Copied? && out.block.slot < c.slots == |j1.mirror| && 1 <= |out.block.ev|
        then Commit(c, j1, out.block, ok, end).0 else j1
  }

  ghost function Meanwhile(c: Config, j: Journal, activity: seq<Activity>): Journal {
    if activity == [] then j else Active(c, Meanwhile(c, j, activity[..|activity| - 1]), activity[|activity| - 1])
  }

  method Act(log: HostEventLog.Log, a: Activity)
    requires log.Valid()
    modifies log, log.ring, log.restored, log.restoredValid
    ensures log.Valid() && log.Abs() == Active(log.c, old(log.Abs()), a)
  {
    match a {
      case Recording(e, persist) =>
        var _ := log.Record(e, persist);
      case Requesting(urgent, at) =>
        var _ := log.SchedulePersist(urgent, at);
      case Saving(now, ok, end) =>
        var out := log.CopyBlock(now);
        if out.Copied? {
          var _ := log.CommitBlock(ok, end);
        }
    }
  }

  method ActAll(log: HostEventLog.Log, activity: seq<Activity>)
    requires log.Valid()
    modifies log, log.ring, log.restored, log.restoredValid
    ensures log.Valid() && log.Abs() == Meanwhile(log.c, old(log.Abs()), activity)
  {
    for i := 0 to |activity|
      invariant log.Valid() && log.Abs() == Meanwhile(log.c, old(log.Abs()), activity[..i])
    {
      assert activity[..i + 1][..i] == activity[..i];
      Act(log, activity[i]);
    }
    assert activity[..|activity|] == activity;
  }

  /** The boot and fault lines. */
  method SendPreamble(link: Link, preamble: seq<string>) returns (done: nat)
    modifies link
    ensures SentPrefix(old(link.sent), link.sent, preamble, done)
    ensures done < |preamble| ==> link.Failed()
  {
    assert preamble[..0] == [] && link.sent + [] == link.sent;
    for i := 0 to |preamble|
      invariant link.sent == old(link.sent) + preamble[..i]
    {
      var err := link.Send(preamble[i]);
      if err != 0 {
        return i;
      }
    }
    assert preamble[..|preamble|] == preamble;
    return |preamble|;
  }

  /** totem_host_event_log_dump: the boot and fault lines, then the numbered dump of the journal as
      it is when these have been sent. The journal's other users act on it before the copy; the link
      is the dump's own, so the order of their actions and the sends does not matter. */
  method Dump(log: HostEventLog.Log, tmp: array<Event>, link: Link, id: u32, preamble: seq<string>,
              activity: seq<Activity>) returns (done: nat)
    requires log.Valid() && tmp.Length == log.c.cap && tmp != log.ring
    requires Printable(SnapshotOf(Meanwhile(log.c, log.Abs(), activity)))
    modifies tmp, link, log, log.ring, log.restored, log.restoredValid
    ensures var s := SnapshotOf(Meanwhile(log.c, old(log.Abs()), activity));
      && SentPrefix(old(link.sent), link.sent, preamble + AllLines(DumpOf(s, id)), done)
      && (done < |preamble| + V.Size(DumpOf(s, id)) ==> link.Failed())
  {
    ghost var s := SnapshotOf(Meanwhile(log.c, log.Abs(), activity));
    ghost var dump := AllLines(DumpOf(s, id));
    done := SendPreamble(link, preamble);
    if done < |preamble| {
      assert (preamble + dump)[..done] == preamble[..done];
      return;
    }
    ActAll(log, activity);
    var taken := TakeSnapshot(log, tmp);
    ghost var begun := link.sent;
    var lines := PrintSnapshot(link, id, taken);
    PreambleSent(old(link.sent), begun, link.sent, preamble, dump, lines);
    done := |preamble| + lines;
  }

  lemma PreambleSent(s0: seq<string>, s1: seq<string>, s2: seq<string>, preamble: seq<string>, dump: seq<string>,
                     lines: nat)
    requires SentPrefix(s0, s1, preamble, |preamble|) && SentPrefix(s1, s2, dump, lines)
    ensures SentPrefix(s0, s2, preamble + dump, |preamble| + lines)
  {
    assert preamble[..|preamble|] == preamble;
    assert (preamble + dump)[..|preamble| + lines] == preamble + dump[..lines];
  }

  // ----- consistency of one dump -----

  /** The event numbered n is printed as a RAM line. */
  ghost predicate InRam(s: Snapshot, n: nat, e: Event) {
    |s.ring| <= s.ringSeq && s.ringSeq - |s.ring| < n <= s.ringSeq && e == s.ring[n - (s.ringSeq - |s.ring|) - 1]
  }

  /** A dump taken at any moment of any run, once loading is done: the RAM lines are the newest
      of the events recorded since the restart, in order and with their true numbers, as many as
      the ring can hold, and a number that is printed both as a persisted and as a RAM line carries
      the same event. */
  lemma DumpConsistent(c: Config, actions: seq<Action>)
    requires ValidConfig(c)
    ensures Run(c, Start(c), actions).j.ready ==> Consistent(c, Run(c, Start(c), actions))
    ensures SnapshotOf(Run(c, Start(c), actions).j).ring == Tail(Recorded(actions), c.cap)
  {
    StartGood(c);
    RunKeeps(c, Start(c), actions);
    BootedIsRecorded(c, actions);
    JournalTellsHistory(c, actions);
    if Run(c, Start(c), actions).j.ready {
      ToldIsConsistent(c, Run(c, Start(c), actions));
    }
  }

  ghost predicate Consistent(c: Config, s: Sys) {
    var x := SnapshotOf(s.j);
    && x.ringSeq == |s.history|
    && (forall n: nat, e :: InRam(x, n, e) ==> 1 <= n <= |s.history| && e == s.history[n - 1])
    && (forall n: nat, e, e' :: Saved(x.cells, n, e) && InRam(x, n, e') ==> e == e')
  }

  lemma ToldIsConsistent(c: Config, s: Sys)
    requires HistoryTold(c, s)
    ensures Consistent(c, s)
  {
    forall n: nat, e | Saved(s.j.mirror, n, e) ensures 1 <= n <= |s.history| && e == s.history[n - 1] {
      var k: nat, i: nat :| InSlot(s.j.mirror, k, i, n, e);
      assert ExactEvents(s, s.j.mirror[k].value);
    }
  }

  /** Every reachable journal whose counters have not wrapped can be printed. */
  lemma ReachablePrintable(c: Config, actions: seq<Action>)
    requires ValidConfig(c)
    ensures var j := Run(c, Start(c), actions).j;
      j.ready && j.ringSeq < 0x1_0000_0000 && j.journalSeq < 0x1_0000_0000 ==> Printable(SnapshotOf(j))
  {
    StartGood(c);
    RunKeeps(c, Start(c), actions);
    var s := Run(c, Start(c), actions);
    if s.j.ready {
      forall k: nat | k < c.slots && s.j.mirror[k].Some? ensures GoodBlock(c, s, k, s.j.mirror[k].value) {
      }
    }
  }

  // ----- the host's side -----

  const TAG: F.byte := 0x4C

  /** The text of a log payload, which starts with 'L'; other payloads are not lines. */
  function TextOf(payload: seq<F.byte>, decode: seq<F.byte> -> string): Option<string> {
    if payload != [] && payload[0] == TAG then Some(decode(payload[1..])) else None
  }

  function Texts(payloads: seq<seq<F.byte>>, decode: seq<F.byte> -> string): seq<string> {
    if payloads == [] then []
    else
      var rest := Texts(payloads[1..], decode);
      match TextOf(payloads[0], decode)
      case Some(line) => [line] + rest
      case None => rest
  }

  predicate AcceptsStream(v: V.State, payloads: seq<seq<F.byte>>, decode: seq<F.byte> -> string) {
    V.Accepts(v, V.ReadAll(Texts(payloads, decode)))
  }

  /** The reading loop of the program, up to its time limit: `chunks` is what the port returns. */
  method ReadPort(chunks: seq<seq<F.byte>>, decode: seq<F.byte> -> string) returns (accepted: bool)
    ensures accepted == AcceptsStream(V.FRESH, F.Run(F.IDLE, F.Flatten(chunks)).1, decode)
  {
    var decoder := new F.Deframer();
    var verifier := new V.Verifier();
    ghost var goal := AcceptsStream(V.FRESH, F.Run(F.IDLE, F.Flatten(chunks)).1, decode);
    assert chunks[0..] == chunks;
    for i := 0 to |chunks|
      invariant goal == AcceptsStream(verifier.Abs(), F.Run(decoder.Abs(), F.Flatten(chunks[i..])).1, decode)
      invariant !verifier.complete
    {
      ghost var before := decoder.Abs();
      assert chunks[i..][0] == chunks[i] && chunks[i..][1..] == chunks[i + 1..];
      F.RunAppend(before, chunks[i], F.Flatten(chunks[i + 1..]));
      var payloads := decoder.Feed(chunks[i]);
      ghost var later := F.Run(decoder.Abs(), F.Flatten(chunks[i + 1..])).1;
      var verdict := TakePayloads(verifier, payloads, later, decode);
      if verdict.Some? {
        return verdict.value;
      }
    }
    assert chunks[|chunks|..] == [];
    return false;
  }

  /** The payloads of one chunk: a verdict ends the program. */
  method TakePayloads(verifier: V.Verifier, payloads: seq<seq<F.byte>>, ghost later: seq<seq<F.byte>>,
                      decode: seq<F.byte> -> string)
    returns (verdict: Option<bool>)
    requires !verifier.complete
    modifies verifier
    ensures verdict.Some? ==> verdict.value == AcceptsStream(old(verifier.Abs()), payloads + later, decode)
    ensures verdict.None? ==> !verifier.complete
    ensures verdict.None? ==>
      (AcceptsStream(old(verifier.Abs()), payloads + later, decode) <==> AcceptsStream(verifier.Abs(), later, decode))
  {
    ghost var all := payloads + later;
    ghost var goal := AcceptsStream(verifier.Abs(), all, decode);
    assert all[0..] == all;
    for i := 0 to |payloads|
      invariant goal == AcceptsStream(verifier.Abs(), all[i..], decode)
      invariant !verifier.complete
    {
      assert all[i..][0] == payloads[i] && all[i..][1..] == all[i + 1..];
      var text := TextOf(payloads[i], decode);
      if text.None? {
        continue;
      }
      ReadAllCons(text.value, Texts(all[i + 1..], decode));
      var recognized := verifier.Feed(text.value);
      if verifier.complete {
        return Some(true);
      }
      if recognized && V.Read(text.value).end.Some? {
        return Some(false);
      }
    }
    assert all[|payloads|..] == later;
    verdict := None;
  }

  lemma ReadAllCons(line: string, rest: seq<string>)
    ensures V.ReadAll([line] + rest) == [V.Read(line)] + V.ReadAll(rest)
  {
    assert ([line] + rest)[1..] == rest;
  }

  // ----- from end to end -----

  function BytesOf(line: string): (bs: seq<F.byte>)
    requires DumpText.Plain(line)
  {
    seq(|line|, i requires 0 <= i < |line| => line[i] as int)
  }

  function Payload(line: string): seq<F.byte>
    requires DumpText.Plain(line)
  {
    [TAG] + BytesOf(line)
  }

  /** Printable ASCII decodes to itself, as in UTF-8. */
  ghost predicate KeepsPlain(decode: seq<F.byte> -> string) {
    forall line: string :: DumpText.Plain(line) ==> decode(BytesOf(line)) == line
  }

  /** One received frame: the dump's k-th line, or another payload. */
  datatype Frame = Mine(k: nat) | Other(payload: seq<F.byte>)

  function FramePayload(d: V.Dump, f: Frame): seq<F.byte>
    requires LinesPrintable(d)
  {
    match f
    case Mine(k) => if k < V.Size(d) then Payload(V.Line(d, k)) else []
    case Other(p) => p
  }

  function FramePayloads(d: V.Dump, fs: seq<Frame>): seq<seq<F.byte>>
    requires LinesPrintable(d)
  {
    if fs == [] then [] else [FramePayload(d, fs[0])] + FramePayloads(d, fs[1..])
  }

  ghost predicate LinesPrintable(d: V.Dump) {
    forall k: nat :: k < V.Size(d) ==> DumpText.Plain(V.Line(d, k)) && |V.Line(d, k)| < LINE_SIZE
  }

  /** The dump's frames arrive in order from the k-th line on, some lost; other frames come
      between them whose text, if any, has nothing to do with this dump. */
  ghost predicate Arriving(d: V.Dump, from: nat, fs: seq<Frame>, decode: seq<F.byte> -> string)
    decreases fs
  {
    fs == [] ||
    match fs[0]
    case Mine(k) => from <= k < V.Size(d) && Arriving(d, k + 1, fs[1..], decode)
    case Other(p) =>
      && |p| <= F.LIMIT
      && (TextOf(p, decode).Some? ==> V.Unrelated(d.id, V.Read(TextOf(p, decode).value)))
      && Arriving(d, from, fs[1..], decode)
  }

  /** The same arrival as the verifier sees it. */
  ghost function Items(fs: seq<Frame>, decode: seq<F.byte> -> string): seq<V.Item> {
    if fs == [] then []
    else
      var rest := Items(fs[1..], decode);
      match fs[0]
      case Mine(k) => [V.Own(k)] + rest
      case Other(p) => if TextOf(p, decode).Some? then [V.Noise(V.Read(TextOf(p, decode).value))] + rest else rest
  }

  /** The frames and what the verifier makes of them correspond one by one. */
  ghost predicate Corresponds(d: V.Dump, from: nat, fs: seq<Frame>, decode: seq<F.byte> -> string)
    requires LinesPrintable(d)
  {
    && V.Arrival(d, from, Items(fs, decode))
    && V.ReadAll(Texts(FramePayloads(d, fs), decode)) == V.Received(d, Items(fs, decode))
    && (forall k: nat :: V.Own(k) in Items(fs, decode) <==> Mine(k) in fs)
    && (forall p :: p in FramePayloads(d, fs) ==> |p| <= F.LIMIT)
  }

  lemma MineReads(d: V.Dump, fs: seq<Frame>, decode: seq<F.byte> -> string)
    requires V.WellFormed(d) && LinesPrintable(d) && KeepsPlain(decode)
    requires fs != [] && fs[0].Mine? && fs[0].k < V.Size(d)
    ensures V.ReadAll(Texts(FramePayloads(d, fs), decode))
         == [V.OwnReading(d, fs[0].k)] + V.ReadAll(Texts(FramePayloads(d, fs[1..]), decode))
    ensures |FramePayload(d, fs[0])| <= F.LIMIT
  {
    var line := V.Line(d, fs[0].k);
    var payloads := FramePayloads(d, fs);
    assert payloads[1..] == FramePayloads(d, fs[1..]);
    assert payloads[0] == Payload(line) && Payload(line)[1..] == BytesOf(line);
    assert TextOf(payloads[0], decode) == Some(line);
    ReadAllCons(line, Texts(payloads[1..], decode));
    V.OwnLine(d, fs[0].k);
  }

  lemma MineReceived(d: V.Dump, fs: seq<Frame>, decode: seq<F.byte> -> string)
    requires V.WellFormed(d) && LinesPrintable(d) && KeepsPlain(decode)
    requires fs != [] && fs[0].Mine? && fs[0].k < V.Size(d)
    requires V.ReadAll(Texts(FramePayloads(d, fs[1..]), decode)) == V.Received(d, Items(fs[1..], decode))
    ensures V.ReadAll(Texts(FramePayloads(d, fs), decode)) == V.Received(d, Items(fs, decode))
  {
    var items := Items(fs, decode);
    assert items[1..] == Items(fs[1..], decode);
    MineReads(d, fs, decode);
    V.ReceivedTail(d, items);
    assert V.Received(d, items) == [V.OwnReading(d, fs[0].k)] + V.Received(d, items[1..]);
  }

  lemma MineArrives(d: V.Dump, from: nat, fs: seq<Frame>, decode: seq<F.byte> -> string)
    requires Arriving(d, from, fs, decode) && fs != [] && fs[0].Mine?
    requires V.Arrival(d, fs[0].k + 1, Items(fs[1..], decode))
    requires forall k: nat :: V.Own(k) in Items(fs[1..], decode) <==> Mine(k) in fs[1..]
    ensures V.Arrival(d, from, Items(fs, decode))
    ensures forall k: nat :: V.Own(k) in Items(fs, decode) <==> Mine(k) in fs
  {
    assert fs == [fs[0]] + fs[1..];
    assert Items(fs, decode)[1..] == Items(fs[1..], decode);
  }

  lemma MineCorresponds(d: V.Dump, from: nat, fs: seq<Frame>, decode: seq<F.byte> -> string)
    requires V.WellFormed(d) && LinesPrintable(d) && KeepsPlain(decode) && Arriving(d, from, fs, decode)
    requires fs != [] && fs[0].Mine? && Corresponds(d, fs[0].k + 1, fs[1..], decode)
    ensures Corresponds(d, from, fs, decode)
  {
    MineArrives(d, from, fs, decode);
    MineReads(d, fs, decode);
    MineReceived(d, fs, decode);
    assert FramePayloads(d, fs) == [FramePayload(d, fs[0])] + FramePayloads(d, fs[1..]);
  }

  lemma OtherCorresponds(d: V.Dump, from: nat, fs: seq<Frame>, decode: seq<F.byte> -> string)
    requires LinesPrintable(d) && Arriving(d, from, fs, decode)
    requires fs != [] && fs[0].Other? && Corresponds(d, from, fs[1..], decode)
    ensures Corresponds(d, from, fs, decode)
  {
    var payloads, items := FramePayloads(d, fs), Items(fs, decode);
    assert fs == [fs[0]] + fs[1..];
    assert payloads[1..] == FramePayloads(d, fs[1..]);
    if TextOf(fs[0].payload, decode).Some? {
      assert items[1..] == Items(fs[1..], decode);
      ReadAllCons(TextOf(fs[0].payload, decode).value, Texts(payloads[1..], decode));
      V.ReceivedTail(d, items);
    }
  }

  lemma {:induction false} ItemsArrive(d: V.Dump, from: nat, fs: seq<Frame>, decode: seq<F.byte> -> string)
    requires V.WellFormed(d) && LinesPrintable(d) && KeepsPlain(decode) && Arriving(d, from, fs, decode)
    ensures Corresponds(d, from, fs, decode)
    decreases fs
  {
    if fs != [] {
      match fs[0]
      case Mine(k) =>
        ItemsArrive(d, k + 1, fs[1..], decode);
        MineCorresponds(d, from, fs, decode);
      case Other(p) =>
        ItemsArrive(d, from, fs[1..], decode);
        OtherCorresponds(d, from, fs, decode);
    }
  }

  /** Whatever the chunks in which the port returns the bytes: the program accepts a dump if and
      only if the frames of its begin line, its end line and every data line arrived. */
  lemma HostAcceptsIffWhole(d: V.Dump, fs: seq<Frame>, chunks: seq<seq<F.byte>>, decode: seq<F.byte> -> string)
    requires V.WellFormed(d) && LinesPrintable(d) && KeepsPlain(decode) && Arriving(d, 0, fs, decode)
    requires F.Flatten(chunks) == F.EncodeAll(FramePayloads(d, fs))
    ensures AcceptsStream(V.FRESH, F.Run(F.IDLE, F.Flatten(chunks)).1, decode)
            <==> forall k: nat :: k < V.Size(d) ==> Mine(k) in fs
  {
    ItemsArrive(d, 0, fs, decode);
    F.FramesRoundTrip(FramePayloads(d, fs));
    V.AcceptedIffWhole(d, Items(fs, decode));
  }

  /** The dump that the firmware prints from a snapshot meets what the host's side asks for. */
  lemma FirmwareDumpAcceptedIffWhole(s: Snapshot, id: u32, fs: seq<Frame>, chunks: seq<seq<F.byte>>,
                                     decode: seq<F.byte> -> string)
    requires Printable(s) && KeepsPlain(decode)
    ensures V.WellFormed(DumpOf(s, id)) && LinesPrintable(DumpOf(s, id))
    ensures Arriving(DumpOf(s, id), 0, fs, decode)
            && F.Flatten(chunks) == F.EncodeAll(FramePayloads(DumpOf(s, id), fs)) ==>
      (AcceptsStream(V.FRESH, F.Run(F.IDLE, F.Flatten(chunks)).1, decode)
       <==> forall k: nat :: k < V.Size(DumpOf(s, id)) ==> Mine(k) in fs)
  {
    DumpWellFormed(s, id);
    if Arriving(DumpOf(s, id), 0, fs, decode) && F.Flatten(chunks) == F.EncodeAll(FramePayloads(DumpOf(s, id), fs)) {
      HostAcceptsIffWhole(DumpOf(s, id), fs, chunks, decode);
    }
  }
}
