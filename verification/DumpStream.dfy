/** The numbered dump that the firmware streams (src/host_event_log.c): a snapshot of the journal
    taken under the ring lock, printed line by line. */
module DumpStream {
  import opened Common
  import opened DumpText
  import opened JournalModel
  import V = DumpVerifier

  const LINE_SIZE := 120
  const DETAIL_SIZE := 90
  const SEND_ATTEMPTS := 40
  const EAGAIN := 11
  const EMSGSIZE := 122

  /** What the dump copies under the lock. */
  datatype Snapshot = Snapshot(cells: seq<Option<Block>>, start: nat, ring: seq<Event>, ringSeq: nat)

  function SnapshotOf(j: Journal): Snapshot { Snapshot(j.mirror, j.nextSlot, j.ring, j.ringSeq) }

  /** The snapshot of a journal with the configured sizes, whose counters have not wrapped. */
  ghost predicate Printable(s: Snapshot) {
    && 0 < |s.cells| <= 8 && s.start < |s.cells|
    && |s.ring| <= 1024 && |s.ring| <= s.ringSeq < 0x1_0000_0000
    && forall k: nat :: k < |s.cells| && s.cells[k].Some? ==>
         |s.cells[k].value.ev| <= 32 && s.cells[k].value.journalSeq < 0x1_0000_0000
         && s.cells[k].value.first < 0x1_0000_0000
         && s.cells[k].value.first + |s.cells[k].value.ev| <= 0x1_0000_0000
  }

  // ----- the text of one line -----

  function EventHead(source: char, slot: nat, q: nat, t: nat): string {
    "e s=" + [source] + Dec(slot) + " q=" + Dec(q) + " t=" + Dec(t)
  }

  function EventTail(e: Event): string {
    " k=" + Dec(e.kind) + " i=" + SignedDec(e.idx) + " a=" + SignedDec(e.active)
    + " r=" + Dec(e.reason) + " w=" + Dec(e.win) + " x=" + Dec(e.extra)
  }

  function EventDetail(source: char, slot: nat, q: nat, e: Event): string {
    EventHead(source, slot, q, e.uptime) + EventTail(e)
  }

  function BlockDetail(slot: nat, b: Block): string {
    "b s=" + Dec(slot) + " j=" + Dec(b.journalSeq) + " first=" + Dec(b.first) + " count=" + Dec(|b.ev|)
  }

  /** A detail that fits its buffer and makes a line that fits its buffer. */
  ghost predicate Fits(detail: string) { detail != "" && Plain(detail) && |detail| < DETAIL_SIZE }

  lemma SignedDecPlain(n: int)
    ensures Plain(SignedDec(n))
  {
    DecPlain(if n < 0 then -n else n);
  }

  /** No field values make an event's detail too long for its 90 bytes. */
  lemma EventDetailFits(source: char, slot: u8, q: u32, e: Event)
    requires ' ' <= source <= '~'
    ensures Fits(EventDetail(source, slot, q, e)) && |EventDetail(source, slot, q, e)| <= 72
  {
    EventHeadFits(source, slot, q, e.uptime);
    EventTailFits(e);
  }

  lemma EventHeadFits(source: char, slot: u8, q: u32, t: u32)
    requires ' ' <= source <= '~'
    ensures Plain(EventHead(source, slot, q, t)) && 0 < |EventHead(source, slot, q, t)| <= 34
  {
    DecWidths(slot);
    DecWidths(q);
    DecWidths(t);
    DecPlain(slot);
    DecPlain(q);
    DecPlain(t);
  }

  /** A tagged number of at most w characters, after a text that is plain already. */
  lemma PartFits(before: string, lit: string, digits: string, n: nat, w: nat)
    requires Plain(before) && |before| <= n && Plain(lit) && Plain(digits) && |digits| <= w
    ensures Plain(before + lit + digits) && |before + lit + digits| <= n + |lit| + w
  {
  }

  lemma EventTailFits(e: Event)
    ensures Plain(EventTail(e)) && |EventTail(e)| <= 38
  {
    DecWidths(e.kind);
    DecWidths(e.reason);
    DecWidths(e.win);
    DecWidths(e.extra);
    SignedDecWidth(e.idx);
    SignedDecWidth(e.active);
    DecPlain(e.kind);
    DecPlain(e.reason);
    DecPlain(e.win);
    DecPlain(e.extra);
    SignedDecPlain(e.idx);
    SignedDecPlain(e.active);
    var k := " k=" + Dec(e.kind);
    var i := k + " i=" + SignedDec(e.idx);
    var a := i + " a=" + SignedDec(e.active);
    var r := a + " r=" + Dec(e.reason);
    var w := r + " w=" + Dec(e.win);
    PartFits(k, " i=", SignedDec(e.idx), 6, 4);
    PartFits(i, " a=", SignedDec(e.active), 13, 4);
    PartFits(a, " r=", Dec(e.reason), 20, 3);
    PartFits(r, " w=", Dec(e.win), 26, 3);
    PartFits(w, " x=", Dec(e.extra), 32, 3);
  }

  lemma BlockDetailFits(slot: u8, b: Block)
    requires b.journalSeq < 0x1_0000_0000 && b.first < 0x1_0000_0000 && |b.ev| < 0x100
    ensures Fits(BlockDetail(slot, b)) && |BlockDetail(slot, b)| <= 72
  {
    DecWidths(slot);
    DecWidths(b.journalSeq);
    DecWidths(b.first);
    DecWidths(|b.ev|);
    DecPlain(slot);
    DecPlain(b.journalSeq);
    DecPlain(b.first);
    DecPlain(|b.ev|);
    var head := "b s=" + Dec(slot);
    PartFits(head, " j=", Dec(b.journalSeq), 7, 10);
    PartFits(head + " j=" + Dec(b.journalSeq), " first=", Dec(b.first), 20, 10);
    PartFits(head + " j=" + Dec(b.journalSeq) + " first=" + Dec(b.first), " count=", Dec(|b.ev|), 37, 3);
  }

  /** A data line fits its 120 bytes for every id and number exactly if its detail has at most 82
      characters; the firmware's own details have at most 72. */
  lemma DataLineFits(detail: string)
    ensures (forall id: u32, n: u32 :: |PrintData(Data(id, n, detail))| < LINE_SIZE) <==> |detail| <= 82
  {
    forall id: u32, n: u32
      ensures |PrintData(Data(id, n, detail))| == 17 + |Dec(id)| + |Dec(n)| + |detail| <= 37 + |detail|
    {
      DecWidths(id);
      DecWidths(n);
    }
    DecWidest();
    assert |PrintData(Data(0xFFFF_FFFF, 0xFFFF_FFFF, detail))| == 37 + |detail|;
  }

  /** No begin line is too long: the counts are 32 bits, but for 8 of blocks and 16 of ring events. */
  lemma BeginLineFits(b: Begin)
    requires b.id < 0x1_0000_0000 && b.lines < 0x1_0000_0000 && b.blocks < 0x100
    requires b.persisted < 0x1_0000_0000 && b.ram < 0x1_0000 && b.seqno < 0x1_0000_0000
    ensures |PrintBegin(b)| < LINE_SIZE
  {
    DecWidths(b.id);
    DecWidths(b.lines);
    DecWidths(b.blocks);
    DecWidths(b.persisted);
    DecWidths(b.ram);
    DecWidths(b.seqno);
  }

  /** Nor is any end line. */
  lemma EndLineFits(e: End)
    requires e.id < 0x1_0000_0000 && e.lines < 0x1_0000_0000
    ensures |PrintEnd(e)| < LINE_SIZE
  {
    DecWidths(e.id);
    DecWidths(e.lines);
  }

  // ----- the lines of one dump -----

  function EventDetails(source: char, slot: nat, first: nat, ev: seq<Event>): (ds: seq<string>) {
    seq(|ev|, i requires 0 <= i < |ev| => EventDetail(source, slot, first + i, ev[i]))
  }

  function SlotDetails(cells: seq<Option<Block>>, slot: nat): seq<string>
    requires slot < |cells|
  {
    if cells[slot].None? then []
    else [BlockDetail(slot, cells[slot].value)]
         + EventDetails('p', slot, cells[slot].value.first, cells[slot].value.ev)
  }

  function SlotAt(start: nat, n: nat, off: nat): nat
    requires start < n && off < n
  {
    Wrap(start + off, n)
  }

  /** What each turn of the slot loop prints. */
  function TurnsOf(s: Snapshot): (turns: seq<seq<string>>)
    requires s.start < |s.cells|
  {
    seq(|s.cells|, off requires 0 <= off < |s.cells| => SlotDetails(s.cells, SlotAt(s.start, |s.cells|, off)))
  }

  /** The first n turns, one after another. */
  function Joined<T>(turns: seq<seq<T>>, n: nat): seq<T>
    requires n <= |turns|
  {
    if n == 0 then [] else Joined(turns, n - 1) + turns[n - 1]
  }

  /** The first `off` slots, going round from `start`. */
  function PersistedDetails(s: Snapshot, off: nat): seq<string>
    requires s.start < |s.cells| && off <= |s.cells|
  {
    Joined(TurnsOf(s), off)
  }

  function RamDetails(s: Snapshot): seq<string>
    requires |s.ring| <= s.ringSeq
  {
    EventDetails('r', 0, s.ringSeq - |s.ring| + 1, s.ring)
  }

  /** The number of valid blocks, and of their events, in the first k slots. */
  function Blocks(cells: seq<Option<Block>>, k: nat): nat
    requires k <= |cells|
  {
    if k == 0 then 0 else Blocks(cells, k - 1) + if cells[k - 1].Some? then 1 else 0
  }

  function Events(cells: seq<Option<Block>>, k: nat): nat
    requires k <= |cells|
  {
    if k == 0 then 0 else Events(cells, k - 1) + if cells[k - 1].Some? then |cells[k - 1].value.ev| else 0
  }

  function DumpOf(s: Snapshot, id: nat): V.Dump
    requires s.start < |s.cells| && |s.ring| <= s.ringSeq
  {
    var n := |s.cells|;
    V.Dump(id, Blocks(s.cells, n), Events(s.cells, n), |s.ring|, s.ringSeq, PersistedDetails(s, n) + RamDetails(s))
  }

  function AllLines(d: V.Dump): (lines: seq<string>) {
    seq(V.Size(d), k requires 0 <= k < V.Size(d) => V.Line(d, k))
  }

  /** Going round from `start`, every slot comes up exactly once. */
  lemma EverySlotOnce(start: nat, n: nat, slot: nat)
    requires start < n && slot < n
    ensures exists off: nat :: off < n && SlotAt(start, n, off) == slot
    ensures forall o: nat, p: nat :: o < p < n ==> SlotAt(start, n, o) != SlotAt(start, n, p)
  {
    var off: nat := if slot >= start then slot - start else slot + n - start;
    assert SlotAt(start, n, off) == slot;
  }

  lemma {:induction false} RotatedCount(s: Snapshot, off: nat)
    requires s.start < |s.cells| && off <= |s.cells|
    ensures var n := |s.cells|;
      |PersistedDetails(s, off)| ==
        if s.start + off <= n then Through(s.cells, s.start + off) - Through(s.cells, s.start)
        else Through(s.cells, n) - Through(s.cells, s.start) + Through(s.cells, s.start + off - n)
  {
    if off > 0 {
      var n := |s.cells|;
      var slot := SlotAt(s.start, n, off - 1);
      RotatedCount(s, off - 1);
      assert |SlotDetails(s.cells, slot)| == Through(s.cells, slot + 1) - Through(s.cells, slot);
      assert s.start + off <= n ==> slot == s.start + off - 1;
      assert s.start + off > n ==> slot == s.start + off - 1 - n;
      assert Through(s.cells, 0) == 0;
    }
  }

  function Through(cells: seq<Option<Block>>, k: nat): nat
    requires k <= |cells|
  {
    Blocks(cells, k) + Events(cells, k)
  }

  lemma {:induction false} CountBounds(cells: seq<Option<Block>>, k: nat)
    requires k <= |cells| && forall i: nat :: i < |cells| && cells[i].Some? ==> |cells[i].value.ev| <= 32
    ensures Blocks(cells, k) <= k && Events(cells, k) <= 32 * k
  {
    if k > 0 {
      CountBounds(cells, k - 1);
    }
  }

  ghost predicate AllFit(ds: seq<string>) {
    forall i :: 0 <= i < |ds| ==> Fits(ds[i]) && |ds[i]| <= 72
  }

  lemma AllFitAppend(a: seq<string>, b: seq<string>)
    requires AllFit(a) && AllFit(b)
    ensures AllFit(a + b)
  {
  }

  lemma EventDetailsFit(source: char, slot: u8, first: nat, ev: seq<Event>)
    requires ' ' <= source <= '~' && first + |ev| <= 0x1_0000_0000
    ensures AllFit(EventDetails(source, slot, first, ev))
  {
    forall i | 0 <= i < |ev| ensures Fits(EventDetails(source, slot, first, ev)[i])
      && |EventDetails(source, slot, first, ev)[i]| <= 72
    {
      EventDetailFits(source, slot, first + i, ev[i]);
    }
  }

  lemma {:induction false} JoinedFits(turns: seq<seq<string>>, n: nat)
    requires n <= |turns| && forall k: nat :: k < |turns| ==> AllFit(turns[k])
    ensures AllFit(Joined(turns, n))
  {
    if n > 0 {
      JoinedFits(turns, n - 1);
      AllFitAppend(Joined(turns, n - 1), turns[n - 1]);
    }
  }

  lemma PersistedDetailsFit(s: Snapshot, off: nat)
    requires Printable(s) && off <= |s.cells|
    ensures AllFit(PersistedDetails(s, off))
  {
    var turns := TurnsOf(s);
    forall k: nat | k < |turns| ensures AllFit(turns[k]) {
      TurnFits(s, k);
    }
    JoinedFits(turns, off);
  }

  lemma TurnFits(s: Snapshot, off: nat)
    requires Printable(s) && off < |s.cells|
    ensures AllFit(TurnsOf(s)[off])
  {
    var slot := SlotAt(s.start, |s.cells|, off);
    if s.cells[slot].Some? {
      SlotDetailsFit(slot, s.cells[slot].value);
    }
  }

  lemma SlotDetailsFit(slot: u8, b: Block)
    requires b.journalSeq < 0x1_0000_0000 && b.first < 0x1_0000_0000 && |b.ev| <= 32
    requires b.first + |b.ev| <= 0x1_0000_0000
    ensures AllFit([BlockDetail(slot, b)] + EventDetails('p', slot, b.first, b.ev))
  {
    BlockDetailFits(slot, b);
    EventDetailsFit('p', slot, b.first, b.ev);
  }

  lemma LineFits(d: V.Dump, k: nat)
    requires k < V.Size(d) && AllFit(d.details) && d.id < 0x1_0000_0000
    requires |d.details| < 0x1_0000 && d.blocks < 0x100 && d.persisted < 0x1_0000 && d.ram < 0x1_0000
    requires d.seqno < 0x1_0000_0000
    ensures |V.Line(d, k)| < LINE_SIZE
  {
    if k == 0 {
      BeginLineFits(Begin(d.id, |d.details|, d.blocks, d.persisted, d.ram, d.seqno));
    } else if k == V.Size(d) - 1 {
      EndLineFits(End(d.id, |d.details|));
    } else {
      DataLineFits(d.details[k - 1]);
    }
  }

  lemma RamDetailsFit(s: Snapshot)
    requires |s.ring| <= s.ringSeq < 0x1_0000_0000
    ensures AllFit(RamDetails(s))
  {
    EventDetailsFit('r', 0, s.ringSeq - |s.ring| + 1, s.ring);
  }

  lemma DumpDetailsFit(s: Snapshot)
    requires Printable(s)
    ensures AllFit(PersistedDetails(s, |s.cells|) + RamDetails(s))
  {
    PersistedDetailsFit(s, |s.cells|);
    RamDetailsFit(s);
    AllFitAppend(PersistedDetails(s, |s.cells|), RamDetails(s));
  }

  /** The begin line announces exactly the data lines that follow. */
  lemma DumpCounts(s: Snapshot, id: nat)
    requires Printable(s)
    ensures var d := DumpOf(s, id);
      && |d.details| == d.blocks + d.persisted + d.ram
      && d.blocks <= 8 && d.persisted <= 256 && d.ram <= 1024
      && |PersistedDetails(s, |s.cells|)| == d.blocks + d.persisted
  {
    RotatedCount(s, |s.cells|);
    CountBounds(s.cells, |s.cells|);
  }

  lemma LinesPlain(d: V.Dump, k: nat)
    requires k < V.Size(d) && AllFit(d.details)
    ensures Plain(V.Line(d, k))
  {
    if k == 0 {
      BeginPlain(Begin(d.id, |d.details|, d.blocks, d.persisted, d.ram, d.seqno));
    } else if k == V.Size(d) - 1 {
      EndPlain(End(d.id, |d.details|));
    } else {
      DataPlain(Data(d.id, k - 1, d.details[k - 1]));
    }
  }

  /** The dump is well formed: it has exactly as many data lines as the begin line announces,
      numbered without gaps, and every line fits its buffer. */
  lemma DumpWellFormed(s: Snapshot, id: u32)
    requires Printable(s)
    ensures V.WellFormed(DumpOf(s, id))
    ensures forall k :: 0 <= k < V.Size(DumpOf(s, id)) ==>
              |V.Line(DumpOf(s, id), k)| < LINE_SIZE && Plain(V.Line(DumpOf(s, id), k))
  {
    var d := DumpOf(s, id);
    DumpCounts(s, id);
    DumpDetailsFit(s);
    AllLinesFit(d);
  }

  lemma AllLinesFit(d: V.Dump)
    requires AllFit(d.details) && d.id < 0x1_0000_0000
    requires |d.details| < 0x1_0000 && d.blocks < 0x100 && d.persisted < 0x1_0000 && d.ram < 0x1_0000
    requires d.seqno < 0x1_0000_0000
    ensures forall k :: 0 <= k < V.Size(d) ==> |V.Line(d, k)| < LINE_SIZE && Plain(V.Line(d, k))
  {
    forall k: nat | k < V.Size(d) ensures |V.Line(d, k)| < LINE_SIZE && Plain(V.Line(d, k)) {
      LineFits(d, k);
      LinesPlain(d, k);
    }
  }

  // ----- sending -----

  /** The console link. `answer` is what the n-th attempt to send returns. */
  class Link {
    const answer: nat -> int
    var attempts: nat
    var sent: seq<string>

    constructor (answer: nat -> int)
      ensures this.answer == answer && attempts == 0 && sent == []
    {
      this.answer, attempts, sent := answer, 0, [];
    }

    /** The last attempt did not get through. */
    ghost predicate Failed()
      reads this
    {
      attempts > 0 && answer(attempts - 1) != 0
    }

    /** dump_send: try again, at most 40 times, for as long as the link has no room. */
    method Send(line: string) returns (err: int)
      modifies this
      ensures sent == if err == 0 then old(sent) + [line] else old(sent)
      ensures 1 <= attempts - old(attempts) <= SEND_ATTEMPTS && err == answer(attempts - 1)
      ensures forall i :: old(attempts) <= i < attempts - 1 ==> answer(i) == -EAGAIN
      ensures err == -EAGAIN ==> attempts == old(attempts) + SEND_ATTEMPTS
    {
      for attempt := 0 to SEND_ATTEMPTS
        invariant attempts == old(attempts) + attempt && sent == old(sent)
        invariant forall i :: old(attempts) <= i < attempts ==> answer(i) == -EAGAIN
      {
        err := answer(attempts);
        attempts := attempts + 1;
        if err != -EAGAIN {
          if err == 0 {
            sent := sent + [line];
          }
          return;
        }
      }
      err := -EAGAIN;
    }
  }

  /** Data lines numbered from `first` on. */
  function DataLines(id: nat, first: nat, details: seq<string>): (lines: seq<string>) {
    seq(|details|, i requires 0 <= i < |details| => PrintData(Data(id, first + i, details[i])))
  }

  /** The link carried the first of these details as numbered lines, all of them if it is ok. */
  ghost predicate Carried(before: seq<string>, after: seq<string>, id: nat, first: nat, ordinal: nat,
                          details: seq<string>, ok: bool)
  {
    && first <= ordinal <= first + |details| && (ok <==> ordinal == first + |details|)
    && after == before + DataLines(id, first, details[..ordinal - first])
  }

  lemma CarriedOn(s0: seq<string>, s1: seq<string>, s2: seq<string>, id: nat, n0: nat, n1: nat, n2: nat,
                  a: seq<string>, b: seq<string>, ok: bool)
    requires Carried(s0, s1, id, n0, n1, a, true) && Carried(s1, s2, id, n1, n2, b, ok)
    ensures Carried(s0, s2, id, n0, n2, a + b, ok)
  {
    assert (a + b)[..n2 - n0] == a + b[..n2 - n1];
    assert DataLines(id, n0, a + b[..n2 - n1]) == DataLines(id, n0, a) + DataLines(id, n1, b[..n2 - n1]);
    assert a[..n1 - n0] == a;
  }

  lemma CarriedPart(s0: seq<string>, s1: seq<string>, id: nat, n0: nat, n1: nat, a: seq<string>, b: seq<string>)
    requires Carried(s0, s1, id, n0, n1, a, false)
    ensures Carried(s0, s1, id, n0, n1, a + b, false)
  {
    assert (a + b)[..n1 - n0] == a[..n1 - n0];
  }

  /** dump_data: one numbered line, refused if it does not fit; the number advances only when it was
      sent. */
  method DumpData(link: Link, id: u32, first: u32, detail: string) returns (err: int, ordinal: nat)
    modifies link
    ensures Carried(old(link.sent), link.sent, id, first, ordinal, [detail], err == 0)
    ensures if |PrintData(Data(id, first, detail))| >= LINE_SIZE
            then err == -EMSGSIZE && link.attempts == old(link.attempts)
            else err != 0 ==> link.Failed()
  {
    var line := PrintData(Data(id, first, detail));
    ordinal := first;
    assert [detail][..0] == [] && link.sent + [] == link.sent;
    if |line| >= LINE_SIZE {
      return -EMSGSIZE, ordinal;
    }
    err := link.Send(line);
    if err == 0 {
      ordinal := ordinal + 1;
      assert [detail][..1] == [detail];
      assert DataLines(id, first, [detail]) == [line];
    } else {
      assert link.sent + [] == link.sent;
    }
  }

  /** dump_event: one event's line, which is never refused. */
  method DumpEvent(link: Link, id: u32, first: u32, source: char, slot: u8, q: u32, e: Event)
    returns (err: int, ordinal: nat)
    requires ' ' <= source <= '~'
    modifies link
    ensures Carried(old(link.sent), link.sent, id, first, ordinal, [EventDetail(source, slot, q, e)], err == 0)
    ensures err != 0 ==> link.Failed()
  {
    var detail := EventDetail(source, slot, q, e);
    EventDetailFits(source, slot, q, e);
    DataLineFits(detail);
    assert |detail| < DETAIL_SIZE;
    err, ordinal := DumpData(link, id, first, detail);
  }

  /** A loop over details has carried the first i of them, and then the next one or not. */
  lemma CarriedNext(s0: seq<string>, s1: seq<string>, s2: seq<string>, id: nat, n0: nat, n1: nat, n2: nat,
                    all: seq<string>, i: nat, ok: bool)
    requires i < |all| && Carried(s0, s1, id, n0, n1, all[..i], true) && Carried(s1, s2, id, n1, n2, [all[i]], ok)
    ensures ok ==> Carried(s0, s2, id, n0, n2, all[..i + 1], true)
    ensures !ok ==> Carried(s0, s2, id, n0, n2, all, false)
  {
    CarriedOn(s0, s1, s2, id, n0, n1, n2, all[..i], [all[i]], ok);
    assert all[..i] + [all[i]] == all[..i + 1];
    if !ok {
      CarriedPart(s0, s2, id, n0, n2, all[..i + 1], all[i + 1..]);
      assert all[..i + 1] + all[i + 1..] == all;
    }
  }

  /** The two event loops: of a persisted block and of the RAM ring. */
  method DumpEvents(link: Link, id: u32, start: nat, source: char, slot: u8, first: nat, ev: seq<Event>)
    returns (ok: bool, ordinal: nat)
    requires ' ' <= source <= '~' && first + |ev| <= 0x1_0000_0000 && start + |ev| <= 0x1_0000_0000
    modifies link
    ensures Carried(old(link.sent), link.sent, id, start, ordinal, EventDetails(source, slot, first, ev), ok)
    ensures !ok ==> link.Failed()
  {
    ghost var all := EventDetails(source, slot, first, ev);
    ordinal := start;
    assert all[..0] == [] && link.sent + [] == link.sent;
    for i := 0 to |ev|
      invariant Carried(old(link.sent), link.sent, id, start, ordinal, all[..i], true)
    {
      ghost var sent, n := link.sent, ordinal;
      var err;
      err, ordinal := DumpEvent(link, id, ordinal, source, slot, first + i, ev[i]);
      CarriedNext(old(link.sent), sent, link.sent, id, start, n, ordinal, all, i, err == 0);
      if err != 0 {
        return false, ordinal;
      }
    }
    assert all[..|ev|] == all;
    ok := true;
  }

  /** One slot: its block line, then its events. */
  method DumpSlot(link: Link, id: u32, start: nat, slot: u8, b: Block) returns (ok: bool, ordinal: nat)
    requires b.journalSeq < 0x1_0000_0000 && b.first < 0x1_0000_0000 && |b.ev| <= 32
    requires b.first + |b.ev| <= 0x1_0000_0000 && start + 1 + |b.ev| <= 0x1_0000_0000
    modifies link
    ensures Carried(old(link.sent), link.sent, id, start, ordinal,
                    [BlockDetail(slot, b)] + EventDetails('p', slot, b.first, b.ev), ok)
    ensures !ok ==> link.Failed()
  {
    BlockDetailFits(slot, b);
    DataLineFits(BlockDetail(slot, b));
    ghost var head, tail := [BlockDetail(slot, b)], EventDetails('p', slot, b.first, b.ev);
    var err;
    err, ordinal := DumpData(link, id, start, BlockDetail(slot, b));
    if err != 0 {
      CarriedPart(old(link.sent), link.sent, id, start, ordinal, head, tail);
      return false, ordinal;
    }
    ghost var sent := link.sent;
    ghost var n := ordinal;
    ok, ordinal := DumpEvents(link, id, ordinal, 'p', slot, b.first, b.ev);
    CarriedOn(old(link.sent), sent, link.sent, id, start, n, ordinal, head, tail, ok);
  }

  /** One turn of the slot loop. */
  method DumpTurn(link: Link, id: u32, start: nat, s: Snapshot, off: nat) returns (ok: bool, ordinal: nat)
    requires Printable(s) && off < |s.cells| && start <= 1000
    modifies link
    ensures Carried(old(link.sent), link.sent, id, start, ordinal,
                    SlotDetails(s.cells, SlotAt(s.start, |s.cells|, off)), ok)
    ensures !ok ==> link.Failed()
  {
    WrapIsMod(s.start + off, |s.cells|);
    var slot := (s.start + off) % |s.cells|;
    if s.cells[slot].None? {
      assert link.sent + [] == link.sent;
      return true, start;
    }
    ok, ordinal := DumpSlot(link, id, start, slot, s.cells[slot].value);
  }

  lemma CarriedTurn(s0: seq<string>, s1: seq<string>, s2: seq<string>, id: nat, n: nat, ordinal: nat,
                    done: seq<string>, turn: seq<string>, next: seq<string>)
    requires Carried(s0, s1, id, 0, n, done, true) && Carried(s1, s2, id, n, ordinal, turn, true)
    requires next == done + turn
    ensures Carried(s0, s2, id, 0, ordinal, next, true)
  {
    CarriedOn(s0, s1, s2, id, 0, n, ordinal, done, turn, true);
  }

  lemma StoppedTurn(s0: seq<string>, s1: seq<string>, s2: seq<string>, id: nat, n: nat, ordinal: nat,
                    done: seq<string>, turn: seq<string>, rest: seq<string>, all: seq<string>)
    requires Carried(s0, s1, id, 0, n, done, true) && Carried(s1, s2, id, n, ordinal, turn, false)
    requires all == (done + turn) + rest
    ensures Carried(s0, s2, id, 0, ordinal, all, false)
  {
    CarriedOn(s0, s1, s2, id, 0, n, ordinal, done, turn, false);
    CarriedPart(s0, s2, id, 0, ordinal, done + turn, rest);
  }

  /** One turn after those that sent everything so far. */
  method DumpNext(link: Link, id: u32, start: nat, s: Snapshot, off: nat, ghost turns: seq<seq<string>>,
                  ghost before: seq<string>) returns (ok: bool, ordinal: nat)
    requires Printable(s) && off < |s.cells| == |turns| && IsTurn(s, off, turns[off]) && Short(turns)
    requires Carried(before, link.sent, id, 0, start, Joined(turns, off), true)
    modifies link
    ensures ok ==> Carried(before, link.sent, id, 0, ordinal, Joined(turns, off + 1), true)
    ensures !ok ==> Carried(before, link.sent, id, 0, ordinal, Joined(turns, |turns|), false) && link.Failed()
  {
    ghost var sent := link.sent;
    JoinedShort(turns, off);
    ok, ordinal := DumpTurn(link, id, start, s, off);
    if ok {
      CarriedTurn(before, sent, link.sent, id, start, ordinal, Joined(turns, off), turns[off], Joined(turns, off + 1));
    } else {
      ghost var rest := JoinedRest(turns, off + 1);
      StoppedTurn(before, sent, link.sent, id, start, ordinal, Joined(turns, off), turns[off], rest,
                  Joined(turns, |turns|));
    }
  }

  /** The list of turns is that of the snapshot's slots. */
  ghost predicate Turns(s: Snapshot, turns: seq<seq<string>>) {
    && |turns| == |s.cells| && s.start < |s.cells| && Short(turns)
    && forall off: nat {:trigger IsTurn(s, off, turns[off])} :: off < |turns| ==> IsTurn(s, off, turns[off])
  }

  ghost predicate IsTurn(s: Snapshot, off: nat, turn: seq<string>) {
    s.start < |s.cells| && off < |s.cells| && turn == SlotDetails(s.cells, SlotAt(s.start, |s.cells|, off))
  }

  ghost predicate Short(turns: seq<seq<string>>) { forall off: nat :: off < |turns| ==> |turns[off]| <= 33 }

  lemma TurnsAreTurns(s: Snapshot)
    requires Printable(s)
    ensures Turns(s, TurnsOf(s))
  {
    forall off: nat | off < |s.cells| ensures |TurnsOf(s)[off]| <= 33 && IsTurn(s, off, TurnsOf(s)[off]) {
      assert TurnsOf(s)[off] == SlotDetails(s.cells, SlotAt(s.start, |s.cells|, off));
    }
  }

  /** The slot loop, round from the slot to be written next. */
  method DumpTurns(link: Link, id: u32, s: Snapshot, ghost turns: seq<seq<string>>) returns (ok: bool, ordinal: nat)
    requires Printable(s) && Turns(s, turns)
    modifies link
    ensures Carried(old(link.sent), link.sent, id, 0, ordinal, Joined(turns, |turns|), ok)
    ensures !ok ==> link.Failed()
  {
    ordinal := 0;
    assert link.sent + [] == link.sent;
    for off := 0 to |s.cells|
      invariant Carried(old(link.sent), link.sent, id, 0, ordinal, Joined(turns, off), true)
    {
      ok, ordinal := DumpNext(link, id, ordinal, s, off, turns, old(link.sent));
      if !ok {
        return;
      }
    }
    ok := true;
  }

  method DumpSlots(link: Link, id: u32, s: Snapshot) returns (ok: bool, ordinal: nat)
    requires Printable(s)
    modifies link
    ensures Carried(old(link.sent), link.sent, id, 0, ordinal, PersistedDetails(s, |s.cells|), ok)
    ensures !ok ==> link.Failed()
  {
    TurnsAreTurns(s);
    ok, ordinal := DumpTurns(link, id, s, TurnsOf(s));
  }

  lemma {:induction false} JoinedShort(turns: seq<seq<string>>, n: nat)
    requires n <= |turns| && Short(turns)
    ensures |Joined(turns, n)| <= 33 * n
  {
    if n > 0 {
      JoinedShort(turns, n - 1);
    }
  }

  lemma Associate(a: seq<string>, b: seq<string>, c: seq<string>)
    ensures (a + b) + c == a + (b + c)
  {
  }

  lemma {:induction false} JoinedRest(turns: seq<seq<string>>, n: nat) returns (rest: seq<string>)
    requires n <= |turns|
    ensures Joined(turns, |turns|) == Joined(turns, n) + rest
    decreases |turns| - n
  {
    if n == |turns| {
      rest := [];
    } else {
      var later := JoinedRest(turns, n + 1);
      Associate(Joined(turns, n), turns[n], later);
      rest := turns[n] + later;
    }
  }

  /** The link carried the first `done` lines. */
  ghost predicate SentPrefix(before: seq<string>, after: seq<string>, lines: seq<string>, done: nat) {
    done <= |lines| && after == before + lines[..done]
  }

  /** The counts of the begin line, taken in slot order. */
  method CountBlocks(s: Snapshot) returns (blocks: nat, events: nat)
    ensures blocks == Blocks(s.cells, |s.cells|) && events == Events(s.cells, |s.cells|)
  {
    blocks, events := 0, 0;
    for slot := 0 to |s.cells|
      invariant blocks == Blocks(s.cells, slot) && events == Events(s.cells, slot)
    {
      if s.cells[slot].Some? {
        blocks := blocks + 1;
        events := events + |s.cells[slot].value.ev|;
      }
    }
  }

  /** All data lines: the blocks, then the ring. */
  method DumpBody(link: Link, id: u32, s: Snapshot) returns (ok: bool, ordinal: nat)
    requires Printable(s)
    modifies link
    ensures Carried(old(link.sent), link.sent, id, 0, ordinal, PersistedDetails(s, |s.cells|) + RamDetails(s), ok)
    ensures !ok ==> link.Failed()
  {
    ghost var persisted, ram := PersistedDetails(s, |s.cells|), RamDetails(s);
    TurnsAreTurns(s);
    JoinedShort(TurnsOf(s), |s.cells|);
    ok, ordinal := DumpSlots(link, id, s);
    if !ok {
      CarriedPart(old(link.sent), link.sent, id, 0, ordinal, persisted, ram);
      return;
    }
    ghost var sent, n := link.sent, ordinal;
    ok, ordinal := DumpEvents(link, id, ordinal, 'r', 0, s.ringSeq - |s.ring| + 1, s.ring);
    CarriedOn(old(link.sent), sent, link.sent, id, 0, n, ordinal, persisted, ram, ok);
  }

  /** The begin line, which always fits. */
  method SendBegin(link: Link, id: u32, s: Snapshot) returns (ok: bool, expected: nat)
    requires Printable(s)
    modifies link
    ensures expected == |DumpOf(s, id).details|
    ensures link.sent == if ok then old(link.sent) + [V.Line(DumpOf(s, id), 0)] else old(link.sent)
    ensures !ok ==> link.Failed()
  {
    var blocks, events := CountBlocks(s);
    expected := blocks + events + |s.ring|;
    DumpCounts(s, id);
    var begin := Begin(id, expected, blocks, events, |s.ring|, s.ringSeq);
    BeginLineFits(begin);
    assert |PrintBegin(begin)| < LINE_SIZE;
    var err := link.Send(PrintBegin(begin));
    ok := err == 0;
  }

  /** The end line, which always fits. */
  method SendEnd(link: Link, id: u32, lines: u32) returns (ok: bool)
    modifies link
    ensures link.sent == if ok then old(link.sent) + [PrintEnd(End(id, lines))] else old(link.sent)
    ensures !ok ==> link.Failed()
  {
    EndLineFits(End(id, lines));
    assert |PrintEnd(End(id, lines))| < LINE_SIZE;
    var err := link.Send(PrintEnd(End(id, lines)));
    ok := err == 0;
  }

  /** totem_host_event_log_dump after its snapshot: begin line, blocks, ring, end line, stopping at
      the first line that cannot be sent. */
  method PrintSnapshot(link: Link, id: u32, s: Snapshot) returns (done: nat)
    requires Printable(s)
    modifies link
    ensures SentPrefix(old(link.sent), link.sent, AllLines(DumpOf(s, id)), done)
    ensures done < V.Size(DumpOf(s, id)) ==> link.Failed()
  {
    ghost var d := DumpOf(s, id);
    DumpCounts(s, id);
    var ok, expected := SendBegin(link, id, s);
    if !ok {
      NothingSent(link.sent, AllLines(d));
      return 0;
    }
    ghost var sent := link.sent;
    var ordinal;
    ok, ordinal := DumpBody(link, id, s);
    BodyPrefix(d, old(link.sent), sent, link.sent, ordinal, ok);
    done := 1 + ordinal;
    if ok && ordinal == expected {
      sent := link.sent;
      ok := SendEnd(link, id, ordinal);
      if ok {
        EndSent(d, old(link.sent), sent, PrintEnd(End(id, ordinal)));
        done := 2 + ordinal;
      }
    }
  }

  lemma NothingSent(sent: seq<string>, lines: seq<string>)
    ensures SentPrefix(sent, sent, lines, 0)
  {
    assert sent + lines[..0] == sent;
  }

  lemma EndSent(d: V.Dump, before: seq<string>, body: seq<string>, line: string)
    requires SentPrefix(before, body, AllLines(d), V.Size(d) - 1) && line == V.Line(d, V.Size(d) - 1)
    ensures SentPrefix(before, body + [line], AllLines(d), V.Size(d))
  {
    var lines := AllLines(d);
    assert lines[..V.Size(d)] == lines[..V.Size(d) - 1] + [line];
  }

  lemma BodyPrefix(d: V.Dump, before: seq<string>, begun: seq<string>, after: seq<string>, ordinal: nat, ok: bool)
    requires begun == before + [V.Line(d, 0)] && Carried(begun, after, d.id, 0, ordinal, d.details, ok)
    ensures SentPrefix(before, after, AllLines(d), 1 + ordinal)
  {
    assert AllLines(d)[..1 + ordinal] == [V.Line(d, 0)] + DataLines(d.id, 0, d.details[..ordinal]);
  }
}
