/** Every run of the journal: recording, the writer's copy, flash write and commit, power cuts
    at any point (also losing slots for good), redelivery of the slots and the end of loading,
    interleaved in any order (src/host_event_log.c). The ghost history gives every number the
    event it was recorded for. */
module JournalRuns {
  import opened Common
  import opened JournalModel

  datatype Writer = Resting | Writing(b: Block) | Wrote(b: Block, ok: bool)

  /** What an interrupted or failed flash write leaves in its slot. */
  datatype Landing = OldContent | Torn | NewContent

  /** `history[n - 1]` is the event numbered n; `saved` are the numbers that reached flash in an
      intact block, `dropped` those the ring overwrote while they were unsaved. `booted` are
      all events recorded since the last restart, whatever became of them. */
  datatype Sys = Sys(j: Journal, flash: seq<Option<Block>>, w: Writer, delivered: set<nat>,
                     history: seq<Event>, saved: set<nat>, dropped: set<nat>, booted: seq<Event>)

  datatype Action =
    | DoRecord(e: Event, persist: bool)
    | DoSchedule(urgent: bool, at: nat)
    | DoCopy(now: nat)
    | DoWrite(landing: Landing, ok: bool)
    | DoCommit(now: nat)
    | PowerCut(lost: set<nat>, landing: Landing)
    | DoDeliver(slot: nat)
    | DoLoaded

  function Start(c: Config): Sys {
    Sys(Boot(c), seq(c.slots, _ => None), Resting, {}, [], {}, {}, [])
  }

  /** The last n elements, or all of them. */
  function Tail<T>(es: seq<T>, n: nat): seq<T> { if |es| <= n then es else es[|es| - n..] }

  predicate Holds(b: Block, n: nat) { b.first <= n <= Last(b) }

  /** The numbers of a block's events. */
  function Range(b: Block): set<nat> { set n: nat | n <= Last(b) && Holds(b, n) }

  function UpTo(ns: set<nat>, last: nat): set<nat> { set n | n in ns && n <= last }

  function Land(flash: seq<Option<Block>>, b: Block, landing: Landing): seq<Option<Block>>
    requires b.slot < |flash|
  {
    match landing
    case OldContent => flash
    case Torn => flash[b.slot := None]
    case NewContent => flash[b.slot := Some(b)]
  }

  function Without(flash: seq<Option<Block>>, lost: set<nat>): (r: seq<Option<Block>>) {
    seq(|flash|, k requires 0 <= k < |flash| => if k in lost then None else flash[k])
  }

  /** No slot that could not be read holds a newer block than those that were. */
  predicate NewestRead(s: Sys) {
    forall k: nat :: k < |s.flash| && s.flash[k].Some? && k !in s.delivered ==>
      s.flash[k].value.journalSeq < s.j.journalSeq
  }

  /** A save is only reported as successful when the new block is in flash. When the loaded hook
      runs, the newest block has been delivered; older slots may have been unreadable. */
  predicate Enabled(c: Config, s: Sys, a: Action) {
    match a
    case DoRecord(_, _) => true
    case DoSchedule(_, _) => true
    case DoCopy(_) => s.w.Resting? && |s.j.ring| <= s.j.ringSeq
    case DoWrite(landing, ok) =>
      s.w.Writing? && s.w.b.slot < |s.flash| && (ok ==> landing.NewContent?)
    case DoCommit(_) => s.w.Wrote? && s.w.b.slot < c.slots == |s.j.mirror| && 1 <= |s.w.b.ev|
    case PowerCut(_, _) => s.w.Writing? ==> s.w.b.slot < |s.flash|
    case DoDeliver(slot) =>
      && !s.j.ready && slot < |s.flash| && slot !in s.delivered
      && (s.flash[slot].Some? ==>
            s.flash[slot].value.slot < c.slots == |s.j.mirror| && 1 <= |s.flash[slot].value.ev|)
    case DoLoaded =>
      s.j.ready || (s.j.persisted <= |s.history| && NewestRead(s))
  }

  /** The loaded hook: what was recorded early, as far as the ring could hold it, is numbered after
      the restored tail. */
  function Load(c: Config, s: Sys): Sys
    requires s.j.persisted <= |s.history|
  {
    s.(j := Loaded(s.j).0, history := s.history[..s.j.persisted] + Tail(s.booted, c.cap),
       saved := UpTo(s.saved, s.j.persisted), dropped := UpTo(s.dropped, s.j.persisted))
  }

  function Next(c: Config, s: Sys, a: Action): Sys
    requires Enabled(c, s, a)
  {
    match a
    case DoRecord(e, persist) =>
      var oldest := FirstAvailable(s.j);
      var s' := s.(j := Record(c, s.j, e, persist).0, booted := s.booted + [e]);
      if !s.j.ready then s'
      else s'.(history := s.history + [e],
               dropped := if |s.j.ring| == c.cap && oldest > s.j.persisted then s.dropped + {oldest} else s.dropped)
    case DoSchedule(urgent, at) => s.(j := Schedule(c, s.j, urgent, at).0)
    case DoCopy(now) =>
      var (j', out) := Copy(c, s.j, now);
      s.(j := j', w := if out.Copied? then Writing(out.block) else Resting)
    case DoWrite(landing, ok) =>
      s.(flash := Land(s.flash, s.w.b, landing), w := Wrote(s.w.b, ok),
         saved := if landing.NewContent? then s.saved + Range(s.w.b) else s.saved)
    case DoCommit(now) => s.(j := Commit(c, s.j, s.w.b, s.w.ok, now).0, w := Resting)
    case PowerCut(lost, landing) =>
      var cut := s.w.Writing?;
      s.(j := Boot(c), w := Resting, delivered := {}, booted := [],
         flash := Without(if cut then Land(s.flash, s.w.b, landing) else s.flash, lost),
         saved := if cut && landing.NewContent? then s.saved + Range(s.w.b) else s.saved)
    case DoDeliver(slot) =>
      s.(delivered := s.delivered + {slot},
         j := if s.flash[slot].Some? then Deliver(c, s.j, s.flash[slot].value) else s.j)
    case DoLoaded => if s.j.ready then s else Load(c, s)
  }

  /** A run: actions that are not enabled are passed over. */
  function Run(c: Config, s: Sys, actions: seq<Action>): Sys
    decreases actions
  {
    if actions == [] then s
    else Run(c, if Enabled(c, s, actions[0]) then Next(c, s, actions[0]) else s, actions[1..])
  }

  // ----- the order of the blocks -----

  /** How many slots after `start` the slot s is, going round. */
  function Pos(s: nat, start: nat, n: nat): int { if s >= start then s - start else s + n - start }

  ghost predicate Before(a: Block, b: Block) { a.journalSeq < b.journalSeq && Last(a) < b.first }

  /** Read round from `start`, the blocks have increasing journal sequences and disjoint,
      increasing ranges of numbers. */
  ghost predicate InOrder(start: nat, cells: seq<Option<Block>>) {
    forall i: nat, k: nat ::
      (i < |cells| && k < |cells| && cells[i].Some? && cells[k].Some?
       && Pos(i, start, |cells|) < Pos(k, start, |cells|))
      ==> Before(cells[i].value, cells[k].value)
  }

  /** The block holds exactly the events that its numbers stand for. */
  ghost predicate Tells(history: seq<Event>, b: Block) {
    1 <= b.first <= Last(b) <= |history| && b.ev == history[b.first - 1..Last(b)]
  }

  /** Every number up to `n` was saved or overwritten unsaved. */
  ghost predicate Accounted(s: Sys, n: int) {
    forall k: nat :: 1 <= k <= n ==> k in s.saved || k in s.dropped
  }

  ghost predicate GoodCells(c: Config, s: Sys, cells: seq<Option<Block>>) {
    && |cells| == c.slots
    && forall k: nat :: k < c.slots && cells[k].Some? ==> GoodBlock(c, s, k, cells[k].value)
  }

  ghost predicate GoodBlock(c: Config, s: Sys, k: nat, b: Block) {
    b.slot == k && |b.ev| <= c.block && 1 <= b.journalSeq && Tells(s.history, b)
    && (forall n :: n in Range(b) ==> n in s.saved) && Accounted(s, Last(b))
  }

  /** A block that may stand in the slot to be written next, newer than everything mirrored and
      everything in the other slots. */
  ghost predicate Newer(s: Sys, b: Block) {
    && s.j.persisted < b.first && b.journalSeq <= s.j.journalSeq
    && (forall k: nat :: k < |s.flash| && k != b.slot && s.flash[k].Some? ==>
          s.flash[k].value.journalSeq < b.journalSeq)
    && (forall k: nat :: k < |s.j.mirror| && s.j.mirror[k].Some? ==> s.j.mirror[k].value.journalSeq < b.journalSeq)
    && (forall n: nat :: s.j.persisted < n < b.first ==> n in s.dropped)
  }

  ghost predicate RingInv(c: Config, s: Sys) {
    && s.j.ring == Tail(s.booted, c.cap) && s.j.ringSeq == |s.history| && |s.j.ring| <= |s.history|
    && s.j.ring == s.history[|s.history| - |s.j.ring|..]
    && s.j.persisted <= |s.history| && (s.booted == [] ==> s.j.persisted == |s.history|)
    && (forall n: nat :: s.j.persisted < n <= |s.history| - |s.j.ring| ==> n in s.dropped)
  }

  ghost predicate MirrorInv(c: Config, s: Sys) {
    && s.j.nextSlot < c.slots
    && GoodCells(c, s, s.j.mirror)
    && InOrder(s.j.nextSlot, s.j.mirror)
    && Accounted(s, s.j.persisted)
    && AllOld(s.j, s.j.mirror)
  }

  /** The slot to be written next is torn, holds what it held before, or a newer block; the others
      are in order and hold what is mirrored, or a block that could not be read. */
  ghost predicate FlashInv(c: Config, s: Sys) {
    && GoodCells(c, s, s.flash) && |s.j.mirror| == c.slots && s.j.nextSlot < c.slots
    && (forall k: nat :: k < c.slots && k != s.j.nextSlot && s.j.mirror[k].Some? ==> s.flash[k] == s.j.mirror[k])
    && (forall k: nat :: k < c.slots && k != s.j.nextSlot && s.flash[k].Some? ==> Old(s.j, s.flash[k].value))
    && InOrder(s.j.nextSlot, Without(s.flash, {s.j.nextSlot}))
    && (s.flash[s.j.nextSlot].Some? ==>
          || (InOrder(s.j.nextSlot, s.flash) && Old(s.j, s.flash[s.j.nextSlot].value))
          || Newer(s, s.flash[s.j.nextSlot].value))
  }

  ghost predicate AllOld(j: Journal, cells: seq<Option<Block>>) {
    forall k: nat :: k < |cells| && cells[k].Some? ==> Old(j, cells[k].value)
  }

  ghost predicate Old(j: Journal, b: Block) { b.journalSeq <= j.journalSeq && Last(b) <= j.persisted }

  ghost predicate WriterInv(c: Config, s: Sys) {
    !s.w.Resting? ==>
      && s.w.b.slot == s.j.nextSlot && 1 <= |s.w.b.ev| <= c.block && 1 <= s.w.b.journalSeq
      && Tells(s.history, s.w.b) && Newer(s, s.w.b)
      && (s.w.Wrote? && s.w.ok ==> s.j.nextSlot < |s.flash| && s.flash[s.j.nextSlot] == Some(s.w.b))
  }

  ghost predicate ReadyInv(c: Config, s: Sys) {
    s.j.ready && RingInv(c, s) && MirrorInv(c, s) && FlashInv(c, s) && WriterInv(c, s)
  }

  /** The journal's counters are those of the newest block among the mirrored ones. */
  ghost predicate Restored(c: Config, j: Journal) {
    && |j.mirror| == c.slots
    && (forall k: nat :: k < c.slots && j.mirror[k].Some? ==>
          j.mirror[k].value.journalSeq <= j.journalSeq && Last(j.mirror[k].value) <= j.persisted)
    && ((j.journalSeq == 0 && j.nextSlot == 0 && j.persisted == 0 && forall k: nat :: k < c.slots ==> j.mirror[k].None?)
        || exists m: nat, p: nat :: NewestAt(c, j, m, p))
  }

  ghost predicate NewestAt(c: Config, j: Journal, m: nat, p: nat) {
    && m < c.slots == |j.mirror| && p < c.slots && j.mirror[m].Some? && j.mirror[p].Some?
    && j.journalSeq == j.mirror[m].value.journalSeq && j.nextSlot == Wrap(m + 1, c.slots)
    && j.persisted == Last(j.mirror[p].value)
  }

  /** A boot before the end of loading, whatever the blocks in flash say. */
  ghost predicate CleanBoot(c: Config, s: Sys) {
    && !s.j.ready && s.w.Resting? && |s.flash| == c.slots
    && (forall k: nat :: k < c.slots && s.flash[k].Some? ==> Shaped(k, s.flash[k].value))
    && Restored(c, s.j)
    && forall k: nat :: k < c.slots ==> s.j.mirror[k] == if k in s.delivered then s.flash[k] else None
  }

  predicate Shaped(k: nat, b: Block) { b.slot == k && 1 <= |b.ev| && 1 <= b.first && 1 <= b.journalSeq }

  ghost predicate BootInv(c: Config, s: Sys) {
    && CleanBoot(c, s)
    && s.j.ring == Tail(s.booted, c.cap) && |s.j.ring| <= s.j.ringSeq
    && GoodCells(c, s, s.flash)
    && exists r: nat :: r < c.slots && InOrder(r, s.flash)
  }

  ghost predicate Inv(c: Config, s: Sys) { if s.j.ready then ReadyInv(c, s) else BootInv(c, s) }

  // ----- each step keeps the invariant -----

  lemma GoodCellsKept(c: Config, s: Sys, s': Sys, cells: seq<Option<Block>>)
    requires GoodCells(c, s, cells)
    requires s.saved <= s'.saved && s.dropped <= s'.dropped
    requires |s.history| <= |s'.history| && s'.history[..|s.history|] == s.history
    ensures GoodCells(c, s', cells)
  {
    forall k: nat | k < c.slots && cells[k].Some? ensures GoodBlock(c, s', k, cells[k].value) {
      TellsKept(s.history, s'.history, cells[k].value);
    }
  }

  lemma TellsKept(h: seq<Event>, h': seq<Event>, b: Block)
    requires Tells(h, b) && Last(b) <= |h'| && h'[..Last(b)] == h[..Last(b)]
    ensures Tells(h', b)
  {
    assert h'[b.first - 1..Last(b)] == h'[..Last(b)][b.first - 1..];
    assert h[b.first - 1..Last(b)] == h[..Last(b)][b.first - 1..];
  }

  /** What a step that leaves the slots alone keeps of them. */
  ghost predicate SameSlots(s: Sys, s': Sys) {
    && s'.flash == s.flash && s'.j.mirror == s.j.mirror && s'.j.nextSlot == s.j.nextSlot
    && s'.j.persisted == s.j.persisted && s.j.journalSeq <= s'.j.journalSeq
    && s.saved <= s'.saved && s.dropped <= s'.dropped && s.history <= s'.history
  }

  lemma MirrorInvKept(c: Config, s: Sys, s': Sys)
    requires MirrorInv(c, s) && SameSlots(s, s')
    ensures MirrorInv(c, s')
  {
    GoodCellsKept(c, s, s', s.j.mirror);
  }

  lemma FlashInvKept(c: Config, s: Sys, s': Sys)
    requires FlashInv(c, s) && SameSlots(s, s')
    ensures FlashInv(c, s')
  {
    GoodCellsKept(c, s, s', s.flash);
    if s.flash[s.j.nextSlot].Some? && Newer(s, s.flash[s.j.nextSlot].value) {
      NewerKept(s, s', s.flash[s.j.nextSlot].value);
    }
  }

  lemma NewerKept(s: Sys, s': Sys, b: Block)
    requires Newer(s, b) && SameSlots(s, s')
    ensures Newer(s', b)
  {
  }

  lemma WriterInvKept(c: Config, s: Sys, s': Sys)
    requires WriterInv(c, s) && SameSlots(s, s') && s'.w == s.w
    ensures WriterInv(c, s')
  {
    if !s.w.Resting? {
      TellsKept(s.history, s'.history, s.w.b);
      NewerKept(s, s', s.w.b);
    }
  }

  lemma TailAppend(c: Config, es: seq<Event>, e: Event)
    requires ValidConfig(c)
    ensures Append(c, Tail(es, c.cap), e) == Tail(es + [e], c.cap)
  {
    var n := c.cap;
    if |es| >= n {
      assert (es + [e])[|es| + 1 - n..] == es[|es| + 1 - n..] + [e];
      assert es[|es| - n..][1..] == es[|es| - n + 1..];
    }
  }

  lemma RecordKeepsRing(c: Config, s: Sys, e: Event, persist: bool)
    requires ValidConfig(c) && s.j.ready && RingInv(c, s)
    ensures RingInv(c, Next(c, s, DoRecord(e, persist)))
  {
    TailAppend(c, s.booted, e);
  }

  lemma RecordKeepsReady(c: Config, s: Sys, e: Event, persist: bool)
    requires ValidConfig(c) && ReadyInv(c, s)
    ensures ReadyInv(c, Next(c, s, DoRecord(e, persist)))
  {
    var s' := Next(c, s, DoRecord(e, persist));
    RecordKeepsRing(c, s, e, persist);
    MirrorInvKept(c, s, s');
    FlashInvKept(c, s, s');
    WriterInvKept(c, s, s');
  }

  lemma RecordKeeps(c: Config, s: Sys, e: Event, persist: bool)
    requires ValidConfig(c) && Inv(c, s)
    ensures Inv(c, Next(c, s, DoRecord(e, persist)))
  {
    if s.j.ready {
      RecordKeepsReady(c, s, e, persist);
    } else {
      var s' := Next(c, s, DoRecord(e, persist));
      TailAppend(c, s.booted, e);
      GoodCellsKept(c, s, s', s.flash);
      RestoredKept(c, s.j, s'.j);
    }
  }

  lemma RestoredKept(c: Config, j: Journal, j': Journal)
    requires Restored(c, j)
    requires j'.mirror == j.mirror && j'.journalSeq == j.journalSeq
    requires j'.nextSlot == j.nextSlot && j'.persisted == j.persisted
    ensures Restored(c, j')
  {
    if m: nat, p: nat :| NewestAt(c, j, m, p) {
      assert NewestAt(c, j', m, p);
    }
  }

  /** The copied block holds the oldest unsaved events that the ring still has. */
  lemma CopiedBlock(c: Config, s: Sys, now: nat)
    requires ValidConfig(c) && ReadyInv(c, s) && Copy(c, s.j, now).1.Copied?
    ensures var b := Copy(c, s.j, now).1.block;
      && b.slot == s.j.nextSlot && 1 <= |b.ev| <= c.block && Tells(s.history, b)
      && b.first == FirstNew(s.j) && b.journalSeq == s.j.journalSeq + 1
  {
    var b := Copy(c, s.j, now).1.block;
    var h := s.history;
    assert h[|h| - |s.j.ring|..][b.first - FirstAvailable(s.j)..][..|b.ev|] == h[b.first - 1..Last(b)];
  }

  lemma CopyKeepsWriter(c: Config, s: Sys, now: nat)
    requires ValidConfig(c) && ReadyInv(c, s) && Enabled(c, s, DoCopy(now))
    ensures WriterInv(c, Next(c, s, DoCopy(now)))
  {
    if Next(c, s, DoCopy(now)).w.Writing? {
      CopiedBlock(c, s, now);
    }
  }

  lemma CopyKeeps(c: Config, s: Sys, now: nat)
    requires ValidConfig(c) && Inv(c, s) && Enabled(c, s, DoCopy(now))
    ensures Inv(c, Next(c, s, DoCopy(now)))
  {
    var s' := Next(c, s, DoCopy(now));
    if s.j.ready {
      MirrorInvKept(c, s, s');
      FlashInvKept(c, s, s');
      CopyKeepsWriter(c, s, now);
    } else {
      GoodCellsKept(c, s, s', s.flash);
    }
  }

  lemma WriteKeepsFlash(c: Config, s: Sys, landing: Landing, ok: bool)
    requires ValidConfig(c) && ReadyInv(c, s) && Enabled(c, s, DoWrite(landing, ok))
    ensures FlashInv(c, Next(c, s, DoWrite(landing, ok)))
  {
    var s' := Next(c, s, DoWrite(landing, ok));
    GoodCellsKept(c, s, s', s.flash);
    assert Without(s'.flash, {s.j.nextSlot}) == Without(s.flash, {s.j.nextSlot});
    if landing.NewContent? {
      assert GoodBlock(c, s', s.w.b.slot, s.w.b);
    }
  }

  lemma WriteKeeps(c: Config, s: Sys, landing: Landing, ok: bool)
    requires ValidConfig(c) && Inv(c, s) && Enabled(c, s, DoWrite(landing, ok))
    ensures Inv(c, Next(c, s, DoWrite(landing, ok)))
  {
    var s' := Next(c, s, DoWrite(landing, ok));
    GoodCellsKept(c, s, s', s.j.mirror);
    WriteKeepsFlash(c, s, landing, ok);
  }

  /** The newest block goes into the slot that reading starts from; reading then starts after it. */
  lemma InOrderPush(start: nat, cells: seq<Option<Block>>, b: Block)
    requires start < |cells| && InOrder(start, cells)
    requires forall k: nat :: k < |cells| && cells[k].Some? ==> Before(cells[k].value, b)
    ensures InOrder(Wrap(start + 1, |cells|), cells[start := Some(b)])
  {
    var cells' := cells[start := Some(b)];
    var n := |cells|;
    var start' := Wrap(start + 1, n);
    forall k: nat | k < n && k != start
      ensures Pos(k, start', n) == Pos(k, start, n) - 1 && cells'[k] == cells[k]
    {
    }
    assert Pos(start, start', n) == n - 1;
  }

  lemma InOrderFewer(start: nat, cells: seq<Option<Block>>, fewer: seq<Option<Block>>)
    requires InOrder(start, cells) && |fewer| == |cells|
    requires forall k: nat :: k < |cells| && fewer[k].Some? ==> fewer[k] == cells[k]
    ensures InOrder(start, fewer)
  {
  }

  lemma MirroredBefore(c: Config, s: Sys, b: Block)
    requires MirrorInv(c, s) && Newer(s, b)
    ensures forall k: nat :: k < c.slots && s.j.mirror[k].Some? ==> Before(s.j.mirror[k].value, b)
  {
  }

  /** A newer block in the slot to be written next: flash is in order from the slot after it. */
  lemma NewerInOrder(c: Config, s: Sys, b: Block)
    requires FlashInv(c, s) && b.slot == s.j.nextSlot && Newer(s, b)
    ensures InOrder(Wrap(s.j.nextSlot + 1, c.slots), s.flash[s.j.nextSlot := Some(b)])
  {
    var f := s.j.nextSlot;
    var others := Without(s.flash, {f});
    InOrderPush(f, others, b);
    assert others[f := Some(b)] == s.flash[f := Some(b)];
  }

  lemma CommitKeepsCells(c: Config, s: Sys, now: nat)
    requires ValidConfig(c) && ReadyInv(c, s) && Enabled(c, s, DoCommit(now)) && s.w.ok
    ensures GoodCells(c, Next(c, s, DoCommit(now)), s.j.mirror[s.w.b.slot := Some(s.w.b)])
    ensures Accounted(s, Last(s.w.b))
  {
    GoodCellsKept(c, s, Next(c, s, DoCommit(now)), s.j.mirror);
    assert GoodBlock(c, s, s.j.nextSlot, s.w.b);
  }

  lemma CommittedBounds(cells: seq<Option<Block>>, j: Journal, j': Journal, b: Block)
    requires b.slot < |cells| && b.journalSeq <= j'.journalSeq && j.journalSeq <= j'.journalSeq
    requires j.persisted <= j'.persisted == Last(b) && AllOld(j, cells)
    ensures AllOld(j', cells[b.slot := Some(b)])
  {
  }

  lemma CommitKeepsMirror(c: Config, s: Sys, now: nat)
    requires ValidConfig(c) && ReadyInv(c, s) && Enabled(c, s, DoCommit(now)) && s.w.ok
    ensures MirrorInv(c, Next(c, s, DoCommit(now)))
  {
    CommitKeepsCells(c, s, now);
    MirroredBefore(c, s, s.w.b);
    InOrderPush(s.j.nextSlot, s.j.mirror, s.w.b);
    CommittedBounds(s.j.mirror, s.j, Next(c, s, DoCommit(now)).j, s.w.b);
  }

  lemma CommitKeepsFlash(c: Config, s: Sys, now: nat)
    requires ValidConfig(c) && ReadyInv(c, s) && Enabled(c, s, DoCommit(now)) && s.w.ok
    ensures FlashInv(c, Next(c, s, DoCommit(now)))
  {
    var s' := Next(c, s, DoCommit(now));
    GoodCellsKept(c, s, s', s.flash);
    NewerInOrder(c, s, s.w.b);
    assert s.flash[s.j.nextSlot := Some(s.w.b)] == s.flash;
    CommittedFlash(c, s.flash, s.j, s'.j, s.w.b);
    InOrderFewer(s'.j.nextSlot, s.flash, Without(s.flash, {s'.j.nextSlot}));
  }

  /** After a commit everything in flash is old, and what is mirrored of it is the same. */
  lemma CommittedFlash(c: Config, cells: seq<Option<Block>>, j: Journal, j': Journal, b: Block)
    requires |cells| == |j.mirror| == c.slots && b.slot == j.nextSlot < c.slots && cells[b.slot] == Some(b)
    requires forall k: nat :: k < c.slots && k != j.nextSlot && j.mirror[k].Some? ==> cells[k] == j.mirror[k]
    requires forall k: nat :: k < c.slots && k != j.nextSlot && cells[k].Some? ==> Old(j, cells[k].value)
    requires j.persisted < b.first <= Last(b) == j'.persisted && b.journalSeq <= j.journalSeq == j'.journalSeq
    requires j'.mirror == j.mirror[b.slot := Some(b)]
    ensures forall k: nat :: k < c.slots && j'.mirror[k].Some? ==> cells[k] == j'.mirror[k]
    ensures forall k: nat :: k < c.slots && cells[k].Some? ==> Old(j', cells[k].value)
  {
  }

  lemma CommitKeeps(c: Config, s: Sys, now: nat)
    requires ValidConfig(c) && Inv(c, s) && Enabled(c, s, DoCommit(now))
    ensures Inv(c, Next(c, s, DoCommit(now)))
  {
    if s.w.ok {
      CommitKeepsMirror(c, s, now);
      CommitKeepsFlash(c, s, now);
    } else {
      MirrorInvKept(c, s, Next(c, s, DoCommit(now)));
      FlashInvKept(c, s, Next(c, s, DoCommit(now)));
    }
  }

  lemma CutOrder(c: Config, s: Sys)
    requires ValidConfig(c) && ReadyInv(c, s)
    ensures exists r: nat :: r < c.slots && InOrder(r, s.flash)
  {
    var f := s.j.nextSlot;
    if s.flash[f].None? {
      assert Without(s.flash, {f}) == s.flash;
    } else if !InOrder(f, s.flash) {
      NewerInOrder(c, s, s.flash[f].value);
      assert s.flash[f := s.flash[f]] == s.flash;
    }
  }

  /** What the power cut leaves of slots that can be restored can be restored. */
  lemma LostKeeps(c: Config, s: Sys, s': Sys, lost: set<nat>)
    requires ValidConfig(c) && GoodCells(c, s, s.flash) && exists r: nat :: r < c.slots && InOrder(r, s.flash)
    requires s' == s.(j := Boot(c), w := Resting, delivered := {}, booted := [], flash := Without(s.flash, lost))
    ensures BootInv(c, s')
  {
    var r: nat :| r < c.slots && InOrder(r, s.flash);
    InOrderFewer(r, s.flash, s'.flash);
    GoodCellsKept(c, s, s', s.flash);
  }

  /** A power cut, at rest or during a write, leaves slots that can be restored. */
  lemma CutKeeps(c: Config, s: Sys, lost: set<nat>, landing: Landing)
    requires ValidConfig(c) && Inv(c, s) && Enabled(c, s, PowerCut(lost, landing))
    ensures Inv(c, Next(c, s, PowerCut(lost, landing)))
  {
    var s1 := if s.w.Writing? then Next(c, s, DoWrite(landing, landing.NewContent?)) else s;
    if s.w.Writing? {
      WriteKeeps(c, s, landing, landing.NewContent?);
    }
    if s.j.ready {
      CutOrder(c, s1);
    }
    LostKeeps(c, s1, Next(c, s, PowerCut(lost, landing)), lost);
  }

  lemma DeliverKeepsClean(c: Config, s: Sys, slot: nat)
    requires ValidConfig(c) && CleanBoot(c, s) && Enabled(c, s, DoDeliver(slot))
    ensures CleanBoot(c, Next(c, s, DoDeliver(slot)))
  {
    if s.flash[slot].Some? {
      RestoredStep(c, s.j, s.flash[slot].value);
    }
  }

  lemma DeliverKeeps(c: Config, s: Sys, slot: nat)
    requires ValidConfig(c) && Inv(c, s) && Enabled(c, s, DoDeliver(slot))
    ensures Inv(c, Next(c, s, DoDeliver(slot)))
  {
    DeliverKeepsClean(c, s, slot);
    GoodCellsKept(c, s, Next(c, s, DoDeliver(slot)), s.flash);
  }

  lemma RestoredStep(c: Config, j: Journal, b: Block)
    requires ValidConfig(c) && Restored(c, j) && b.slot < c.slots && j.mirror[b.slot].None?
    requires 1 <= |b.ev| && 1 <= b.first && 1 <= b.journalSeq
    ensures Restored(c, Deliver(c, j, b))
  {
    var j' := Deliver(c, j, b);
    var m: nat, p: nat := b.slot, b.slot;
    if x: nat, y: nat :| NewestAt(c, j, x, y) {
      m := if b.journalSeq >= j.journalSeq then b.slot else x;
      p := if Last(b) > j.persisted then b.slot else y;
    }
    assert NewestAt(c, j', m, p);
  }

  /** Reading round from the slot after the newest block, what was in some order is in order, and
      the others are before the newest. */
  lemma RestoredOrder(cells: seq<Option<Block>>, r: nat, m: nat)
    requires r < |cells| && m < |cells| && InOrder(r, cells) && cells[m].Some?
    requires forall k: nat :: k < |cells| && cells[k].Some? ==> cells[k].value.journalSeq <= cells[m].value.journalSeq
    ensures InOrder(Wrap(m + 1, |cells|), cells)
    ensures forall k: nat :: k < |cells| && k != m && cells[k].Some? ==> Before(cells[k].value, cells[m].value)
  {
    forall k: nat | k < |cells| && cells[k].Some? ensures Pos(k, r, |cells|) <= Pos(m, r, |cells|) {
    }
    forall k: nat | k < |cells| && k != m ensures Pos(k, r, |cells|) != Pos(m, r, |cells|) {
    }
  }

  /** With the newest block read, all blocks in flash are in order from the next slot and saved. */
  lemma NewestReadOrders(c: Config, s: Sys)
    requires ValidConfig(c) && BootInv(c, s) && NewestRead(s)
    ensures s.j.nextSlot < c.slots && InOrder(s.j.nextSlot, s.flash) && s.j.persisted <= |s.history|
    ensures forall k: nat :: k < c.slots && s.flash[k].Some? ==> Old(s.j, s.flash[k].value)
    ensures s.j.persisted > 0 ==>
              exists p: nat :: p < c.slots && s.flash[p].Some? && Last(s.flash[p].value) == s.j.persisted
  {
    var r: nat :| r < c.slots && InOrder(r, s.flash);
    if m: nat, p: nat :| NewestAt(c, s.j, m, p) {
      assert s.flash[m] == s.j.mirror[m] && s.flash[p] == s.j.mirror[p];
      assert GoodBlock(c, s, p, s.flash[p].value) && GoodBlock(c, s, m, s.flash[m].value);
      forall k: nat | k < c.slots && s.flash[k].Some?
        ensures s.flash[k].value.journalSeq <= s.flash[m].value.journalSeq
      {
        assert k in s.delivered ==> s.flash[k] == s.j.mirror[k];
      }
      RestoredOrder(s.flash, r, m);
    } else {
      forall k: nat | k < c.slots ensures s.flash[k].None? {
        assert s.j.mirror[k].None?;
        assert s.flash[k].Some? ==> GoodBlock(c, s, k, s.flash[k].value);
      }
    }
  }

  lemma LoadedKeeps(c: Config, s: Sys)
    requires ValidConfig(c) && Inv(c, s) && Enabled(c, s, DoLoaded)
    ensures Inv(c, Next(c, s, DoLoaded))
  {
    if !s.j.ready {
      NewestReadOrders(c, s);
      LoadedAccounted(c, s);
      LoadedCells(c, s);
      LoadedSlots(c, s);
    }
  }

  lemma LoadedAccounted(c: Config, s: Sys)
    requires ValidConfig(c) && BootInv(c, s) && NewestRead(s) && s.j.persisted <= |s.history|
    ensures Accounted(Load(c, s), s.j.persisted)
  {
    NewestReadOrders(c, s);
    if s.j.persisted > 0 {
      var p: nat :| p < c.slots && s.flash[p].Some? && Last(s.flash[p].value) == s.j.persisted;
      assert GoodBlock(c, s, p, s.flash[p].value);
    }
  }

  lemma LoadedSlots(c: Config, s: Sys)
    requires ValidConfig(c) && BootInv(c, s) && NewestRead(s) && s.j.persisted <= |s.history|
    requires GoodCells(c, Load(c, s), s.flash) && GoodCells(c, Load(c, s), s.j.mirror)
    requires Accounted(Load(c, s), s.j.persisted)
    ensures MirrorInv(c, Load(c, s)) && FlashInv(c, Load(c, s))
  {
    NewestReadOrders(c, s);
    InOrderFewer(s.j.nextSlot, s.flash, s.j.mirror);
    InOrderFewer(s.j.nextSlot, s.flash, Without(s.flash, {s.j.nextSlot}));
  }

  lemma LoadedCells(c: Config, s: Sys)
    requires ValidConfig(c) && BootInv(c, s) && NewestRead(s) && s.j.persisted <= |s.history|
    ensures GoodCells(c, Load(c, s), s.flash) && GoodCells(c, Load(c, s), s.j.mirror)
  {
    var s' := Load(c, s);
    NewestReadOrders(c, s);
    forall k: nat | k < c.slots && s.flash[k].Some? ensures GoodBlock(c, s', k, s.flash[k].value) {
      assert s'.history[..Last(s.flash[k].value)] == s.history[..Last(s.flash[k].value)];
      TellsKept(s.history, s'.history, s.flash[k].value);
    }
  }

  lemma StepKeeps(c: Config, s: Sys, a: Action)
    requires ValidConfig(c) && Inv(c, s) && Enabled(c, s, a)
    ensures Inv(c, Next(c, s, a))
  {
    match a
    case DoRecord(e, persist) => RecordKeeps(c, s, e, persist);
    case DoSchedule(urgent, at) => ScheduleKeeps(c, s, urgent, at);
    case DoCopy(now) => CopyKeeps(c, s, now);
    case DoWrite(landing, ok) => WriteKeeps(c, s, landing, ok);
    case DoCommit(now) => CommitKeeps(c, s, now);
    case PowerCut(lost, landing) => CutKeeps(c, s, lost, landing);
    case DoDeliver(slot) => DeliverKeeps(c, s, slot);
    case DoLoaded => LoadedKeeps(c, s);
  }

  lemma ScheduleKeeps(c: Config, s: Sys, urgent: bool, at: nat)
    requires ValidConfig(c) && Inv(c, s)
    ensures Inv(c, Next(c, s, DoSchedule(urgent, at)))
  {
    var s' := Next(c, s, DoSchedule(urgent, at));
    if s.j.ready {
      MirrorInvKept(c, s, s');
      FlashInvKept(c, s, s');
      WriterInvKept(c, s, s');
    } else {
      GoodCellsKept(c, s, s', s.flash);
      RestoredKept(c, s.j, s'.j);
    }
  }

  lemma {:induction false} RunKeeps(c: Config, s: Sys, actions: seq<Action>)
    requires ValidConfig(c) && Inv(c, s)
    ensures Inv(c, Run(c, s, actions))
    decreases actions
  {
    if actions != [] {
      if Enabled(c, s, actions[0]) {
        StepKeeps(c, s, actions[0]);
        RunKeeps(c, Next(c, s, actions[0]), actions[1..]);
      } else {
        RunKeeps(c, s, actions[1..]);
      }
    }
  }

  lemma StartGood(c: Config)
    requires ValidConfig(c)
    ensures Inv(c, Start(c))
  {
    assert InOrder(0, Start(c).flash);
  }

  // ----- what every run guarantees -----

  /** The blocks read round the slots from `nextSlot` are in order, each holds exactly the events
      its numbers were recorded for, no number is in two blocks, the ring is the tail of the
      history and of what was recorded since the restart, as far as its capacity goes, and every
      number up to the last saved one was saved or had been overwritten in the ring before a save
      succeeded. */
  ghost predicate HistoryTold(c: Config, s: Sys) {
    && |s.j.mirror| == c.slots && InOrder(s.j.nextSlot, s.j.mirror)
    && (forall k: nat :: k < c.slots && s.j.mirror[k].Some? ==> ExactEvents(s, s.j.mirror[k].value))
    && (forall k: nat, l: nat :: k < l < c.slots && s.j.mirror[k].Some? && s.j.mirror[l].Some?
          ==> Range(s.j.mirror[k].value) !! Range(s.j.mirror[l].value))
    && s.j.ring == Tail(s.booted, c.cap) && |s.j.ring| <= s.j.ringSeq == |s.history|
    && s.j.ring == s.history[|s.history| - |s.j.ring|..]
    && (forall n: nat :: 1 <= n <= s.j.persisted ==> n in s.saved || n in s.dropped)
  }

  ghost predicate ExactEvents(s: Sys, b: Block) {
    1 <= b.first <= Last(b) <= s.j.persisted <= |s.history| &&
    forall i :: 0 <= i < |b.ev| ==> b.ev[i] == s.history[b.first + i - 1]
  }

  lemma JournalTellsHistory(c: Config, actions: seq<Action>)
    requires ValidConfig(c)
    ensures Run(c, Start(c), actions).j.ready ==> HistoryTold(c, Run(c, Start(c), actions))
  {
    StartGood(c);
    RunKeeps(c, Start(c), actions);
    if Run(c, Start(c), actions).j.ready {
      ReadyTellsHistory(c, Run(c, Start(c), actions));
    }
  }

  lemma ReadyTellsHistory(c: Config, s: Sys)
    requires ValidConfig(c) && ReadyInv(c, s)
    ensures HistoryTold(c, s)
  {
    forall k: nat | k < c.slots && s.j.mirror[k].Some? ensures ExactEvents(s, s.j.mirror[k].value) {
      assert GoodBlock(c, s, k, s.j.mirror[k].value);
    }
    forall k: nat, l: nat | k < l < c.slots && s.j.mirror[k].Some? && s.j.mirror[l].Some?
      ensures Range(s.j.mirror[k].value) !! Range(s.j.mirror[l].value)
    {
      assert Pos(k, s.j.nextSlot, c.slots) != Pos(l, s.j.nextSlot, c.slots);
    }
  }

  // ----- events recorded before the end of loading -----

  /** The events recorded since the last power cut, in order. */
  function Recorded(actions: seq<Action>): seq<Event> {
    if actions == [] then []
    else
      var front := Recorded(actions[..|actions| - 1]);
      match actions[|actions| - 1]
      case DoRecord(e, _) => front + [e]
      case PowerCut(_, _) => []
      case _ => front
  }

  lemma {:induction false} RunAppend(c: Config, s: Sys, a: seq<Action>, b: seq<Action>)
    ensures Run(c, s, a + b) == Run(c, Run(c, s, a), b)
    decreases |a|
  {
    if a == [] {
      assert a + b == b;
    } else {
      assert (a + b)[1..] == a[1..] + b;
      RunAppend(c, if Enabled(c, s, a[0]) then Next(c, s, a[0]) else s, a[1..], b);
    }
  }

  lemma RunOne(c: Config, s: Sys, a: Action)
    ensures Run(c, s, [a]) == if Enabled(c, s, a) then Next(c, s, a) else s
  {
    assert [a][1..] == [];
  }

  lemma {:induction false} BootedIsRecorded(c: Config, actions: seq<Action>)
    requires ValidConfig(c)
    ensures Run(c, Start(c), actions).booted == Recorded(actions)
    decreases |actions|
  {
    if actions != [] {
      var front, last := actions[..|actions| - 1], actions[|actions| - 1];
      assert front + [last] == actions;
      BootedIsRecorded(c, front);
      RunAppend(c, Start(c), front, [last]);
      RunOne(c, Run(c, Start(c), front), last);
      StartGood(c);
      RunKeeps(c, Start(c), front);
      GuardsAreControlFlow(c, Run(c, Start(c), front));
    }
  }

  predicate NoCut(actions: seq<Action>) { forall i :: 0 <= i < |actions| ==> !actions[i].PowerCut? }

  /** Once loading is done, no number changes its event until the power goes. */
  lemma {:induction false} NumbersStay(c: Config, s: Sys, actions: seq<Action>)
    requires ValidConfig(c) && ReadyInv(c, s) && NoCut(actions)
    ensures var s1 := Run(c, s, actions); ReadyInv(c, s1) && s.history <= s1.history
    decreases |actions|
  {
    if actions != [] {
      if Enabled(c, s, actions[0]) {
        StepKeeps(c, s, actions[0]);
        NumbersStay(c, Next(c, s, actions[0]), actions[1..]);
      } else {
        NumbersStay(c, s, actions[1..]);
      }
    }
  }

  /** In every run that reaches the end of loading: the events recorded since the power came, as far
      as the ring could hold them, get the numbers after the restored tail in the order in which
      they were recorded, the restored numbers keep their events, and whatever happens until the
      power goes, a second end of loading included, no number is given to another event. */
  lemma EarlyEventsFollowTail(c: Config, boot: seq<Action>, more: seq<Action>)
    requires ValidConfig(c) && NoCut(more)
    requires !Run(c, Start(c), boot).j.ready && NewestRead(Run(c, Start(c), boot))
    ensures
      var s, s1 := Run(c, Start(c), boot), Run(c, Start(c), boot + [DoLoaded] + more);
      var early := Tail(Recorded(boot), c.cap);
      && s1.j.ready && HistoryTold(c, s1)
      && s.j.persisted <= |s.history| && s.history[..s.j.persisted] + early <= s1.history
      && (more == [] ==> s1.j.ringSeq == s.j.persisted + |early|)
  {
    StartGood(c);
    RunKeeps(c, Start(c), boot);
    BootedIsRecorded(c, boot);
    var s := Run(c, Start(c), boot);
    NewestReadOrders(c, s);
    LoadedKeeps(c, s);
    RunOne(c, s, DoLoaded);
    RunAppend(c, Start(c), boot, [DoLoaded]);
    RunAppend(c, Start(c), boot + [DoLoaded], more);
    NumbersStay(c, Load(c, s), more);
    ReadyTellsHistory(c, Run(c, Load(c, s), more));
  }

  /** Every block in flash keeps its numbers over the end of loading, also if it could not be read. */
  lemma RestoredBlocksKeepNumbers(c: Config, s: Sys)
    requires ValidConfig(c) && BootInv(c, s) && NewestRead(s)
    ensures Enabled(c, s, DoLoaded) &&
      forall k: nat :: k < c.slots && s.flash[k].Some? ==> ExactEvents(Next(c, s, DoLoaded), s.flash[k].value)
  {
    NewestReadOrders(c, s);
    LoadedCells(c, s);
    forall k: nat | k < c.slots && s.flash[k].Some? ensures ExactEvents(Load(c, s), s.flash[k].value) {
      assert GoodBlock(c, Load(c, s), k, s.flash[k].value);
    }
  }

  /** In every reachable state the guards only ask for what the code's own control flow asks. */
  lemma GuardsAreControlFlow(c: Config, s: Sys)
    requires ValidConfig(c) && Inv(c, s)
    ensures forall now: nat :: Enabled(c, s, DoCopy(now)) <==> s.w.Resting?
    ensures forall landing: Landing, ok ::
              Enabled(c, s, DoWrite(landing, ok)) <==> s.w.Writing? && (ok ==> landing.NewContent?)
    ensures forall now: nat :: Enabled(c, s, DoCommit(now)) <==> s.w.Wrote?
    ensures forall lost: set<nat>, landing: Landing :: Enabled(c, s, PowerCut(lost, landing))
    ensures forall k: nat :: Enabled(c, s, DoDeliver(k)) <==> !s.j.ready && k < c.slots && k !in s.delivered
    ensures Enabled(c, s, DoLoaded) <==>
              (s.j.ready || NewestRead(s))
  {
    if !s.j.ready {
      if NewestRead(s) {
        NewestReadOrders(c, s);
      }
      forall k: nat | k < c.slots && s.flash[k].Some? ensures GoodBlock(c, s, k, s.flash[k].value) {
      }
    }
  }

  // ----- one power cut during a write -----

  function Deliveries(order: seq<nat>): seq<Action> {
    if order == [] then [] else [DoDeliver(order[0])] + Deliveries(order[1..])
  }

  /** What deliveries leave alone, and what they mark. */
  ghost predicate Delivered(c: Config, s: Sys, order: seq<nat>, s': Sys) {
    && s' == s.(j := s'.j, delivered := s'.delivered)
    && s'.j.ring == s.j.ring && s'.j.ringSeq == s.j.ringSeq && s.delivered <= s'.delivered
    && forall k: nat :: k < c.slots && k in order ==> k in s'.delivered
  }

  lemma DeliveryStep(c: Config, s: Sys, slot: nat) returns (s': Sys)
    requires ValidConfig(c) && CleanBoot(c, s)
    ensures s' == if Enabled(c, s, DoDeliver(slot)) then Next(c, s, DoDeliver(slot)) else s
    ensures CleanBoot(c, s') && Delivered(c, s, [slot], s')
  {
    if Enabled(c, s, DoDeliver(slot)) {
      DeliverKeepsClean(c, s, slot);
      s' := Next(c, s, DoDeliver(slot));
    } else {
      s' := s;
    }
  }

  lemma {:induction false} DeliveriesRun(c: Config, s: Sys, order: seq<nat>, rest: seq<Action>) returns (s': Sys)
    requires ValidConfig(c) && CleanBoot(c, s)
    ensures CleanBoot(c, s') && Delivered(c, s, order, s')
    ensures Run(c, s, Deliveries(order) + rest) == Run(c, s', rest)
    decreases order
  {
    if order == [] {
      assert Deliveries(order) + rest == rest;
      s' := s;
    } else {
      assert (Deliveries(order) + rest)[1..] == Deliveries(order[1..]) + rest;
      var s1 := DeliveryStep(c, s, order[0]);
      s' := DeliveriesRun(c, s1, order[1..], rest);
      DeliveredTwice(c, s, order, s1, s');
    }
  }

  lemma DeliveredTwice(c: Config, s: Sys, order: seq<nat>, s1: Sys, s2: Sys)
    requires order != [] && Delivered(c, s, [order[0]], s1) && Delivered(c, s1, order[1..], s2)
    ensures Delivered(c, s, order, s2)
  {
    forall k: nat | k < c.slots && k in order ensures k in s2.delivered {
      assert k in [order[0]] || k in order[1..];
    }
  }

  /** What a cut write may leave after the restart: every other slot as it was, with what was
      mirrored of it, the slot being written with the new block, its old content or nothing, and the
      history continuing from the last number saved in any of them. */
  ghost predicate CutRestored(c: Config, s: Sys, b: Block, landing: Landing, s': Sys)
    requires b.slot < |s.flash| == c.slots
  {
    && s'.j.ready && s'.j.mirror == s'.flash == Land(s.flash, b, landing) && |s'.j.mirror| == |s.j.mirror|
    && (forall k: nat :: k < |s.j.mirror| && k != b.slot && s.j.mirror[k].Some? ==> s'.j.mirror[k] == s.j.mirror[k])
    && s'.j.persisted <= |s.history| && s'.history == s.history[..s'.j.persisted]
    && (landing.NewContent? ==> s'.j.persisted == Last(b) && s'.j.journalSeq == b.journalSeq
                                && s'.j.nextSlot == Wrap(b.slot + 1, c.slots))
  }

  lemma LoadAfterDelivery(c: Config, s: Sys, landing: Landing, order: seq<nat>, s1: Sys, s2: Sys)
    requires ValidConfig(c) && ReadyInv(c, s) && s.w.Writing?
    requires forall k: nat :: k < c.slots ==> k in order
    requires s1 == Next(c, s, PowerCut({}, landing)) && BootInv(c, s2) && Delivered(c, s1, order, s2)
    ensures Enabled(c, s2, DoLoaded) && CutRestored(c, s, s.w.b, landing, Next(c, s2, DoLoaded))
  {
    GuardsAreControlFlow(c, s2);
    assert s1.flash == Land(s.flash, s.w.b, landing);
    assert s2.j.mirror == s2.flash;
    if landing.NewContent? {
      NewestWins(c, s, s2.j);
    }
    assert s2.history[..s2.j.persisted] + [] == s2.history[..s2.j.persisted];
  }

  /** A cut write restores either the new block or every block but the one being overwritten,
      never a mix, whatever the order in which the slots are delivered. */
  lemma CutWriteRestores(c: Config, s: Sys, landing: Landing, order: seq<nat>)
    requires ValidConfig(c) && ReadyInv(c, s) && s.w.Writing?
    requires forall k: nat :: k < c.slots ==> k in order
    ensures CutRestored(c, s, s.w.b, landing, Run(c, s, [PowerCut({}, landing)] + (Deliveries(order) + [DoLoaded])))
  {
    var cut := PowerCut({}, landing);
    CutKeeps(c, s, {}, landing);
    var s1 := Next(c, s, cut);
    var rest := Deliveries(order) + [DoLoaded];
    assert ([cut] + rest)[1..] == rest;
    var s2 := DeliveriesRun(c, s1, order, [DoLoaded]);
    GoodCellsKept(c, s1, s2, s2.flash);
    LoadAfterDelivery(c, s, landing, order, s1, s2);
    assert [DoLoaded][1..] == [];
    assert Run(c, s2, [DoLoaded]) == Next(c, s2, DoLoaded);
  }

  lemma NewestWins(c: Config, s: Sys, j: Journal)
    requires ValidConfig(c) && ReadyInv(c, s) && s.w.Writing? && Restored(c, j)
    requires j.mirror == s.flash[s.w.b.slot := Some(s.w.b)]
    ensures j.persisted == Last(s.w.b) && j.journalSeq == s.w.b.journalSeq
    ensures j.nextSlot == Wrap(s.w.b.slot + 1, c.slots)
  {
    assert j.mirror[s.w.b.slot] == Some(s.w.b);
    forall k: nat | k < c.slots && j.mirror[k].Some? && k != s.w.b.slot
      ensures Before(j.mirror[k].value, s.w.b)
    {
      assert j.mirror[k] == s.flash[k];
    }
  }
}
