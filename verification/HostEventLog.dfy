/** The journal's static state and its critical sections (src/host_event_log.c), over the
    circular RAM ring and the arrays of restored blocks. Every method is tied to the function
    of module JournalModel that says what it does to the journal's value. */
module HostEventLog {
  import opened Common
  import opened JournalModel

  const BLOCK_MAGIC: u32 := 0x54444C47
  const BLOCK_VERSION: u16 := 1
  const ENOENT := 2

  /** Everything of a flash block that its checksum covers; `ev` has the full block size. */
  datatype Body = Body(magic: u32, version: u16, slot: u8, count: u8, journalSeq: nat, first: nat, ev: seq<Event>)

  datatype Raw = Raw(body: Body, crc: u32)

  /** The size of a stored block in bytes. */
  function BlockBytes(c: Config): nat { 20 + 10 * c.block }

  const NO_EVENT := Event(0, 0, 0, 0, 0, 0, 0)

  function BlockOf(b: Body): Block {
    Block(b.slot, b.journalSeq, b.first, if b.count <= |b.ev| then b.ev[..b.count] else b.ev)
  }

  /** The checks that a stored block must pass; the checksum is any function of the body. */
  predicate Accepted(c: Config, crcOf: Body -> u32, slot: nat, rc: int, raw: Raw) {
    && raw.body.magic == BLOCK_MAGIC
    && raw.body.version == BLOCK_VERSION
    && raw.body.slot == slot
    && 1 <= raw.body.count <= c.block
    && rc == BlockBytes(c)
    && raw.crc == crcOf(raw.body)
  }

  /** The ring's content, oldest first. */
  function Ordered(a: seq<Event>, head: nat, count: nat): (r: seq<Event>)
    requires count <= |a| && head < |a|
  {
    seq(count, i requires 0 <= i < count => a[Wrap(Wrap(head + |a| - count, |a|) + i, |a|)])
  }

  function MirrorOf(blocks: seq<Raw>, valid: seq<bool>): (m: seq<Option<Block>>)
    requires |blocks| == |valid|
  {
    seq(|valid|, s requires 0 <= s < |valid| => if valid[s] then Some(BlockOf(blocks[s].body)) else None)
  }

  /** Writing at the head of a ring with room appends. */
  lemma OrderedGrows(a: seq<Event>, head: nat, count: nat, e: Event)
    requires head < |a| && count < |a|
    ensures Ordered(a[head := e], Wrap(head + 1, |a|), count + 1) == Ordered(a, head, count) + [e]
  {
    var n := |a|;
    var start := Wrap(head + n - count, n);
    assert Wrap(Wrap(head + 1, n) + n - (count + 1), n) == start;
    var after, expected := Ordered(a[head := e], Wrap(head + 1, n), count + 1), Ordered(a, head, count) + [e];
    forall i | 0 <= i <= count ensures after[i] == expected[i] {
      assert after[i] == a[head := e][Wrap(start + i, n)];
      assert Wrap(start + i, n) == head <==> i == count;
    }
  }

  /** Writing at the head of a full ring replaces the oldest event. */
  lemma OrderedTurns(a: seq<Event>, head: nat, e: Event)
    requires head < |a|
    ensures Ordered(a[head := e], Wrap(head + 1, |a|), |a|) == Ordered(a, head, |a|)[1..] + [e]
  {
    var n := |a|;
    var start := Wrap(head + 1, n);
    assert Wrap(head + n - n, n) == head && Wrap(start + n - n, n) == start;
    var before, after := Ordered(a, head, n), Ordered(a[head := e], start, n);
    var expected := before[1..] + [e];
    forall i | 0 <= i < n ensures after[i] == expected[i] {
      assert after[i] == a[head := e][Wrap(start + i, n)];
      assert Wrap(start + i, n) == head <==> i == n - 1;
      assert i < n - 1 ==> expected[i] == before[i + 1] == a[Wrap(head + (i + 1), n)];
      assert i < n - 1 ==> Wrap(start + i, n) == Wrap(head + (i + 1), n);
    }
  }

  /** Writing at the head appends, or replaces the oldest event of a full ring. */
  lemma OrderedAppend(c: Config, a: seq<Event>, head: nat, count: nat, e: Event)
    requires |a| == c.cap && head < |a| && count <= |a|
    ensures Ordered(a[head := e], Wrap(head + 1, |a|), if count < |a| then count + 1 else count)
         == Append(c, Ordered(a, head, count), e)
  {
    if count < |a| {
      OrderedGrows(a, head, count, e);
    } else {
      OrderedTurns(a, head, e);
    }
  }

  /** The local variables of the scan over the restored blocks. */
  datatype Scan = Scan(uptimeSeq: nat, uptime: u32, profileSeq: nat, profile: i8, endpointSeq: nat, endpoint: i8)

  /** The scan has kept the highest-numbered event of each kind among those seen. */
  ghost predicate Scanned(x: Scan, seen: seq<(nat, Event)>) {
    && x.uptimeSeq == NumberOf(Best(AnyEvent, seen)) && x.uptime == UptimeOf(Best(AnyEvent, seen))
    && x.profileSeq == NumberOf(Best(CarriesProfile, seen)) && x.profile == ProfileOf(Best(CarriesProfile, seen))
    && x.endpointSeq == NumberOf(Best(CarriesEndpoint, seen)) && x.endpoint == EndpointOf(Best(CarriesEndpoint, seen))
  }

  function NumberOf(r: Option<(nat, Event)>): nat { if r.Some? then r.value.0 else 0 }

  lemma ScannedStep(x: Scan, seen: seq<(nat, Event)>, n: nat, e: Event)
    requires Scanned(x, seen)
    ensures Scanned(
      Scan(if n > x.uptimeSeq then n else x.uptimeSeq, if n > x.uptimeSeq then e.uptime else x.uptime,
           if CarriesProfile(e) && n > x.profileSeq then n else x.profileSeq,
           if CarriesProfile(e) && n > x.profileSeq then e.active else x.profile,
           if CarriesEndpoint(e) && n > x.endpointSeq then n else x.endpointSeq,
           if CarriesEndpoint(e) && n > x.endpointSeq then SignedByte(e.extra) else x.endpoint),
      seen + [(n, e)])
  {
    BestAppend(AnyEvent, seen, (n, e));
    BestAppend(CarriesProfile, seen, (n, e));
    BestAppend(CarriesEndpoint, seen, (n, e));
  }

  /** The scan has seen the first k slots. */
  ghost predicate ScannedSlots(x: Scan, mirror: seq<Option<Block>>, k: nat) {
    k <= |mirror| && Scanned(x, Flat(mirror, k))
  }

  /** A scan of all slots has found what the previous boot's last saved events say. */
  lemma ScannedIsPrevious(x: Scan, mirror: seq<Option<Block>>)
    requires ScannedSlots(x, mirror, |mirror|)
    ensures PreviousState(mirror, x.uptime, x.profile, x.endpoint)
  {
    var seen := Flat(mirror, |mirror|);
    BestIsLatest(mirror, AnyEvent);
    BestIsLatest(mirror, CarriesProfile);
    BestIsLatest(mirror, CarriesEndpoint);
    assert PreviousFrom(mirror, Best(AnyEvent, seen), Best(CarriesProfile, seen), Best(CarriesEndpoint, seen),
                        x.uptime, x.profile, x.endpoint);
  }

  /** The scan has seen some events and n more. */
  ghost predicate ScannedTo(x: Scan, seen: seq<(nat, Event)>, all: seq<(nat, Event)>, n: nat) {
    n <= |all| && Scanned(x, seen + all[..n])
  }

  lemma ScannedNone(x: Scan, seen: seq<(nat, Event)>, all: seq<(nat, Event)>)
    requires Scanned(x, seen)
    ensures ScannedTo(x, seen, all, 0)
  {
    assert seen + all[..0] == seen;
  }

  lemma ScannedAll(x: Scan, seen: seq<(nat, Event)>, all: seq<(nat, Event)>)
    requires ScannedTo(x, seen, all, |all|)
    ensures Scanned(x, seen + all)
  {
    assert all[..|all|] == all;
  }

  lemma NumberedNext(seen: seq<(nat, Event)>, all: seq<(nat, Event)>, n: nat)
    requires n < |all|
    ensures seen + all[..n] + [all[n]] == seen + all[..n + 1]
  {
  }

  class Log {
    const c: Config
    const crcOf: Body -> u32
    const ring: array<Event>
    var ringHead: nat
    var ringCount: nat
    var ringSeq: nat
    var persistedSeq: nat
    var journalSeq: nat
    var nextSlot: nat
    var sincePersist: nat
    var lastPersist: nat
    var requested: bool
    var ready: bool
    var persistBlock: Raw
    const restored: array<Raw>
    const restoredValid: array<bool>

    /** Valid, but for the content of one slot. */
    ghost predicate ValidBut(slot: nat)
      reads this, ring, restored, restoredValid
    {
      && ValidConfig(c)
      && ring.Length == c.cap
      && restored.Length == restoredValid.Length == c.slots
      && ringHead < c.cap && ringCount <= c.cap && ringCount <= ringSeq
      && nextSlot < c.slots
      && forall s :: 0 <= s < c.slots && s != slot && restoredValid[s] ==>
           restored[s].body.slot == s && 1 <= restored[s].body.count <= c.block == |restored[s].body.ev|
    }

    ghost function AbsBut(mirror: seq<Option<Block>>): Journal
      reads this, ring
      requires ring.Length == c.cap && ringHead < c.cap && ringCount <= c.cap
    {
      Journal(Ordered(ring[..], ringHead, ringCount), ringSeq, persistedSeq, journalSeq, nextSlot,
              sincePersist, lastPersist, requested, ready, mirror)
    }

    ghost predicate Valid()
      reads this, ring, restored, restoredValid
    {
      ValidBut(c.slots)
    }

    ghost function Abs(): Journal
      reads this, ring, restored, restoredValid
      requires Valid()
    {
      AbsBut(MirrorOf(restored[..], restoredValid[..]))
    }

    constructor (c: Config, crcOf: Body -> u32)
      requires ValidConfig(c)
      ensures this.c == c && Valid() && Abs() == Boot(c)
      ensures fresh(ring) && fresh(restored) && fresh(restoredValid)
    {
      this.c, this.crcOf := c, crcOf;
      ring := new Event[c.cap](_ => NO_EVENT);
      ringHead, ringCount, ringSeq, persistedSeq, journalSeq := 0, 0, 0, 0, 0;
      nextSlot, sincePersist, lastPersist, requested, ready := 0, 0, 0, false, false;
      var blank := Raw(Body(0, 0, 0, 0, 0, 0, []), 0);
      persistBlock := blank;
      restored := new Raw[c.slots](_ => blank);
      restoredValid := new bool[c.slots](_ => false);
    }

    /** ring_get_ordered: the oldest-first copy that a dump prints. */
    method RingGetOrdered(out: array<Event>) returns (n: nat)
      requires Valid() && out.Length == c.cap && out != ring
      modifies out
      ensures n == ringCount && out[..n] == Abs().ring
      ensures Abs() == old(Abs())
    {
      n := ringCount;
      if n == 0 {
        return;
      }
      WrapIsMod(ringHead + c.cap - n, c.cap);
      var start := (ringHead + c.cap - n) % c.cap;
      for i := 0 to n
        invariant out[..i] == Ordered(ring[..], ringHead, ringCount)[..i]
      {
        WrapIsMod(start + i, c.cap);
        out[i] := ring[(start + i) % c.cap];
      }
    }

    /** record_event, under the ring lock. */
    method Record(e: Event, persist: bool) returns (need: bool)
      requires Valid()
      modifies this, ring
      ensures Valid() && (Abs(), need) == JournalModel.Record(c, old(Abs()), e, persist)
    {
      OrderedAppend(c, ring[..], ringHead, ringCount, e);
      WrapIsMod(ringHead + 1, c.cap);
      assert ring[..][ringHead := e] == ring[..ringHead] + [e] + ring[ringHead + 1..];
      ring[ringHead] := e;
      ringHead := (ringHead + 1) % c.cap;
      if ringCount < c.cap {
        ringCount := ringCount + 1;
      }
      ringSeq := ringSeq + 1;
      if persist {
        sincePersist := sincePersist + 1;
      }
      need := persist && sincePersist >= c.every;
      if need {
        sincePersist := 0;
      }
    }

    /** schedule_persist_coalesced, under the ring lock. */
    method SchedulePersist(urgent: bool, now: nat) returns (wait: Option<int>)
      requires Valid()
      modifies this`requested
      ensures Valid() && (Abs(), wait) == Schedule(c, old(Abs()), urgent, now)
    {
      requested := true;
      if !ready {
        return None;
      }
      var elapsed := now - lastPersist;
      var ms := if urgent then 0 else c.minMs;
      if lastPersist != 0 && elapsed < c.minMs {
        ms := c.minMs - elapsed;
      }
      return Some(ms);
    }

    /** The block that is about to be written decodes to what was copied and would be accepted. */
    ghost predicate Sealed()
      reads this
    {
      && persistBlock.body.slot < c.slots
      && |persistBlock.body.ev| == c.block
      && Accepted(c, crcOf, persistBlock.body.slot, BlockBytes(c), persistBlock)
    }

    /** totem_host_event_log_persist up to the first unlock: the oldest unsaved events that the
        ring still holds are copied into the block buffer. */
    method CopyBlock(now: int) returns (out: CopyOutcome)
      requires Valid()
      modifies this
      ensures Valid() && (Abs(), out) == Copy(c, old(Abs()), now)
      ensures out.Copied? ==> Sealed() && BlockOf(persistBlock.body) == out.block
    {
      if !ready {
        return NotReady;
      }
      if lastPersist != 0 && now - lastPersist < c.minMs {
        return TooSoon;
      }
      var firstAvailable := if ringCount != 0 then ringSeq - ringCount + 1 else ringSeq + 1;
      var firstNew := persistedSeq + 1;
      if firstNew < firstAvailable {
        firstNew := firstAvailable;
      }
      if firstNew > ringSeq {
        requested := false;
        return NothingNew;
      }
      var pending := ringSeq - firstNew + 1;
      var count := Min(pending, c.block);
      FillBlock(firstNew, firstNew - firstAvailable, count);
      out := Copied(BlockOf(persistBlock.body));
    }

    /** The oldest events from `offset` on go into the next numbered block, with its checksum. */
    method FillBlock(first: nat, offset: nat, count: nat)
      requires Valid() && 1 <= count <= c.block && offset + count <= ringCount
      modifies this`journalSeq, this`persistBlock, this`requested
      ensures Valid() && Sealed()
      ensures Abs() == old(Abs()).(journalSeq := old(journalSeq) + 1, requested := false)
      ensures BlockOf(persistBlock.body) == Block(nextSlot, journalSeq, first, Abs().ring[offset..offset + count])
    {
      WrapIsMod(ringHead + c.cap - ringCount, c.cap);
      var start := (ringHead + c.cap - ringCount) % c.cap;
      journalSeq := journalSeq + 1;
      var ev := CopyEvents(start, offset, count);
      var body := Body(BLOCK_MAGIC, BLOCK_VERSION, nextSlot, count, journalSeq, first, ev);
      persistBlock := Raw(body, crcOf(body));
      requested := false;
    }

    /** The copy loop; the rest of the fixed-size block stays zero. */
    method CopyEvents(start: nat, offset: nat, count: nat) returns (ev: seq<Event>)
      requires Valid() && start == Wrap(ringHead + c.cap - ringCount, c.cap)
      requires offset + count <= ringCount && count <= c.block
      ensures |ev| == c.block
      ensures ev[..count] == Abs().ring[offset..offset + count]
      ensures forall i :: count <= i < c.block ==> ev[i] == NO_EVENT
    {
      ev := seq(c.block, _ => NO_EVENT);
      for i := 0 to count
        invariant |ev| == c.block
        invariant forall k :: 0 <= k < i ==> ev[k] == Abs().ring[offset + k]
        invariant forall k :: i <= k < c.block ==> ev[k] == NO_EVENT
      {
        WrapIsMod(start + (offset + i), c.cap);
        ev := ev[i := ring[(start + (offset + i)) % c.cap]];
      }
    }

    /** totem_host_event_log_persist from the second lock, once the flash write has returned. */
    method CommitBlock(ok: bool, now: nat) returns (more: bool)
      requires Valid() && Sealed()
      modifies this`lastPersist, this`requested, this`persistedSeq, this`nextSlot, restored, restoredValid
      ensures Valid()
      ensures (Abs(), more) == Commit(c, old(Abs()), BlockOf(persistBlock.body), ok, now)
    {
      lastPersist := now;
      if !ok {
        requested := true;
      } else {
        Mirror();
      }
      more := requested || ringSeq > persistedSeq;
    }

    /** A block that was written becomes the saved tail. */
    method Mirror()
      requires Valid() && Sealed()
      modifies this`persistedSeq, this`nextSlot, restored, restoredValid
      ensures var b := BlockOf(persistBlock.body);
        && Valid()
        && Abs() == old(Abs()).(persisted := Last(b), mirror := old(Abs()).mirror[b.slot := Some(b)],
                                nextSlot := Wrap(b.slot + 1, c.slots))
    {
      var slot := persistBlock.body.slot;
      persistedSeq := persistBlock.body.first + persistBlock.body.count - 1;
      restored[slot] := persistBlock;
      restoredValid[slot] := true;
      WrapIsMod(slot + 1, c.slots);
      nextSlot := (slot + 1) % c.slots;
      assert MirrorOf(restored[..], restoredValid[..]) == old(Abs()).mirror[slot := Some(BlockOf(persistBlock.body))];
    }

    /** The slot that a settings key under "th" names, if it names one. */
    static function KeySlot(name: string): Option<nat> {
      if |name| == 6 && name[..5] == "dlog/" && '0' <= name[5] <= '9'
      then Some(name[5] as int - '0' as int) else None
    }

    /** A delivery that is read into the buffer of a slot. */
    predicate Targets(name: string, len: nat) {
      KeySlot(name).Some? && KeySlot(name).value < c.slots && len == BlockBytes(c)
    }

    /** hevt_settings_set: `rc` and `raw` are what the read callback returns and leaves in the slot's
        buffer. Only a whole block of this slot, format and size whose checksum matches is taken. A bad
        value for a slot that was valid before, delivered twice in one boot, stays marked as valid: that
        is the only case in which unvalidated content is kept. */
    method SettingsSet(name: string, len: nat, rc: int, raw: Raw) returns (result: int)
      requires Valid() && |raw.body.ev| == c.block
      modifies this`journalSeq, this`nextSlot, this`persistedSeq, restored, restoredValid
      ensures result == if KeySlot(name).None? then -ENOENT else if Targets(name, len) && rc < 0 then rc else 0
      ensures !Targets(name, len) ==> Valid() && Abs() == old(Abs()) && restoredValid[..] == old(restoredValid[..])
      ensures Targets(name, len) && raw.crc == crcOf(raw.body) && raw.body.magic == 0x54444C47 && raw.body.version == 1
              && raw.body.slot == KeySlot(name).value && 1 <= raw.body.count <= c.block && rc == BlockBytes(c) ==>
                Valid() && Abs() == Deliver(c, old(Abs()), BlockOf(raw.body))
      ensures Targets(name, len) && (raw.crc != crcOf(raw.body) || raw.body.magic != 0x54444C47
              || raw.body.version != 1 || raw.body.slot != KeySlot(name).value || raw.body.count == 0
              || raw.body.count > c.block || rc != BlockBytes(c)) ==>
                && restored[..] == old(restored[..])[KeySlot(name).value := raw]
                && restoredValid[..] == old(restoredValid[..])
                && journalSeq == old(journalSeq) && nextSlot == old(nextSlot) && persistedSeq == old(persistedSeq)
                && (!old(restoredValid[KeySlot(name).value]) ==> Valid() && Abs() == old(Abs()))
    {
      var key := KeySlot(name);
      if key.None? {
        return -ENOENT;
      }
      var slot := key.value;
      if slot >= c.slots || len != BlockBytes(c) {
        return 0;
      }
      restored[slot] := raw;
      if rc < 0 {
        assert !restoredValid[slot] ==> MirrorOf(restored[..], restoredValid[..]) == old(Abs()).mirror;
        return rc;
      }
      if !Accepted(c, crcOf, slot, rc, raw) {
        assert !restoredValid[slot] ==> MirrorOf(restored[..], restoredValid[..]) == old(Abs()).mirror;
        return 0;
      }
      AcceptSlot(slot, old(Abs()));
      return 0;
    }

    /** The buffered content of a slot passed validation. `before` is the journal before it was read. */
    method AcceptSlot(slot: nat, ghost before: Journal)
      requires ValidBut(slot) && slot < c.slots && restored[slot].body.slot == slot
      requires 1 <= restored[slot].body.count <= c.block == |restored[slot].body.ev|
      requires before == AbsBut(before.mirror) && |before.mirror| == c.slots
      requires forall s :: 0 <= s < c.slots && s != slot ==>
                 before.mirror[s] == MirrorOf(restored[..], restoredValid[..])[s]
      modifies this`journalSeq, this`nextSlot, this`persistedSeq, restoredValid
      ensures Valid() && Abs() == Deliver(c, before, BlockOf(restored[slot].body))
    {
      var block := restored[slot].body;
      restoredValid[slot] := true;
      assert MirrorOf(restored[..], restoredValid[..]) == before.mirror[slot := Some(BlockOf(block))];
      if block.journalSeq >= journalSeq {
        journalSeq := block.journalSeq;
        WrapIsMod(slot + 1, c.slots);
        nextSlot := (slot + 1) % c.slots;
      }
      var lastEvent := block.first + block.count - 1;
      if lastEvent > persistedSeq {
        persistedSeq := lastEvent;
      }
    }

    /** zmk_settings_loaded: number the early events after the saved tail, and report what the
        highest-numbered saved events say about the previous boot. */
    method SettingsLoaded() returns (uptime: u32, profile: i8, endpoint: i8, pending: bool)
      requires Valid()
      modifies this`ringSeq, this`ready
      ensures Valid() && (Abs(), pending) == Loaded(old(Abs()))
      ensures !old(ready) ==> PreviousState(Abs().mirror, uptime, profile, endpoint)
    {
      uptime, profile, endpoint := 0, -1, -1;
      if !ready {
        uptime, profile, endpoint := ScanRestored();
        ringSeq := persistedSeq + ringCount;
        ready := true;
      }
      pending := ringSeq > persistedSeq;
    }

    method ScanRestored() returns (uptime: u32, profile: i8, endpoint: i8)
      requires Valid()
      ensures PreviousState(Abs().mirror, uptime, profile, endpoint)
    {
      var scan := Scan(0, 0, 0, -1, 0, -1);
      ghost var mirror := Abs().mirror;
      for slot := 0 to c.slots
        invariant ScannedSlots(scan, mirror, slot)
      {
        scan := ScanSlot(slot, scan, mirror);
      }
      uptime, profile, endpoint := scan.uptime, scan.profile, scan.endpoint;
      ScannedIsPrevious(scan, mirror);
    }

    /** One turn of the outer loop. */
    method ScanSlot(slot: nat, before: Scan, ghost mirror: seq<Option<Block>>) returns (scan: Scan)
      requires Valid() && slot < c.slots && mirror == Abs().mirror && ScannedSlots(before, mirror, slot)
      ensures ScannedSlots(scan, mirror, slot + 1)
    {
      if !restoredValid[slot] {
        assert Flat(mirror, slot) + [] == Flat(mirror, slot);
        return before;
      }
      assert mirror[slot] == Some(BlockOf(restored[slot].body));
      scan := ScanBlock(restored[slot].body, before, Flat(mirror, slot));
    }

    /** The inner loop over one restored block. */
    method ScanBlock(block: Body, before: Scan, ghost seen: seq<(nat, Event)>) returns (scan: Scan)
      requires block.count <= |block.ev| && Scanned(before, seen)
      ensures Scanned(scan, seen + Numbered(BlockOf(block)))
    {
      scan := before;
      ghost var all := Numbered(BlockOf(block));
      ScannedNone(scan, seen, all);
      for n := 0 to block.count
        invariant ScannedTo(scan, seen, all, n)
      {
        assert all[n] == (block.first + n, block.ev[n]);
        scan := ScanNext(block.ev[n], block.first + n, scan, seen, all, n);
      }
      ScannedAll(scan, seen, all);
    }

    /** The n-th event of it. */
    method ScanNext(event: Event, number: nat, before: Scan, ghost seen: seq<(nat, Event)>,
                    ghost all: seq<(nat, Event)>, ghost n: nat) returns (scan: Scan)
      requires ScannedTo(before, seen, all, n) && n < |all| && all[n] == (number, event)
      ensures ScannedTo(scan, seen, all, n + 1)
    {
      scan := ScanEvent(event, number, before, seen + all[..n]);
      NumberedNext(seen, all, n);
    }

    /** One event of it. */
    method ScanEvent(event: Event, number: nat, before: Scan, ghost seen: seq<(nat, Event)>) returns (scan: Scan)
      requires Scanned(before, seen)
      ensures Scanned(scan, seen + [(number, event)])
    {
      ScannedStep(before, seen, number, event);
      scan := before;
      if number > scan.uptimeSeq {
        scan := scan.(uptime := event.uptime, uptimeSeq := number);
      }
      var hasProfile := 1 <= event.kind <= 13 || 20 <= event.kind <= 27;
      if hasProfile && event.active >= 0 && number > scan.profileSeq {
        scan := scan.(profile := event.active, profileSeq := number);
      }
      if event.kind == 16 && event.reason == 255 && number > scan.endpointSeq {
        scan := scan.(endpoint := SignedByte(event.extra), endpointSeq := number);
      }
    }
  }

  /** The key that a slot's block is saved under, in the handler's own subtree. */
  function KeyOf(slot: nat): string
    requires slot < 10
  {
    "dlog/" + ['0' + slot as char]
  }

  /** The keys that name a slot, and the deliveries that are read, are exactly those of saves. */
  lemma KeysExactly(log: Log, name: string, len: nat)
    ensures forall slot: nat :: Log.KeySlot(name) == Some(slot) <==> slot < 10 && name == KeyOf(slot)
    ensures log.Targets(name, len) <==>
              len == 20 + 10 * log.c.block && exists slot: nat :: slot < 10 && slot < log.c.slots && name == KeyOf(slot)
  {
    forall slot: nat ensures Log.KeySlot(name) == Some(slot) <==> slot < 10 && name == KeyOf(slot) {
      if Log.KeySlot(name) == Some(slot) {
        assert name == name[..5] + [name[5]];
      }
      if slot < 10 && name == KeyOf(slot) {
        assert name[..5] == "dlog/";
      }
    }
    if Log.KeySlot(name).Some? {
      assert name == KeyOf(Log.KeySlot(name).value);
    }
  }

  /** A save and the next boot's read of it: the block copied by one journal, delivered whole under the
      key of its slot, is restored by another exactly as it was copied. */
  method SaveAndRestore(saver: Log, reader: Log, now: int) returns (out: CopyOutcome)
    requires saver.Valid() && reader.Valid() && saver.c == reader.c && saver.crcOf == reader.crcOf
    requires saver != reader && saver.ring != reader.ring && saver.restored != reader.restored
    requires saver.restoredValid != reader.restoredValid
    modifies saver, reader, reader.restored, reader.restoredValid
    ensures saver.Valid() && (saver.Abs(), out) == Copy(saver.c, old(saver.Abs()), now)
    ensures reader.Valid() && reader.Abs() == if out.Copied? then Deliver(reader.c, old(reader.Abs()), out.block)
                                              else old(reader.Abs())
  {
    out := saver.CopyBlock(now);
    if out.Copied? {
      var bytes := BlockBytes(saver.c);
      var result := reader.SettingsSet(KeyOf(saver.persistBlock.body.slot), bytes, bytes, saver.persistBlock);
      assert result == 0;
    }
  }
}
