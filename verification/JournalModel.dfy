/** The diagnostic journal as a value: what each critical section of
    src/host_event_log.c does to the ring, the counters and the mirror of the flash slots.
    Sequence numbers, the journal sequence and the uptime stay below the wrap of their C
    types, so they are natural numbers here. */
module JournalModel {
  import opened Common

  datatype Event = Event(uptime: u32, kind: u8, idx: i8, active: i8, reason: u8, win: u8, extra: u8)

  /** The build-time sizes, with the ranges that Kconfig allows. */
  datatype Config = Config(cap: nat, block: nat, slots: nat, every: nat, minMs: nat)

  predicate ValidConfig(c: Config) {
    && 32 <= c.cap <= 1024
    && 8 <= c.block <= 32
    && 4 <= c.slots <= 8
    && 1 <= c.every <= 128
    && 5000 <= c.minMs <= 600000
  }

  /** One journal block: the events numbered first, first + 1, ... */
  datatype Block = Block(slot: nat, journalSeq: nat, first: nat, ev: seq<Event>)

  function Last(b: Block): int { b.first + |b.ev| - 1 }

  /** `ring` is oldest first; `mirror[s]` is the restored or last saved block of slot s. */
  datatype Journal = Journal(
    ring: seq<Event>, ringSeq: nat, persisted: nat, journalSeq: nat, nextSlot: nat,
    since: nat, last: nat, requested: bool, ready: bool, mirror: seq<Option<Block>>)

  function Boot(c: Config): Journal {
    Journal([], 0, 0, 0, 0, 0, 0, false, false, seq(c.slots, _ => None))
  }

  function Append(c: Config, ring: seq<Event>, e: Event): seq<Event> {
    if |ring| < c.cap then ring + [e] else if ring == [] then [] else ring[1..] + [e]
  }

  /** record_event up to the unlock; the flag asks for an urgent save. */
  function Record(c: Config, j: Journal, e: Event, persist: bool): (Journal, bool) {
    var since := if persist then j.since + 1 else j.since;
    var need := persist && since >= c.every;
    (j.(ring := Append(c, j.ring, e), ringSeq := j.ringSeq + 1, since := if need then 0 else since), need)
  }

  /** schedule_persist_coalesced up to the unlock: the wait in ms handed to the work queue. */
  function Schedule(c: Config, j: Journal, urgent: bool, now: nat): (Journal, Option<int>) {
    var elapsed := now - j.last;
    var wait := if j.last != 0 && elapsed < c.minMs then c.minMs - elapsed
                else if urgent then 0 else c.minMs;
    (j.(requested := true), if j.ready then Some(wait) else None)
  }

  /** The number of the oldest event still in the ring. */
  function FirstAvailable(j: Journal): int { j.ringSeq - |j.ring| + 1 }

  function FirstNew(j: Journal): int { Max(j.persisted + 1, FirstAvailable(j)) }

  datatype CopyOutcome = NotReady | TooSoon | NothingNew | Copied(block: Block)

  /** The first critical section of totem_host_event_log_persist. */
  function Copy(c: Config, j: Journal, now: int): (Journal, CopyOutcome)
    requires |j.ring| <= j.ringSeq
  {
    if !j.ready then (j, NotReady)
    else if j.last != 0 && now - j.last < c.minMs then (j, TooSoon)
    else if FirstNew(j) > j.ringSeq then (j.(requested := false), NothingNew)
    else
      var first := FirstNew(j);
      var count := Min(j.ringSeq - first + 1, c.block);
      var offset := first - FirstAvailable(j);
      var block := Block(j.nextSlot, j.journalSeq + 1, first, j.ring[offset..offset + count]);
      (j.(journalSeq := j.journalSeq + 1, requested := false), Copied(block))
  }

  /** The second critical section, after the flash write of `b`; the flag asks for more. */
  function Commit(c: Config, j: Journal, b: Block, ok: bool, now: nat): (Journal, bool)
    requires b.slot < c.slots == |j.mirror| && 1 <= |b.ev|
  {
    var j' := if ok then j.(persisted := Last(b), mirror := j.mirror[b.slot := Some(b)],
                            nextSlot := Wrap(b.slot + 1, c.slots), last := now)
              else j.(requested := true, last := now);
    (j', j'.requested || j'.ringSeq > j'.persisted)
  }

  /** hevt_settings_set on a slot whose content passed validation. */
  function Deliver(c: Config, j: Journal, b: Block): Journal
    requires b.slot < c.slots == |j.mirror| && 1 <= |b.ev|
  {
    var j1 := j.(mirror := j.mirror[b.slot := Some(b)]);
    var j2 := if b.journalSeq >= j.journalSeq
              then j1.(journalSeq := b.journalSeq, nextSlot := Wrap(b.slot + 1, c.slots)) else j1;
    if Last(b) > j.persisted then j2.(persisted := Last(b)) else j2
  }

  /** zmk_settings_loaded up to the unlock: early events are numbered after the saved tail. */
  function Loaded(j: Journal): (Journal, bool) {
    var j' := if j.ready then j else j.(ringSeq := j.persisted + |j.ring|, ready := true);
    (j', j'.ringSeq > j'.persisted)
  }

  // ----- the previous boot's state -----

  /** Events that carry a profile in `active`. */
  predicate CarriesProfile(e: Event) {
    (1 <= e.kind <= 13 || 20 <= e.kind <= 27) && e.active >= 0
  }

  predicate CarriesEndpoint(e: Event) { e.kind == 16 && e.reason == 255 }

  predicate AnyEvent(e: Event) { true }

  /** The event numbered n is in one of the restored blocks; numbers start at 1. */
  ghost predicate Saved(mirror: seq<Option<Block>>, n: nat, e: Event) {
    exists s: nat, i: nat :: InSlot(mirror, s, i, n, e)
  }

  ghost predicate InSlot(mirror: seq<Option<Block>>, s: nat, i: nat, n: nat, e: Event) {
    && s < |mirror| && mirror[s].Some? && i < |mirror[s].value.ev|
    && n == mirror[s].value.first + i && e == mirror[s].value.ev[i]
  }

  /** `r` is the highest-numbered saved event that satisfies p, if there is one. */
  ghost predicate Latest(mirror: seq<Option<Block>>, p: Event -> bool, r: Option<(nat, Event)>) {
    && (r.Some? ==> Saved(mirror, r.value.0, r.value.1) && p(r.value.1) && r.value.0 > 0)
    && forall n: nat, e :: Saved(mirror, n, e) && p(e) && n > 0 ==> r.Some? && n <= r.value.0
  }

  /** What the previous boot's last saved events say; -1 and 0 stand for nothing saved. */
  ghost predicate PreviousState(mirror: seq<Option<Block>>, uptime: u32, profile: i8, endpoint: i8) {
    exists a, b, d :: PreviousFrom(mirror, a, b, d, uptime, profile, endpoint)
  }

  ghost predicate PreviousFrom(mirror: seq<Option<Block>>, a: Option<(nat, Event)>, b: Option<(nat, Event)>,
                               d: Option<(nat, Event)>, uptime: u32, profile: i8, endpoint: i8)
  {
    && Latest(mirror, AnyEvent, a) && uptime == (if a.Some? then a.value.1.uptime else 0)
    && Latest(mirror, CarriesProfile, b) && profile == (if b.Some? then b.value.1.active else -1)
    && Latest(mirror, CarriesEndpoint, d)
    && if d.Some? then (endpoint - d.value.1.extra) % 256 == 0 else endpoint == -1
  }

  function UptimeOf(r: Option<(nat, Event)>): u32 { if r.Some? then r.value.1.uptime else 0 }

  function ProfileOf(r: Option<(nat, Event)>): i8 { if r.Some? then r.value.1.active else -1 }

  function EndpointOf(r: Option<(nat, Event)>): i8 {
    if r.Some? then SignedByte(r.value.1.extra) else -1
  }

  /** The cast (int8_t) of an unsigned byte. */
  function SignedByte(x: u8): i8 { if x < 0x80 then x else x as int - 0x100 }

  // ----- the scan that finds it -----

  function Numbered(b: Block): seq<(nat, Event)> {
    seq(|b.ev|, i requires 0 <= i < |b.ev| => (b.first + i, b.ev[i]))
  }

  /** All saved events of the first k slots, slot after slot. */
  function Flat(mirror: seq<Option<Block>>, k: nat): seq<(nat, Event)>
    requires k <= |mirror|
  {
    if k == 0 then []
    else Flat(mirror, k - 1) + (if mirror[k - 1].Some? then Numbered(mirror[k - 1].value) else [])
  }

  lemma {:induction false} FlatIsSaved(mirror: seq<Option<Block>>, k: nat, n: nat, e: Event)
    requires k <= |mirror|
    ensures (n, e) in Flat(mirror, k) <==> exists s: nat, i: nat :: s < k && InSlot(mirror, s, i, n, e)
  {
    if k > 0 {
      FlatIsSaved(mirror, k - 1, n, e);
      if mirror[k - 1].Some? && (n, e) in Numbered(mirror[k - 1].value) {
        var all := Numbered(mirror[k - 1].value);
        var i: nat :| i < |all| && all[i] == (n, e);
        assert InSlot(mirror, k - 1, i, n, e);
      }
      if s: nat, i: nat :| s < k && InSlot(mirror, s, i, n, e) {
        if s == k - 1 {
          assert Numbered(mirror[s].value)[i] == (n, e);
        }
      }
    }
  }

  /** The running maximum that the scan keeps. */
  function Best(p: Event -> bool, seen: seq<(nat, Event)>): Option<(nat, Event)> {
    if seen == [] then None
    else Better(p, Best(p, seen[..|seen| - 1]), seen[|seen| - 1])
  }

  function Better(p: Event -> bool, best: Option<(nat, Event)>, x: (nat, Event)): Option<(nat, Event)> {
    if p(x.1) && x.0 > (if best.Some? then best.value.0 else 0) then Some(x) else best
  }

  lemma BestAppend(p: Event -> bool, seen: seq<(nat, Event)>, x: (nat, Event))
    ensures Best(p, seen + [x]) == Better(p, Best(p, seen), x)
  {
    assert (seen + [x])[..|seen|] == seen;
  }

  lemma {:induction false} BestIsHighest(p: Event -> bool, seen: seq<(nat, Event)>)
    ensures var r := Best(p, seen);
            && (r.Some? ==> r.value in seen && p(r.value.1) && r.value.0 > 0)
            && forall x :: x in seen && p(x.1) && x.0 > 0 ==> r.Some? && x.0 <= r.value.0
  {
    if seen != [] {
      BestIsHighest(p, seen[..|seen| - 1]);
      assert seen == seen[..|seen| - 1] + [seen[|seen| - 1]];
    }
  }

  lemma BestIsLatest(mirror: seq<Option<Block>>, p: Event -> bool)
    ensures Latest(mirror, p, Best(p, Flat(mirror, |mirror|)))
  {
    BestIsHighest(p, Flat(mirror, |mirror|));
    forall n: nat, e
      ensures Saved(mirror, n, e) <==> (n, e) in Flat(mirror, |mirror|)
    {
      FlatIsSaved(mirror, |mirror|, n, e);
    }
  }
}
