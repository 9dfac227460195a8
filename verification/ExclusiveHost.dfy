/** Eviction of background hosts (src/exclusive_host.c): the ring of eviction times, the
    per-profile ignore times, the cap, and the window of authentication failures. Times are
    uptimes in ms and the clock never goes backwards. */
module ExclusiveHost {
  import opened Common

  const RING_SIZE := 16
  const CLASS_A_WINDOW_MS := 60000
  const CLASS_A_THRESHOLD := 3

  /** The options, with the ranges that Kconfig allows. */
  datatype Config = Config(profiles: nat, windowMs: nat, ignoreMs: nat, cap: nat)

  predicate ValidConfig(c: Config) {
    3000 <= c.windowMs <= 60000 && c.ignoreMs <= 60000 && 1 <= c.cap <= 16
  }

  // ----- sliding windows over full histories -----

  /** The times are in the order in which they were noted. */
  ghost predicate Rising(ts: seq<int>) { forall i, k :: 0 <= i <= k < |ts| ==> ts[i] <= ts[k] }

  /** How many of the times lie in the closed window of this length that ends now. */
  function InWindow(ts: seq<int>, now: int, window: int): nat {
    if ts == [] then 0
    else InWindow(ts[..|ts| - 1], now, window) + if now - ts[|ts| - 1] <= window then 1 else 0
  }

  function LastOf<T>(ts: seq<T>, n: nat): seq<T> { if |ts| <= n then ts else ts[|ts| - n..] }

  lemma {:induction false} InWindowBound(ts: seq<int>, now: int, window: int)
    ensures InWindow(ts, now, window) <= |ts|
  {
    if ts != [] {
      InWindowBound(ts[..|ts| - 1], now, window);
    }
  }

  /** In rising times the window is a suffix. */
  lemma {:induction false} InWindowSuffix(ts: seq<int>, now: int, window: int, n: nat)
    requires Rising(ts) && n <= |ts|
    requires forall i :: |ts| - n <= i < |ts| ==> now - ts[i] <= window
    requires n < |ts| ==> now - ts[|ts| - n - 1] > window
    ensures InWindow(ts, now, window) == n
  {
    if ts != [] {
      var front := ts[..|ts| - 1];
      if n == 0 {
        if front != [] {
          assert front[|front| - 1] <= ts[|ts| - 1];
        }
        InWindowSuffix(front, now, window, 0);
      } else {
        InWindowSuffix(front, now, window, n - 1);
      }
    }
  }

  /** ... and conversely a suffix of that length is what the window holds. */
  lemma {:induction false} InWindowIsSuffix(ts: seq<int>, now: int, window: int)
    requires Rising(ts)
    ensures var n := InWindow(ts, now, window);
      && n <= |ts| && (forall i :: |ts| - n <= i < |ts| ==> now - ts[i] <= window)
      && (forall i :: 0 <= i < |ts| - n ==> now - ts[i] > window)
  {
    if ts != [] {
      InWindowIsSuffix(ts[..|ts| - 1], now, window);
    }
  }

  lemma {:induction false} InWindowAtLeast(ts: seq<int>, now: int, window: int, n: nat)
    requires n <= |ts| && forall i :: |ts| - n <= i < |ts| ==> now - ts[i] <= window
    ensures InWindow(ts, now, window) >= n
  {
    if n > 0 {
      InWindowAtLeast(ts[..|ts| - 1], now, window, n - 1);
    }
  }

  lemma {:induction false} InWindowLater(ts: seq<int>, now: int, later: int, window: int)
    requires now <= later
    ensures InWindow(ts, later, window) <= InWindow(ts, now, window)
  {
    if ts != [] {
      InWindowLater(ts[..|ts| - 1], now, later, window);
    }
  }

  // ----- the eviction ring -----

  class ThrashRing {
    const ring: array<int>
    var head: nat
    var count: nat
    /** All eviction times since the last clear. */
    ghost var history: seq<int>

    ghost predicate Valid()
      reads this, ring
    {
      && ring.Length == RING_SIZE && head < RING_SIZE
      && count == Min(|history|, RING_SIZE)
      && Rising(history)
      && forall i :: 0 <= i < count ==> ring[Back(head, i)] == history[|history| - 1 - i]
    }

    /** The i-th newest entry's index. */
    static function Back(head: nat, i: nat): nat
      requires head < RING_SIZE && i < RING_SIZE
    {
      Wrap(head + RING_SIZE - 1 - i, RING_SIZE)
    }

    constructor ()
      ensures Valid() && history == [] && fresh(ring)
    {
      ring := new int[RING_SIZE](_ => 0);
      head, count, history := 0, 0, [];
    }

    /** thrash_win_count: the walk back from the head, which stops at the first entry outside the
        window, counts the evictions in the window up to the ring's size. */
    method WinCount(now: int, window: int) returns (n: nat)
      requires Valid() && (history != [] ==> history[|history| - 1] <= now)
      ensures n == Min(RING_SIZE, InWindow(history, now, window))
    {
      n := 0;
      for i := 0 to count
        invariant n == i
        invariant forall k :: |history| - i <= k < |history| ==> now - history[k] <= window
      {
        WrapIsMod(head + RING_SIZE - 1 - i, RING_SIZE);
        assert ring[Back(head, i)] == history[|history| - 1 - i];
        if now - ring[(head + RING_SIZE - 1 - i) % RING_SIZE] > window {
          InWindowSuffix(history, now, window, i);
          return;
        }
        n := n + 1;
      }
      InWindowAtLeast(history, now, window, n);
      InWindowBound(history, now, window);
    }

    /** thrash_note_bg_evict: one more eviction. */
    method Note(now: int)
      requires Valid() && (history != [] ==> history[|history| - 1] <= now)
      modifies this, ring
      ensures Valid() && history == old(history) + [now]
    {
      ghost var was := head;
      ring[head] := now;
      WrapIsMod(head + 1, RING_SIZE);
      head := (head + 1) % RING_SIZE;
      if count < RING_SIZE {
        count := count + 1;
      }
      history := history + [now];
      forall i | 0 <= i < count ensures ring[Back(head, i)] == history[|history| - 1 - i] {
        if i == 0 {
          assert Back(head, 0) == was;
        } else {
          assert Back(head, i) == Back(was, i - 1) != was;
        }
      }
    }

    /** thrash_clear. */
    method Clear()
      requires Valid()
      modifies this
      ensures Valid() && history == []
    {
      head, count, history := 0, 0, [];
    }
  }

  // ----- authentication failures -----

  /** The stored failure times are the last of all failures since a success, as many as fit and
      were in the window at the last failure. */
  ghost predicate Kept(stored: seq<int>, failures: seq<int>) {
    && Rising(failures)
    && if failures == [] then stored == []
       else stored == LastOf(failures,
              Min(CLASS_A_THRESHOLD, InWindow(failures, failures[|failures| - 1], CLASS_A_WINDOW_MS)))
  }

  class ClassA {
    const stamps: array<int>
    var count: nat
    /** All failure times since the last success; a profile switch counts as one. */
    ghost var failures: seq<int>

    ghost predicate Valid()
      reads this, stamps
    {
      stamps.Length == CLASS_A_THRESHOLD && count <= CLASS_A_THRESHOLD && Kept(stamps[..count], failures)
    }

    constructor ()
      ensures Valid() && failures == [] && fresh(stamps)
    {
      stamps := new int[CLASS_A_THRESHOLD](_ => 0);
      count, failures := 0, [];
    }

    /** class_a_note_auth_event: drop the stale failures, then append or shift. Three failures in
        a minute with fewer than two evictions in the window, counted at `checked`, are suspect. */
    method NoteAuthEvent(isFail: bool, now: int, evictions: ThrashRing, window: int, checked: int)
      returns (suspect: bool)
      requires Valid() && evictions.Valid() && evictions.ring != stamps
      requires isFail && failures != [] ==> failures[|failures| - 1] <= now
      requires isFail && evictions.history != [] ==> evictions.history[|evictions.history| - 1] <= checked
      modifies this, stamps
      ensures Valid() && failures == if isFail then old(failures) + [now] else []
      ensures count == if isFail then Min(CLASS_A_THRESHOLD, InWindow(failures, now, CLASS_A_WINDOW_MS)) else 0
      ensures suspect <==> isFail && InWindow(failures, now, CLASS_A_WINDOW_MS) >= CLASS_A_THRESHOLD
                           && InWindow(evictions.history, checked, window) < 2
    {
      if !isFail {
        count, failures := 0, [];
        return false;
      }
      NoteFailure(now);
      var win := evictions.WinCount(checked, window);
      suspect := count >= CLASS_A_THRESHOLD && win < 2;
    }

    method NoteFailure(now: int)
      requires Valid() && (failures != [] ==> failures[|failures| - 1] <= now)
      modifies this, stamps
      ensures Valid() && failures == old(failures) + [now]
      ensures count == Min(CLASS_A_THRESHOLD, InWindow(failures, now, CLASS_A_WINDOW_MS))
    {
      KeptNext(stamps[..count], failures, now);
      Compact(now);
      Append(now);
      failures := failures + [now];
      KeptCount(stamps[..count], failures);
    }

    /** The loop that drops stale failures in place. */
    method Compact(now: int)
      requires stamps.Length == CLASS_A_THRESHOLD && count <= CLASS_A_THRESHOLD
      modifies this`count, stamps
      ensures count <= CLASS_A_THRESHOLD && stamps[..count] == Fresh(old(stamps[..count]), now)
    {
      ghost var stored := stamps[..count];
      var kept := 0;
      for i := 0 to count
        invariant count == old(count) && 0 <= kept <= i
        invariant stamps[..kept] == Fresh(stored[..i], now)
        invariant forall k :: i <= k < count ==> stamps[k] == stored[k]
      {
        assert stored[..i + 1][..i] == stored[..i];
        if now - stamps[i] <= CLASS_A_WINDOW_MS {
          stamps[kept] := stamps[i];
          kept := kept + 1;
        }
      }
      assert stored[..count] == stored;
      count := kept;
    }

    /** Append, or shift when all entries are in use. */
    method Append(now: int)
      requires stamps.Length == CLASS_A_THRESHOLD && count <= CLASS_A_THRESHOLD
      modifies this`count, stamps
      ensures count == Min(CLASS_A_THRESHOLD, old(count) + 1)
      ensures stamps[..count] == Appended(old(stamps[..count]), now)
    {
      ghost var before := stamps[..count];
      if count < CLASS_A_THRESHOLD {
        stamps[count] := now;
        count := count + 1;
      } else {
        for i := 1 to CLASS_A_THRESHOLD
          invariant count == CLASS_A_THRESHOLD
          invariant forall k :: 0 <= k < i - 1 ==> stamps[k] == before[k + 1]
          invariant forall k :: i - 1 <= k < CLASS_A_THRESHOLD ==> stamps[k] == before[k]
        {
          stamps[i - 1] := stamps[i];
        }
        stamps[CLASS_A_THRESHOLD - 1] := now;
      }
    }
  }

  function Appended(ts: seq<int>, now: int): seq<int> {
    if |ts| < CLASS_A_THRESHOLD then ts + [now] else ts[1..] + [now]
  }

  /** The compaction loop's result. */
  function Fresh(ts: seq<int>, now: int): seq<int> {
    if ts == [] then []
    else Fresh(ts[..|ts| - 1], now) + if now - ts[|ts| - 1] <= CLASS_A_WINDOW_MS then [ts[|ts| - 1]] else []
  }

  lemma {:induction false} FreshLength(ts: seq<int>, now: int)
    ensures |Fresh(ts, now)| <= |ts|
  {
    if ts != [] {
      FreshLength(ts[..|ts| - 1], now);
    }
  }

  lemma FreshInside(front: seq<int>, last: int, now: int)
    requires now - last <= CLASS_A_WINDOW_MS && InWindow(front, now, CLASS_A_WINDOW_MS) <= |front|
    requires Fresh(front, now) == LastOf(front, InWindow(front, now, CLASS_A_WINDOW_MS))
    ensures Fresh(front + [last], now) == LastOf(front + [last], InWindow(front + [last], now, CLASS_A_WINDOW_MS))
  {
    var ts := front + [last];
    assert ts[..|front|] == front;
    LastOfAppend(front, InWindow(front, now, CLASS_A_WINDOW_MS), last);
  }

  lemma FreshOutside(front: seq<int>, last: int, now: int)
    requires now - last > CLASS_A_WINDOW_MS && InWindow(front, now, CLASS_A_WINDOW_MS) == 0
    requires Fresh(front, now) == LastOf(front, 0)
    ensures Fresh(front + [last], now) == LastOf(front + [last], InWindow(front + [last], now, CLASS_A_WINDOW_MS))
  {
    var ts := front + [last];
    assert ts[..|front|] == front;
  }

  /** Rising times before one that is outside the window are outside. */
  lemma OutsideBefore(front: seq<int>, last: int, now: int, window: int)
    requires Rising(front + [last]) && now - last > window
    ensures InWindow(front, now, window) == 0
  {
    var ts := front + [last];
    assert forall i :: 0 <= i < |front| ==> front[i] == ts[i];
    forall i | 0 <= i < |front| ensures now - front[i] > window {
      assert ts[i] <= ts[|front|];
    }
    InWindowSuffix(front, now, window, 0);
  }

  /** Compacting a suffix of rising times leaves the shorter suffix that is still in the window. */
  lemma {:induction false} FreshIsSuffix(ts: seq<int>, now: int)
    requires Rising(ts)
    ensures Fresh(ts, now) == LastOf(ts, InWindow(ts, now, CLASS_A_WINDOW_MS))
    decreases |ts|
  {
    if ts != [] {
      var front, last := ts[..|ts| - 1], ts[|ts| - 1];
      assert front + [last] == ts;
      FreshIsSuffix(front, now);
      if now - last <= CLASS_A_WINDOW_MS {
        InWindowBound(front, now, CLASS_A_WINDOW_MS);
        FreshInside(front, last, now);
      } else {
        OutsideBefore(front, last, now, CLASS_A_WINDOW_MS);
        FreshOutside(front, last, now);
      }
    }
  }

  lemma InWindowOfSuffix(ts: seq<int>, now: int, window: int, m: nat)
    requires Rising(ts) && m <= |ts|
    ensures Rising(LastOf(ts, m)) && InWindow(LastOf(ts, m), now, window) == Min(m, InWindow(ts, now, window))
  {
    InWindowIsSuffix(ts, now, window);
    var n := Min(m, InWindow(ts, now, window));
    InWindowSuffix(LastOf(ts, m), now, window, n);
  }

  lemma LastOfAppend(ts: seq<int>, n: nat, x: int)
    requires n <= |ts|
    ensures LastOf(ts + [x], n + 1) == LastOf(ts, n) + [x]
  {
  }

  lemma LastOfLastOf(ts: seq<int>, m: nat, n: nat)
    requires n <= m <= |ts|
    ensures LastOf(LastOf(ts, m), n) == LastOf(ts, n)
  {
  }

  /** The last m of rising times, compacted. */
  lemma FreshOfLast(failures: seq<int>, m: nat, now: int)
    requires Rising(failures) && m <= |failures|
    ensures Fresh(LastOf(failures, m), now)
            == LastOf(failures, Min(m, InWindow(failures, now, CLASS_A_WINDOW_MS)))
  {
    InWindowOfSuffix(failures, now, CLASS_A_WINDOW_MS, m);
    FreshIsSuffix(LastOf(failures, m), now);
    LastOfLastOf(failures, m, Min(m, InWindow(failures, now, CLASS_A_WINDOW_MS)));
  }

  lemma FreshOfKept(stored: seq<int>, failures: seq<int>, now: int)
    requires Kept(stored, failures) && failures != [] && failures[|failures| - 1] <= now
    ensures Fresh(stored, now) == LastOf(failures, Min(CLASS_A_THRESHOLD, InWindow(failures, now, CLASS_A_WINDOW_MS)))
  {
    var last := failures[|failures| - 1];
    InWindowLater(failures, last, now, CLASS_A_WINDOW_MS);
    InWindowBound(failures, last, CLASS_A_WINDOW_MS);
    FreshOfLast(failures, Min(CLASS_A_THRESHOLD, InWindow(failures, last, CLASS_A_WINDOW_MS)), now);
  }

  /** Appending to the last failures, or shifting them, gives the last failures with the new one. */
  lemma AppendedLast(failures: seq<int>, n: nat, now: int)
    requires n <= |failures|
    ensures Appended(LastOf(failures, Min(CLASS_A_THRESHOLD, n)), now)
            == LastOf(failures + [now], Min(CLASS_A_THRESHOLD, n + 1))
  {
    if n < CLASS_A_THRESHOLD {
      LastOfAppend(failures, n, now);
    } else {
      assert LastOf(failures, CLASS_A_THRESHOLD)[1..] == LastOf(failures, CLASS_A_THRESHOLD - 1);
      LastOfAppend(failures, CLASS_A_THRESHOLD - 1, now);
    }
  }

  lemma InWindowAppend(ts: seq<int>, now: int, window: nat)
    ensures InWindow(ts + [now], now, window) == InWindow(ts, now, window) + 1
  {
    assert (ts + [now])[..|ts|] == ts;
  }

  lemma RisingAppend(ts: seq<int>, now: int)
    requires Rising(ts) && (ts != [] ==> ts[|ts| - 1] <= now)
    ensures Rising(ts + [now])
  {
    forall i, k | 0 <= i <= k < |ts| + 1 ensures (ts + [now])[i] <= (ts + [now])[k] {
      if i < |ts| {
        assert ts[i] <= ts[|ts| - 1];
      }
    }
  }

  /** Compacting leaves the last failures that are still in the window. */
  lemma FreshKept(stored: seq<int>, failures: seq<int>, now: int)
    requires Kept(stored, failures) && (failures != [] ==> failures[|failures| - 1] <= now)
    ensures Fresh(stored, now) == LastOf(failures, Min(CLASS_A_THRESHOLD, InWindow(failures, now, CLASS_A_WINDOW_MS)))
  {
    if failures != [] {
      FreshOfKept(stored, failures, now);
    }
  }

  /** Compacting and appending keeps exactly the failures that the next check needs. */
  lemma KeptNext(stored: seq<int>, failures: seq<int>, now: int)
    requires Kept(stored, failures) && (failures != [] ==> failures[|failures| - 1] <= now)
    ensures Kept(Appended(Fresh(stored, now), now), failures + [now])
  {
    FreshKept(stored, failures, now);
    KeptAppend(failures, LastOf(failures, Min(CLASS_A_THRESHOLD, InWindow(failures, now, CLASS_A_WINDOW_MS))), now);
  }

  lemma KeptAppend(failures: seq<int>, kept: seq<int>, now: int)
    requires Rising(failures) && (failures != [] ==> failures[|failures| - 1] <= now)
    requires kept == LastOf(failures, Min(CLASS_A_THRESHOLD, InWindow(failures, now, CLASS_A_WINDOW_MS)))
    ensures Kept(Appended(kept, now), failures + [now])
  {
    RisingAppend(failures, now);
    InWindowAppend(failures, now, CLASS_A_WINDOW_MS);
    InWindowBound(failures, now, CLASS_A_WINDOW_MS);
    AppendedLast(failures, InWindow(failures, now, CLASS_A_WINDOW_MS), now);
    assert (failures + [now])[|failures|] == now;
  }

  lemma KeptCount(stored: seq<int>, failures: seq<int>)
    requires Kept(stored, failures) && failures != []
    ensures |stored| == Min(CLASS_A_THRESHOLD, InWindow(failures, failures[|failures| - 1], CLASS_A_WINDOW_MS))
  {
    InWindowBound(failures, failures[|failures| - 1], CLASS_A_WINDOW_MS);
  }

  // ----- eviction -----

  /** One eviction: when its ignore time was checked and the window counted, and when its ignore
      time and its ring entry were noted. The disconnect happens between the second and the third. */
  datatype Eviction = Eviction(profile: int, checked: int, counted: int, noted: int, ringed: int)

  /** What the connection and the environment answer during one visit of a connection, in the
      order asked; `checkedIgnore` to `ringed` are the uptimes read on the way. */
  datatype Visit = Visit(infoOk: bool, peripheral: bool, usb: bool, profile: int, active: int,
                         activeOpen: bool, activeUp: bool, disconnectErr: int,
                         checkedIgnore: nat, checkedCap: nat, noted: nat, ringed: nat)

  ghost predicate ClockForward(v: Visit) { v.checkedIgnore <= v.checkedCap <= v.noted <= v.ringed }

  /** Each ignore time is 0 or that of a logged eviction of its profile, and no logged one is later. */
  ghost predicate IgnoresTrue(c: Config, until: seq<int>, log: seq<Eviction>) {
    && (forall p :: 0 <= p < |until| ==> until[p] == 0 || Ignores(c, until[p], p, log))
    && (c.ignoreMs > 0 ==> forall i :: 0 <= i < |log| && 0 <= log[i].profile < |until| ==>
          until[log[i].profile] >= log[i].noted + c.ignoreMs)
  }

  ghost predicate Ignores(c: Config, until: int, profile: int, log: seq<Eviction>) {
    exists i :: 0 <= i < |log| && log[i].profile == profile && until == log[i].noted + c.ignoreMs
  }

  lemma IgnoresAppend(c: Config, until: int, profile: int, log: seq<Eviction>, e: Eviction)
    ensures Ignores(c, until, profile, log) ==> Ignores(c, until, profile, log + [e])
    ensures e.profile == profile && until == e.noted + c.ignoreMs ==> Ignores(c, until, profile, log + [e])
  {
    if Ignores(c, until, profile, log) {
      var i :| 0 <= i < |log| && log[i].profile == profile && until == log[i].noted + c.ignoreMs;
      assert (log + [e])[i] == log[i];
    }
    assert (log + [e])[|log|] == e;
  }

  function Noted(c: Config, until: seq<int>, profile: nat, now: int): seq<int> {
    if c.ignoreMs > 0 && profile < |until| then until[profile := now + c.ignoreMs] else until
  }

  /** What the visit that comes next adds to the log. */
  lemma LoggedNext(log: seq<Eviction>, v: Visit)
    requires InTime(log) && ClockForward(v) && (log != [] ==> log[|log| - 1].ringed <= v.checkedIgnore)
    ensures InTime(log + [EvictionOf(v)]) && RingTimes(log + [EvictionOf(v)]) == RingTimes(log) + [v.ringed]
    ensures forall i :: 0 <= i < |log| ==> log[i].noted <= v.noted
  {
    forall i | 0 <= i < |log| ensures log[i].noted <= log[i].ringed <= v.checkedIgnore {
      assert log[i].ringed <= log[|log| - 1].ringed;
    }
  }

  /** One more eviction, with its ignore time noted if there is one. */
  lemma IgnoresNext(c: Config, until: seq<int>, log: seq<Eviction>, e: Eviction)
    requires IgnoresTrue(c, until, log) && 0 <= e.profile
    requires forall i :: 0 <= i < |log| ==> log[i].noted <= e.noted
    ensures IgnoresTrue(c, Noted(c, until, e.profile, e.noted), log + [e])
  {
    var until' := Noted(c, until, e.profile, e.noted);
    forall p | 0 <= p < |until'| && until'[p] != 0 ensures Ignores(c, until'[p], p, log + [e]) {
      IgnoresAppend(c, until'[p], p, log, e);
    }
  }

  /** When an eviction was counted, the one cap before it was out of the window, by its latest time. */
  ghost predicate StormBound(c: Config, log: seq<Eviction>) {
    forall i, k :: 0 <= i && i + c.cap <= k < |log| ==> log[k].counted - log[i].ringed > c.windowMs
  }

  /** The evictions follow one another. */
  ghost predicate InTime(log: seq<Eviction>) {
    && (forall i :: 0 <= i < |log| ==> log[i].checked <= log[i].counted <= log[i].noted <= log[i].ringed)
    && (forall i, k :: 0 <= i < k < |log| ==> log[i].ringed <= log[k].checked)
  }

  /** Evictions of one profile are at least the ignore time apart. */
  ghost predicate Apart(c: Config, log: seq<Eviction>) {
    forall i, k :: 0 <= i < k < |log| && log[i].profile == log[k].profile < c.profiles ==>
      log[k].checked >= log[i].noted + c.ignoreMs
  }

  function EvictionOf(v: Visit): Eviction { Eviction(v.profile, v.checkedIgnore, v.checkedCap, v.noted, v.ringed) }

  function RingTimes(log: seq<Eviction>): (ts: seq<int>) {
    seq(|log|, i requires 0 <= i < |log| => log[i].ringed)
  }

  class Evictor {
    const c: Config
    const thrash: ThrashRing
    const ignoreUntil: array<int>
    var capLogged: bool
    var lastActive: int
    /** All evictions since the last profile switch. */
    ghost var log: seq<Eviction>

    ghost predicate Valid()
      reads this, thrash, thrash.ring, ignoreUntil
    {
      && ValidConfig(c) && thrash.Valid() && ignoreUntil.Length == c.profiles && ignoreUntil != thrash.ring
      && thrash.history == RingTimes(log) && InTime(log)
      && (forall i :: 0 <= i < |log| ==> 0 <= log[i].noted)
      && IgnoresTrue(c, ignoreUntil[..], log)
    }

    /** The clock has not gone back since the last eviction. */
    ghost predicate Later(now: int)
      reads this
    {
      log != [] ==> log[|log| - 1].ringed <= now
    }

    constructor (c: Config)
      requires ValidConfig(c)
      ensures this.c == c && Valid() && log == [] && lastActive == -1
    {
      this.c := c;
      thrash := new ThrashRing();
      ignoreUntil := new int[c.profiles](_ => 0);
      capLogged, lastActive, log := false, -1, [];
    }

    predicate ShouldIgnore(profile: int, now: int)
      reads this, ignoreUntil
      requires ignoreUntil.Length == c.profiles
    {
      0 <= profile < c.profiles && ignoreUntil[profile] != 0 && now < ignoreUntil[profile]
    }

    /** drop_if_non_active_host: it evicts a host exactly if it may be evicted at all, a known
        profile other than the active one, with the keyboard's output not on USB and the selected
        computer really linked, and, unless forced, its profile was not evicted within the ignore
        time and fewer than cap evictions are in the window. */
    method Drop(v: Visit, force: bool) returns (evicted: bool)
      requires Valid() && Later(v.checkedIgnore) && ClockForward(v)
      modifies this`log, this`capLogged, ignoreUntil, thrash, thrash.ring
      ensures Valid()
      ensures evicted <==>
                && v.infoOk && v.peripheral && !v.usb && 0 <= v.profile && v.profile != v.active
                && !v.activeOpen && v.activeUp && v.disconnectErr == 0
                && (force || (InWindow(RingTimes(old(log)), v.checkedCap, c.windowMs) < c.cap
                              && !exists i :: 0 <= i < |old(log)| && old(log)[i].profile == v.profile < c.profiles
                                              && v.checkedIgnore < old(log)[i].noted + c.ignoreMs))
      ensures log == if evicted
                     then old(log) + [Eviction(v.profile, v.checkedIgnore, v.checkedCap, v.noted, v.ringed)]
                     else old(log)
      ensures !force && old(StormBound(c, log) && Apart(c, log)) ==> StormBound(c, log) && Apart(c, log)
    {
      var candidate := IsCandidate(v);
      if !candidate {
        return false;
      }
      if !force {
        var allowed := Allows(v);
        if !allowed {
          return false;
        }
      }
      if v.disconnectErr != 0 {
        return false;
      }
      NoteEviction(v);
      return true;
    }

    /** The checks that a forced eviction does not override. */
    method IsCandidate(v: Visit) returns (candidate: bool)
      ensures candidate <==> v.infoOk && v.peripheral && !v.usb && 0 <= v.profile && v.profile != v.active
                             && !v.activeOpen && v.activeUp
    {
      if !v.infoOk || !v.peripheral || v.usb {
        return false;
      }
      if v.profile < 0 || v.profile == v.active {
        return false;
      }
      return !v.activeOpen && v.activeUp;
    }

    /** The ignore time and the cap. */
    method Allows(v: Visit) returns (allowed: bool)
      requires Valid() && Later(v.checkedIgnore) && ClockForward(v) && 0 <= v.profile
      modifies this`capLogged
      ensures allowed <==> InWindow(RingTimes(log), v.checkedCap, c.windowMs) < c.cap
                           && !exists i :: 0 <= i < |log| && log[i].profile == v.profile < c.profiles
                                           && v.checkedIgnore < log[i].noted + c.ignoreMs
      ensures allowed && StormBound(c, log) ==> StormBound(c, log + [EvictionOf(v)])
      ensures allowed && Apart(c, log) ==> Apart(c, log + [EvictionOf(v)])
    {
      IgnoredIff(v);
      if ShouldIgnore(v.profile, v.checkedIgnore) {
        return false;
      }
      var win := thrash.WinCount(v.checkedCap, c.windowMs);
      if win >= c.cap {
        capLogged := true;
        return false;
      }
      StormBoundNext(c, log, v);
      ApartNext(c, log, v);
      return true;
    }

    /** A profile is being ignored exactly if it was evicted within the ignore time. */
    lemma IgnoredIff(v: Visit)
      requires Valid() && Later(v.checkedIgnore) && 0 <= v.profile
      ensures ShouldIgnore(v.profile, v.checkedIgnore) <==>
                exists i :: 0 <= i < |log| && log[i].profile == v.profile < c.profiles
                            && v.checkedIgnore < log[i].noted + c.ignoreMs
    {
      forall i | 0 <= i < |log| ensures log[i].noted <= v.checkedIgnore {
        assert log[i].ringed <= log[|log| - 1].ringed;
      }
    }

    /** bg_note_evict. */
    method NoteIgnore(profile: nat, now: nat)
      requires ignoreUntil.Length == c.profiles
      modifies ignoreUntil
      ensures ignoreUntil[..] == Noted(c, old(ignoreUntil[..]), profile, now)
    {
      if c.ignoreMs > 0 && profile < c.profiles {
        ignoreUntil[profile] := now + c.ignoreMs;
      }
    }

    /** bg_note_evict and thrash_note_bg_evict after a disconnect that succeeded. */
    method NoteEviction(v: Visit)
      requires Valid() && Later(v.checkedIgnore) && ClockForward(v) && 0 <= v.profile
      modifies this`log, ignoreUntil, thrash, thrash.ring
      ensures Valid() && log == old(log) + [EvictionOf(v)]
    {
      LoggedNext(log, v);
      IgnoresNext(c, ignoreUntil[..], log, EvictionOf(v));
      NoteIgnore(v.profile, v.noted);
      thrash.Note(v.ringed);
      log := log + [EvictionOf(v)];
    }

    /** bg_clear_ignores. */
    method ClearIgnores()
      requires ignoreUntil.Length == c.profiles
      modifies this`capLogged, ignoreUntil
      ensures !capLogged && forall p :: 0 <= p < c.profiles ==> ignoreUntil[p] == 0
    {
      for p := 0 to c.profiles
        invariant forall q :: 0 <= q < p ==> ignoreUntil[q] == 0
      {
        ignoreUntil[p] := 0;
      }
      capLogged := false;
    }

    /** exclusive_host_profile_changed: only a change of the index is a switch, and the first
        notification only establishes the restored profile. */
    method ProfileChanged(active: int, failures: ClassA) returns (switched: bool)
      requires Valid() && failures.Valid() && failures.stamps != thrash.ring && failures.stamps != ignoreUntil
      modifies this, ignoreUntil, thrash, thrash.ring, failures, failures.stamps
      ensures Valid() && lastActive == active
      ensures switched <==> old(lastActive) >= 0 && old(lastActive) != active
      ensures log == if switched then [] else old(log)
      ensures switched ==> forall p :: 0 <= p < c.profiles ==> ignoreUntil[p] == 0
      ensures switched ==> !capLogged && thrash.history == []
      ensures failures.Valid() && failures.failures == if switched then [] else old(failures.failures)
      ensures !switched ==> capLogged == old(capLogged) && ignoreUntil[..] == old(ignoreUntil[..])
    {
      switched := lastActive >= 0 && lastActive != active;
      lastActive := active;
      if switched {
        thrash.Clear();
        ClearIgnores();
        log := [];
        var _ := failures.NoteAuthEvent(false, 0, thrash, c.windowMs, 0);
      }
    }
  }

  /** What happens to the policy: a work handler finds a connection, or a profile notification. */
  datatype Op = Found(v: Visit) | Notified(active: int)

  /** One thing after another, on a clock that never goes back and shows `now`. */
  ghost predicate Schedule(ops: seq<Op>, now: int)
    decreases ops
  {
    ops == [] ||
    match ops[0]
    case Found(v) => now <= v.checkedIgnore && ClockForward(v) && Schedule(ops[1..], v.ringed)
    case Notified(_) => Schedule(ops[1..], now)
  }

  /** The policy at uptime `now`, with both bounds. */
  ghost predicate Sound(e: Evictor, failures: ClassA, now: int)
    reads e, e.thrash, e.thrash.ring, e.ignoreUntil, failures, failures.stamps
  {
    && e.Valid() && e.Later(now) && StormBound(e.c, e.log) && Apart(e.c, e.log)
    && failures.Valid() && failures.stamps != e.thrash.ring && failures.stamps != e.ignoreUntil
  }

  /** A visit, as the work handlers make it. */
  method Visited(e: Evictor, failures: ClassA, v: Visit)
    requires Sound(e, failures, v.checkedIgnore) && ClockForward(v)
    modifies e`log, e`capLogged, e.ignoreUntil, e.thrash, e.thrash.ring
    ensures Sound(e, failures, v.ringed)
  {
    var _ := e.Drop(v, false);
  }

  /** A notification: a switch forgets the evictions. */
  method Told(e: Evictor, failures: ClassA, active: int, ghost now: int)
    requires Sound(e, failures, now)
    modifies e, e.ignoreUntil, e.thrash, e.thrash.ring, failures, failures.stamps
    ensures Sound(e, failures, now)
  {
    var _ := e.ProfileChanged(active, failures);
  }

  /** Every schedule of found connections (exclusive_host_evict_all, as its three work handlers
      call it) and profile notifications: since the last switch, the storm bound and the ignore
      time hold throughout, so, at whatever moments the disconnects took place, no window of the
      configured length holds more than cap of them. */
  method Operate(e: Evictor, failures: ClassA, ops: seq<Op>, start: int)
    requires Sound(e, failures, start) && Schedule(ops, start)
    modifies e, e.ignoreUntil, e.thrash, e.thrash.ring, failures, failures.stamps
    ensures e.Valid() && StormBound(e.c, e.log) && Apart(e.c, e.log)
    ensures forall ts, from :: Disconnects(e.log, ts) ==> WindowCount(e.c, ts, from) <= e.c.cap
  {
    ghost var now := start;
    for i := 0 to |ops|
      invariant Sound(e, failures, now) && Schedule(ops[i..], now)
    {
      assert ops[i..][0] == ops[i] && ops[i..][1..] == ops[i + 1..];
      if ops[i].Found? {
        Visited(e, failures, ops[i].v);
        now := ops[i].v.ringed;
      } else {
        Told(e, failures, ops[i].active, now);
      }
    }
    StormBoundHolds(e.c, e.log);
  }

  /** Below the cap, the cap-th eviction back is outside the window already, so one more keeps
      the bound. */
  lemma StormBoundNext(c: Config, log: seq<Eviction>, v: Visit)
    requires ValidConfig(c) && Rising(RingTimes(log)) && ClockForward(v)
    requires InWindow(RingTimes(log), v.checkedCap, c.windowMs) < c.cap
    ensures StormBound(c, log) ==> StormBound(c, log + [EvictionOf(v)])
  {
    var ts := RingTimes(log);
    InWindowIsSuffix(ts, v.checkedCap, c.windowMs);
    forall i | 0 <= i <= |log| - c.cap ensures v.checkedCap - log[i].ringed > c.windowMs {
      assert ts[i] == log[i].ringed;
    }
  }

  /** A profile that is not being ignored was last evicted long enough ago. */
  lemma ApartNext(c: Config, log: seq<Eviction>, v: Visit)
    requires 0 <= v.profile
    requires v.profile < c.profiles ==> forall i :: 0 <= i < |log| && log[i].profile == v.profile ==>
               v.checkedIgnore >= log[i].noted + c.ignoreMs
    ensures Apart(c, log) ==> Apart(c, log + [EvictionOf(v)])
  {
  }

  /** The number of times in the closed interval. */
  function Within(ts: seq<int>, from: int, to: int): nat {
    if ts == [] then 0
    else Within(ts[..|ts| - 1], from, to) + if from <= ts[|ts| - 1] <= to then 1 else 0
  }

  /** Possible moments of the disconnects: each between the counting and the noting. */
  ghost predicate Disconnects(log: seq<Eviction>, ts: seq<int>) {
    |ts| == |log| && forall i :: 0 <= i < |log| ==> log[i].counted <= ts[i] <= log[i].noted
  }

  /** How many are in the closed window of the configured length that starts at `from`. */
  function WindowCount(c: Config, ts: seq<int>, from: int): nat { Within(ts, from, from + c.windowMs) }

  /** At most cap evictions, over all hosts, in any closed window of the configured length, whenever
      the disconnects took place. */
  lemma StormBoundCounts(c: Config, log: seq<Eviction>, ts: seq<int>, from: int)
    requires ValidConfig(c) && StormBound(c, log) && InTime(log) && Disconnects(log, ts)
    ensures WindowCount(c, ts, from) <= c.cap
  {
    forall i, k | 0 <= i <= k < |ts| ensures ts[i] <= ts[k] {
      assert i < k ==> log[i].ringed <= log[k].checked;
    }
    SparseCount(ts, c.cap, from, from + c.windowMs);
  }

  lemma StormBoundHolds(c: Config, log: seq<Eviction>)
    requires ValidConfig(c) && StormBound(c, log) && InTime(log)
    ensures forall ts, from :: Disconnects(log, ts) ==> WindowCount(c, ts, from) <= c.cap
  {
    forall ts, from | Disconnects(log, ts) ensures WindowCount(c, ts, from) <= c.cap {
      StormBoundCounts(c, log, ts, from);
    }
  }

  /** If entries that far apart in the list are further apart in time than the interval is long,
      the interval holds at most that many. */
  lemma {:induction false} SparseCount(ts: seq<int>, cap: nat, from: int, to: int)
    requires 1 <= cap && Rising(ts)
    requires forall i, k :: 0 <= i && i + cap <= k < |ts| ==> ts[k] - ts[i] > to - from
    ensures Within(ts, from, to) <= cap
    decreases |ts|
  {
    if ts != [] {
      var front := ts[..|ts| - 1];
      if from <= ts[|ts| - 1] <= to {
        WithinBack(front, from, to, |ts| - cap);
      } else {
        SparseCount(front, cap, from, to);
      }
    }
  }

  /** Only entries from index n on can be in an interval that starts after entry n - 1. */
  lemma {:induction false} WithinBack(ts: seq<int>, from: int, to: int, n: int)
    requires Rising(ts) && n <= |ts| && (0 < n ==> ts[n - 1] < from)
    ensures Within(ts, from, to) <= |ts| - Max(n, 0)
    decreases |ts|
  {
    if ts != [] {
      var front := ts[..|ts| - 1];
      WithinBack(front, from, to, if n == |ts| then n - 1 else n);
    }
  }
}
