/** Slots that cannot be read at one boot and can be again at the next (src/host_event_log.c): the
    numbers stay true in every later run exactly if the newest block was among those read. */
module UnreadSlots {
  import opened Common
  import opened JournalModel
  import opened JournalRuns

  /** Whatever happens from here on, the journal tells the history whenever it is ready. */
  ghost predicate StaysTrue(c: Config, s: Sys) {
    forall actions: seq<Action> :: Run(c, s, actions).j.ready ==> HistoryTold(c, Run(c, s, actions))
  }

  lemma ReadNewestStaysTrue(c: Config, s: Sys)
    requires ValidConfig(c) && BootInv(c, s) && NewestRead(s)
    ensures s.j.persisted <= |s.history| && StaysTrue(c, Load(c, s))
  {
    NewestReadOrders(c, s);
    LoadedKeeps(c, s);
    forall actions: seq<Action> | Run(c, Load(c, s), actions).j.ready
      ensures HistoryTold(c, Run(c, Load(c, s), actions))
    {
      RunKeeps(c, Load(c, s), actions);
      ReadyTellsHistory(c, Run(c, Load(c, s), actions));
    }
  }

  // ----- the run that goes wrong -----

  function Records(e: Event, n: nat): seq<Action> {
    if n == 0 then [] else [DoRecord(e, true)] + Records(e, n - 1)
  }

  function Copies(e: Event, n: nat): seq<Event> { seq(n, _ => e) }

  lemma {:induction false} RecordsRun(c: Config, s: Sys, e: Event, n: nat) returns (s1: Sys)
    requires s.j.ready && s.w.Resting?
    ensures s1 == Run(c, s, Records(e, n))
    ensures s1.w == s.w && s1.flash == s.flash && s1.history == s.history + Copies(e, n)
    decreases n
  {
    if n == 0 {
      s1 := s;
    } else {
      var next := Next(c, s, DoRecord(e, true));
      assert Records(e, n)[1..] == Records(e, n - 1);
      s1 := RecordsRun(c, next, e, n - 1);
      assert [e] + Copies(e, n - 1) == Copies(e, n);
      assert s.history + [e] + Copies(e, n - 1) == s.history + ([e] + Copies(e, n - 1));
    }
  }

  function AllSlots(c: Config): seq<nat> { seq(c.slots, k requires 0 <= k < c.slots => k) }

  lemma RunCons(c: Config, s: Sys, a: Action, rest: seq<Action>, all: seq<Action>)
    requires all == [a] + rest && Enabled(c, s, a)
    ensures Run(c, s, all) == Run(c, Next(c, s, a), rest)
  {
    assert all[0] == a && all[1..] == rest;
  }

  /** After the power comes back and every slot is read, what is mirrored is what flash holds, and
      the history is that of its last saved number. */
  lemma RebootRun(c: Config, s: Sys) returns (s1: Sys)
    requires ValidConfig(c) && Rebootable(c, s)
    ensures s1 == Run(c, s, [PowerCut({}, OldContent)] + (Deliveries(AllSlots(c)) + [DoLoaded]))
    ensures s1.j.ready && s1.j.mirror == s.flash
    ensures s1.j.persisted <= |s.history| && s1.history == s.history[..s1.j.persisted]
    ensures forall k: nat :: k < c.slots && s.flash[k].Some? ==> Last(s.flash[k].value) <= s1.j.persisted
  {
    var cut, rest := PowerCut({}, OldContent), Deliveries(AllSlots(c)) + [DoLoaded];
    var booted := Next(c, s, cut);
    assert booted.flash == s.flash;
    RunCons(c, s, cut, rest, [cut] + rest);
    var read := DeliveriesRun(c, booted, AllSlots(c), [DoLoaded]);
    AllRead(c, read, s.history);
    RunOne(c, read, DoLoaded);
    s1 := Load(c, read);
    assert s1.history == s.history[..s1.j.persisted];
  }

  /** With all slots read, everything in flash is mirrored, and the saved tail is its last number. */
  lemma AllRead(c: Config, s: Sys, history: seq<Event>)
    requires CleanBoot(c, s) && forall k: nat :: k < c.slots && k in AllSlots(c) ==> k in s.delivered
    requires forall k: nat :: k < c.slots && s.flash[k].Some? ==> Last(s.flash[k].value) <= |history|
    ensures s.j.mirror == s.flash && s.j.persisted <= |history| && NewestRead(s)
    ensures forall k: nat :: k < c.slots && s.flash[k].Some? ==> Last(s.flash[k].value) <= s.j.persisted
  {
    forall k: nat | k < c.slots ensures s.j.mirror[k] == s.flash[k] && k in s.delivered {
      assert AllSlots(c)[k] == k;
    }
  }

  /** The last number of a block has gone to another event. */
  predicate Misnumbered(history: seq<Event>, b: Block) {
    1 <= b.first <= Last(b) <= |history| && history[Last(b) - 1] != b.ev[|b.ev| - 1]
  }

  lemma WrongLast(c: Config, s: Sys, m: nat, b: Block)
    requires m < c.slots == |s.j.mirror| && s.j.mirror[m] == Some(b) && Misnumbered(s.history, b)
    ensures !HistoryTold(c, s)
  {
    assert b.first + (|b.ev| - 1) - 1 == Last(b) - 1;
    assert !ExactEvents(s, b);
  }

  /** What a reboot asks of the blocks in flash. */
  ghost predicate Rebootable(c: Config, s: Sys) {
    && s.w.Resting? && |s.flash| == c.slots
    && forall k: nat :: k < c.slots && s.flash[k].Some? ==>
         Shaped(k, s.flash[k].value) && Last(s.flash[k].value) <= |s.history|
  }

  lemma BootRebootable(c: Config, s: Sys)
    requires BootInv(c, s)
    ensures Rebootable(c, s)
  {
    forall k: nat | k < c.slots && s.flash[k].Some?
      ensures Shaped(k, s.flash[k].value) && Last(s.flash[k].value) <= |s.history|
    {
      assert GoodBlock(c, s, k, s.flash[k].value);
    }
  }

  /** Recording one event over and over gives the last number of an unread block to it. */
  lemma RecordOver(c: Config, s: Sys, m: nat, e: Event) returns (s1: Sys)
    requires ValidConfig(c) && Rebootable(c, s) && s.j.persisted <= |s.history| && Tail(s.booted, c.cap) == s.j.ring
    requires m < c.slots && s.flash[m].Some? && s.j.persisted + |s.j.ring| < Last(s.flash[m].value)
    requires e != s.flash[m].value.ev[|s.flash[m].value.ev| - 1]
    ensures s1 == Run(c, Load(c, s), Records(e, |s.history|))
    ensures Rebootable(c, s1) && s1.flash == s.flash && Misnumbered(s1.history, s.flash[m].value)
  {
    s1 := RecordsRun(c, Load(c, s), e, |s.history|);
  }

  /** A reboot that reads a block whose last number has gone to another event. */
  lemma RebootBreaks(c: Config, s: Sys, before: seq<Action>, s1: Sys, m: nat, b: Block)
    requires ValidConfig(c) && s1 == Run(c, s, before) && Rebootable(c, s1)
    requires m < c.slots && s1.flash[m] == Some(b) && Misnumbered(s1.history, b)
    ensures !StaysTrue(c, s)
  {
    var reboot := [PowerCut({}, OldContent)] + (Deliveries(AllSlots(c)) + [DoLoaded]);
    var s2 := RebootRun(c, s1);
    RunAppend(c, s, before, reboot);
    WrongLast(c, s2, m, b);
  }

  /** With an unread newer block, and too few early events to reach its numbers, they are given to
      other events; at the next boot the block is read and the numbers mean two things. */
  lemma UnreadNewestBreaks(c: Config, s: Sys, m: nat)
    requires ValidConfig(c) && BootInv(c, s) && s.j.persisted <= |s.history|
    requires m < c.slots && s.flash[m].Some? && m !in s.delivered
    requires s.j.persisted + |s.j.ring| < Last(s.flash[m].value)
    ensures !StaysTrue(c, Load(c, s))
  {
    var b := s.flash[m].value;
    BootRebootable(c, s);
    var last := b.ev[|b.ev| - 1];
    var e := last.(kind := if last.kind == 0 then 1 else 0);
    var s1 := RecordOver(c, s, m, e);
    RebootBreaks(c, Load(c, s), Records(e, |s.history|), s1, m, b);
  }

  /** A boot that has recorded nothing yet: the numbers stay true in every later run exactly if no
      slot that could not be read holds a newer block than those that were. */
  lemma TrueIffNewestRead(c: Config, s: Sys)
    requires ValidConfig(c) && BootInv(c, s) && s.booted == []
    ensures s.j.persisted <= |s.history| && (StaysTrue(c, Load(c, s)) <==> NewestRead(s))
  {
    PersistedKnown(c, s);
    if NewestRead(s) {
      ReadNewestStaysTrue(c, s);
    } else {
      var m := UnreadIsLater(c, s);
      UnreadNewestBreaks(c, s, m);
    }
  }

  lemma PersistedKnown(c: Config, s: Sys)
    requires BootInv(c, s)
    ensures s.j.persisted <= |s.history|
  {
    if m: nat, p: nat :| NewestAt(c, s.j, m, p) {
      assert GoodBlock(c, s, p, s.flash[p].value);
    }
  }

  /** An unread block that is newer than all read ones has later numbers than all of them. */
  lemma UnreadIsLater(c: Config, s: Sys) returns (m: nat)
    requires ValidConfig(c) && BootInv(c, s) && !NewestRead(s)
    ensures m < c.slots && s.flash[m].Some? && m !in s.delivered && s.j.persisted < Last(s.flash[m].value)
  {
    m :| m < |s.flash| && s.flash[m].Some? && m !in s.delivered && s.j.journalSeq <= s.flash[m].value.journalSeq;
    assert GoodBlock(c, s, m, s.flash[m].value);
    if x: nat, p: nat :| NewestAt(c, s.j, x, p) {
      var r: nat :| r < c.slots && InOrder(r, s.flash);
      assert s.flash[p] == s.j.mirror[p] && p != m;
      assert Pos(p, r, c.slots) != Pos(m, r, c.slots);
    }
  }

  const SAMPLE := Event(0, 1, 0, 0, 0, 0, 0)

  /** Boot, record one event, save it, and lose the power. */
  const ONE_SAVE: seq<Action> :=
    [DoLoaded, DoRecord(SAMPLE, true), DoCopy(0), DoWrite(NewContent, true), PowerCut({}, OldContent)]

  function OneBlock(): Block { Block(0, 1, 1, [SAMPLE]) }

  /** After recording, with the event still unsaved. */
  lemma OneRecorded(c: Config) returns (s: Sys)
    requires ValidConfig(c)
    ensures Run(c, Start(c), ONE_SAVE) == Run(c, s, ONE_SAVE[2..])
    ensures s.j.ready && s.j.ring == [SAMPLE] && s.j.ringSeq == 1 && s.j.persisted == 0 && s.j.journalSeq == 0
    ensures s.j.nextSlot == 0 && s.j.last == 0 && s.w.Resting? && s.flash == seq(c.slots, _ => None)
  {
    var loaded := Next(c, Start(c), DoLoaded);
    s := Next(c, loaded, DoRecord(SAMPLE, true));
    RunCons(c, Start(c), DoLoaded, ONE_SAVE[1..], ONE_SAVE);
    RunCons(c, loaded, DoRecord(SAMPLE, true), ONE_SAVE[2..], ONE_SAVE[1..]);
  }

  /** The write of that event's block, and the cut. */
  lemma OneCut(c: Config, s: Sys)
    requires ValidConfig(c) && s.w == Writing(OneBlock()) && s.flash == seq(c.slots, _ => None)
    ensures var s1 := Run(c, s, ONE_SAVE[3..]);
      && s1.j == Boot(c) && s1.w.Resting? && s1.delivered == {} && s1.booted == []
      && |s1.flash| == c.slots && s1.flash[0] == Some(OneBlock())
  {
    var written := Next(c, s, DoWrite(NewContent, true));
    RunCons(c, s, DoWrite(NewContent, true), ONE_SAVE[4..], ONE_SAVE[3..]);
    RunCons(c, written, PowerCut({}, OldContent), [], ONE_SAVE[4..]);
  }

  lemma OneSaveRun(c: Config)
    requires ValidConfig(c)
    ensures var s := Run(c, Start(c), ONE_SAVE);
      && s.j == Boot(c) && s.w.Resting? && s.delivered == {} && s.booted == []
      && |s.flash| == c.slots && s.flash[0] == Some(OneBlock())
  {
    var recorded := OneRecorded(c);
    var copied := Next(c, recorded, DoCopy(0));
    assert recorded.j.ring[0..1] == [SAMPLE];
    assert copied.w == Writing(OneBlock());
    RunCons(c, recorded, DoCopy(0), ONE_SAVE[3..], ONE_SAVE[2..]);
    OneCut(c, copied);
  }

  /** A run reaches a boot at which the newest block is not read, and from which, if loading ends
      there, a later run gives its number to another event. */
  lemma UnreadNewestReachable(c: Config)
    requires ValidConfig(c)
    ensures var s := Run(c, Start(c), ONE_SAVE);
      && BootInv(c, s) && s.booted == [] && !NewestRead(s)
      && s.j.persisted <= |s.history| && !StaysTrue(c, Load(c, s))
  {
    OneSaveRun(c);
    StartGood(c);
    RunKeeps(c, Start(c), ONE_SAVE);
    TrueIffNewestRead(c, Run(c, Start(c), ONE_SAVE));
  }
}
