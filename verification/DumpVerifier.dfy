/** The receiver's completeness check (`DumpVerifier` of tools/read_diag_dump.py). */
module DumpVerifier {
  import opened Common
  import opened DumpText

  datatype Fault =
    | CountsDisagree
    | WrongLine(expected: nat, got: nat)
    | WrongTotal(expected: nat, got: nat)

  /** `dump` holds the id and the number of lines announced by the last begin line. */
  datatype State = State(dump: Option<(nat, nat)>, next: nat, error: Option<Fault>, complete: bool)

  const FRESH := State(None, 0, None, false)

  /** What the three expressions make of one line. */
  datatype Reading = Reading(begin: Option<Begin>, data: Option<Data>, end: Option<End>)

  function Read(line: string): Reading {
    Reading(MatchBegin(line), MatchData(line), MatchEnd(line))
  }

  function FeedReading(v: State, r: Reading): (State, bool) {
    match r.begin
    case Some(b) =>
      var error := if b.lines != b.blocks + b.persisted + b.ram then Some(CountsDisagree) else None;
      (State(Some((b.id, b.lines)), 0, error, false), true)
    case None =>
      if v.dump.None? then (v, false)
      else
        var (id, lines) := v.dump.value;
        if r.data.Some? && r.data.value.id == id then
          var n := r.data.value.n;
          var error := if n != v.next && v.error.None? then Some(WrongLine(v.next, n)) else v.error;
          (v.(next := n + 1, error := error), true)
        else if r.end.Some? && r.end.value.id == id then
          var error := if (r.end.value.lines != lines || v.next != lines) && v.error.None?
                       then Some(WrongTotal(lines, v.next)) else v.error;
          (v.(error := error, complete := error.None?), true)
        else (v, false)
  }

  /** The reading program: it stops at the first complete dump, and gives up at an end line of
      the dump that leaves it incomplete; running out of lines is its timeout. */
  predicate Accepts(v: State, rs: seq<Reading>)
    decreases rs
  {
    rs != [] &&
    var (v', recognized) := FeedReading(v, rs[0]);
    v'.complete || (!(recognized && rs[0].end.Some?) && Accepts(v', rs[1..]))
  }

  function ReadAll(lines: seq<string>): seq<Reading> {
    if lines == [] then [] else [Read(lines[0])] + ReadAll(lines[1..])
  }

  class Verifier {
    var dump: Option<(nat, nat)>
    var next: nat
    var error: Option<Fault>
    var complete: bool

    ghost function Abs(): State
      reads this
    {
      State(dump, next, error, complete)
    }

    constructor ()
      ensures Abs() == FRESH
    {
      dump, next, error, complete := None, 0, None, false;
    }

    method Feed(line: string) returns (recognized: bool)
      modifies this
      ensures (Abs(), recognized) == FeedReading(old(Abs()), Read(line))
    {
      recognized := FeedMatches(Read(line));
    }

    /** The three branches, on what the expressions matched. */
    method FeedMatches(r: Reading) returns (recognized: bool)
      modifies this
      ensures (Abs(), recognized) == FeedReading(old(Abs()), r)
    {
      if r.begin.Some? {
        var b := r.begin.value;
        dump, next, error, complete := Some((b.id, b.lines)), 0, None, false;
        if b.lines != b.blocks + b.persisted + b.ram {
          error := Some(CountsDisagree);
        }
        return true;
      }
      if dump.None? {
        return false;
      }
      if r.data.Some? && r.data.value.id == dump.value.0 {
        var ordinal := r.data.value.n;
        if ordinal != next && error.None? {
          error := Some(WrongLine(next, ordinal));
        }
        next := ordinal + 1;
        return true;
      }
      if r.end.Some? && r.end.value.id == dump.value.0 {
        if r.end.value.lines != dump.value.1 || next != dump.value.1 {
          error := if error.Some? then error else Some(WrongTotal(dump.value.1, next));
        }
        complete := error.None?;
        return true;
      }
      return false;
    }
  }

  // ----- a dump and what arrives of it -----

  /** A well-formed dump: a begin line whose counts add up, data lines numbered from 0,
      and a matching end line. */
  datatype Dump = Dump(id: nat, blocks: nat, persisted: nat, ram: nat, seqno: nat, details: seq<string>)

  ghost predicate WellFormed(d: Dump) {
    && |d.details| == d.blocks + d.persisted + d.ram
    && forall i :: 0 <= i < |d.details| ==> d.details[i] != "" && OneLine(d.details[i])
  }

  /** The number of lines, with begin and end. */
  function Size(d: Dump): nat { |d.details| + 2 }

  function Line(d: Dump, k: nat): string
    requires k < Size(d)
  {
    if k == 0 then PrintBegin(Begin(d.id, |d.details|, d.blocks, d.persisted, d.ram, d.seqno))
    else if k == Size(d) - 1 then PrintEnd(End(d.id, |d.details|))
    else PrintData(Data(d.id, k - 1, d.details[k - 1]))
  }

  /** How the k-th line reads back (see `OwnLine`). */
  function OwnReading(d: Dump, k: nat): Reading
    requires k < Size(d)
  {
    if k == 0 then
      Reading(Some(Begin(d.id, |d.details|, d.blocks, d.persisted, d.ram, d.seqno)), None, None)
    else if k == Size(d) - 1 then Reading(None, None, Some(End(d.id, |d.details|)))
    else Reading(None, Some(Data(d.id, k - 1, d.details[k - 1])), None)
  }

  lemma OwnLine(d: Dump, k: nat)
    requires WellFormed(d) && k < Size(d)
    ensures Read(Line(d, k)) == OwnReading(d, k)
  {
    KindsAreDisjoint(Line(d, k));
    if k == 0 {
      BeginRoundTrip(Begin(d.id, |d.details|, d.blocks, d.persisted, d.ram, d.seqno));
    } else if k == Size(d) - 1 {
      EndRoundTrip(End(d.id, |d.details|));
    } else {
      DataRoundTrip(Data(d.id, k - 1, d.details[k - 1]));
    }
  }

  /** A reading that plays no part in the dump `id`: not a begin line, and neither data nor
      end of this dump. */
  ghost predicate Unrelated(id: nat, r: Reading) {
    && r.begin.None?
    && (r.data.Some? ==> r.data.value.id != id)
    && (r.end.Some? ==> r.end.value.id != id)
  }

  /** One received line: the dump's k-th, or noise. */
  datatype Item = Own(k: nat) | Noise(r: Reading)

  /** The dump's lines arrive in order from the k-th on, some missing, with noise between. */
  ghost predicate Arrival(d: Dump, from: nat, items: seq<Item>)
    decreases items
  {
    items == [] ||
    match items[0]
    case Noise(r) => Unrelated(d.id, r) && Arrival(d, from, items[1..])
    case Own(k) => from <= k < Size(d) && Arrival(d, k + 1, items[1..])
  }

  function ItemReading(d: Dump, item: Item): Reading {
    match item
    case Noise(r) => r
    case Own(k) => if k < Size(d) then OwnReading(d, k) else Reading(None, None, None)
  }

  function Received(d: Dump, items: seq<Item>): seq<Reading> {
    if items == [] then [] else [ItemReading(d, items[0])] + Received(d, items[1..])
  }

  /** Nothing from the k-th line on is missing. */
  ghost predicate AllArrived(d: Dump, from: nat, items: seq<Item>) {
    forall k :: from <= k < Size(d) ==> Own(k) in items
  }

  /** The verifier after the begin line and the first `from - 1` data lines. */
  function Following(d: Dump, from: nat): State
    requires 1 <= from
  {
    State(Some((d.id, |d.details|)), from - 1, None, false)
  }

  lemma ReceivedTail(d: Dump, items: seq<Item>)
    requires items != []
    ensures Received(d, items)[0] == ItemReading(d, items[0])
    ensures Received(d, items)[1..] == Received(d, items[1..])
  {
  }

  /** An error, once noted, outlives every later line of the dump. */
  lemma {:induction false} ErrorSticks(d: Dump, v: State, from: nat, items: seq<Item>)
    requires 1 <= from && Arrival(d, from, items)
    requires v.dump == Some((d.id, |d.details|)) && v.error.Some? && !v.complete
    ensures !Accepts(v, Received(d, items))
    decreases items
  {
    if items != [] {
      ReceivedTail(d, items);
      var v' := FeedReading(v, ItemReading(d, items[0])).0;
      match items[0]
      case Noise(_) => ErrorSticks(d, v', from, items[1..]);
      case Own(k) => ErrorSticks(d, v', k + 1, items[1..]);
    }
  }

  lemma {:induction false} LaterOnly(d: Dump, from: nat, items: seq<Item>, k: nat)
    requires Arrival(d, from, items) && Own(k) in items
    ensures from <= k < Size(d)
    decreases items
  {
    match items[0]
    case Noise(_) => LaterOnly(d, from, items[1..], k);
    case Own(j) => if k != j { LaterOnly(d, j + 1, items[1..], k); }
  }

  lemma SplitArrived(d: Dump, from: nat, items: seq<Item>)
    requires items != [] && Arrival(d, from, items) && from < Size(d)
    ensures items[0].Noise? ==> (AllArrived(d, from, items) <==> AllArrived(d, from, items[1..]))
    ensures items[0] == Own(from) ==> (AllArrived(d, from, items) <==> AllArrived(d, from + 1, items[1..]))
    ensures items[0].Own? && items[0].k != from ==> !AllArrived(d, from, items)
  {
    assert items == [items[0]] + items[1..];
    if items[0].Own? && items[0].k != from && Own(from) in items {
      LaterOnly(d, items[0].k + 1, items[1..], from);
    }
  }

  /** From the state that follows the first lines, the check succeeds exactly when
      every remaining line arrives. */
  lemma {:induction false} CompleteIffRest(d: Dump, from: nat, items: seq<Item>)
    requires 1 <= from < Size(d) && Arrival(d, from, items)
    ensures Accepts(Following(d, from), Received(d, items)) <==> AllArrived(d, from, items)
    decreases items
  {
    var v := Following(d, from);
    if items == [] {
      assert Own(from) !in items;
    } else {
      ReceivedTail(d, items);
      SplitArrived(d, from, items);
      var v' := FeedReading(v, ItemReading(d, items[0])).0;
      match items[0]
      case Noise(_) => CompleteIffRest(d, from, items[1..]);
      case Own(k) =>
        if k != from {
          ErrorSticks(d, v', k + 1, items[1..]);
        } else if k < Size(d) - 1 {
          assert v' == Following(d, from + 1);
          CompleteIffRest(d, from + 1, items[1..]);
        }
    }
  }

  /** Without the begin line a fresh verifier recognises nothing. */
  lemma {:induction false} NothingWithoutBegin(d: Dump, from: nat, items: seq<Item>)
    requires 1 <= from && Arrival(d, from, items)
    ensures !Accepts(FRESH, Received(d, items))
    decreases items
  {
    if items != [] {
      ReceivedTail(d, items);
      match items[0]
      case Noise(_) => NothingWithoutBegin(d, from, items[1..]);
      case Own(k) => NothingWithoutBegin(d, k + 1, items[1..]);
    }
  }

  /** A dump is accepted if and only if its begin line, its end line and every data line
      arrived, whatever unrelated lines are mixed in. */
  lemma {:induction false} AcceptedIffWhole(d: Dump, items: seq<Item>)
    requires WellFormed(d) && Arrival(d, 0, items)
    ensures Accepts(FRESH, Received(d, items)) <==> AllArrived(d, 0, items)
    decreases items
  {
    if items == [] {
      assert Own(0) !in items;
    } else {
      ReceivedTail(d, items);
      SplitArrived(d, 0, items);
      match items[0]
      case Noise(_) => AcceptedIffWhole(d, items[1..]);
      case Own(k) =>
        if k == 0 {
          CompleteIffRest(d, 1, items[1..]);
        } else {
          NothingWithoutBegin(d, k + 1, items[1..]);
        }
    }
  }
}
