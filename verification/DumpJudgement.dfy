/** What the reading program accepts (tools/read_diag_dump.py), said without its state: exactly a
    stream in which a begin line whose counts add up is followed by its data lines, all of them, in
    order, and by its end line, with nothing decided before. */
module DumpJudgement {
  import opened Common
  import opened DumpText
  import opened DumpVerifier

  /** The verifier after some readings. */
  function After(v: State, rs: seq<Reading>): State {
    if rs == [] then v else FeedReading(After(v, rs[..|rs| - 1]), rs[|rs| - 1]).0
  }

  /** No reading so far has made the program stop. */
  predicate Undecided(v: State, rs: seq<Reading>) {
    rs == [] ||
    var front, last := rs[..|rs| - 1], rs[|rs| - 1];
    var (v', recognized) := FeedReading(After(v, front), last);
    Undecided(v, front) && !v'.complete && !(recognized && last.end.Some?)
  }

  lemma AfterAppend(v: State, rs: seq<Reading>, r: Reading)
    ensures After(v, rs + [r]) == FeedReading(After(v, rs), r).0
    ensures Undecided(v, rs + [r]) <==>
              Undecided(v, rs) && !FeedReading(After(v, rs), r).0.complete
              && !(FeedReading(After(v, rs), r).1 && r.end.Some?)
  {
    assert (rs + [r])[..|rs|] == rs;
  }

  lemma {:induction false} AcceptsAppend(v: State, pre: seq<Reading>, rs: seq<Reading>)
    requires Undecided(v, pre)
    ensures Accepts(v, pre + rs) == Accepts(After(v, pre), rs)
    decreases |pre|
  {
    if pre == [] {
      assert pre + rs == rs;
    } else {
      var front, last := pre[..|pre| - 1], pre[|pre| - 1];
      AcceptsAppend(v, front, [last] + rs);
      assert front + ([last] + rs) == pre + rs;
      assert ([last] + rs)[1..] == rs;
    }
  }

  /** The program accepts at a reading that completes the dump, with nothing decided before. */
  ghost predicate DecidedAt(v: State, rs: seq<Reading>, j: nat) {
    j < |rs| && Undecided(v, rs[..j]) && FeedReading(After(v, rs[..j]), rs[j]).0.complete
  }

  lemma {:induction false} ConsUndecided(v: State, r: Reading, rs: seq<Reading>)
    requires var (v', recognized) := FeedReading(v, r); !v'.complete && !(recognized && r.end.Some?)
    ensures After(v, [r] + rs) == After(FeedReading(v, r).0, rs)
    ensures Undecided(v, [r] + rs) == Undecided(FeedReading(v, r).0, rs)
    decreases |rs|
  {
    if rs == [] {
      assert [r] + rs == [r] && [r][..0] == [];
      assert After(v, []) == v;
    } else {
      var front, last := rs[..|rs| - 1], rs[|rs| - 1];
      ConsUndecided(v, r, front);
      assert ([r] + rs)[..|rs|] == [r] + front;
    }
  }

  lemma {:induction false} AcceptsDecides(v: State, rs: seq<Reading>)
    ensures Accepts(v, rs) <==> exists j: nat :: DecidedAt(v, rs, j)
    decreases rs
  {
    if rs != [] {
      var (v', recognized) := FeedReading(v, rs[0]);
      assert rs[..0] == [];
      if v'.complete {
        assert DecidedAt(v, rs, 0);
      } else if recognized && rs[0].end.Some? {
        forall j: nat ensures !DecidedAt(v, rs, j) {
          if j > 0 && j < |rs| && Undecided(v, rs[..j]) {
            UndecidedFirst(v, rs[..j]);
          }
        }
      } else {
        AcceptsDecides(v', rs[1..]);
        forall j: nat | j < |rs| - 1 ensures DecidedAt(v, rs, j + 1) <==> DecidedAt(v', rs[1..], j) {
          assert rs[..j + 1] == [rs[0]] + rs[1..][..j];
          ConsUndecided(v, rs[0], rs[1..][..j]);
        }
        if Accepts(v, rs) {
          var j: nat :| DecidedAt(v', rs[1..], j);
          assert DecidedAt(v, rs, j + 1);
        }
        if j: nat :| DecidedAt(v, rs, j) {
          assert j > 0;
          assert DecidedAt(v', rs[1..], j - 1);
        }
      }
    }
  }

  lemma {:induction false} UndecidedFirst(v: State, rs: seq<Reading>)
    requires rs != [] && Undecided(v, rs)
    ensures !(FeedReading(v, rs[0]).1 && rs[0].end.Some?)
    decreases |rs|
  {
    if |rs| > 1 {
      UndecidedFirst(v, rs[..|rs| - 1]);
    } else {
      assert rs[..0] == [];
    }
  }

  // ----- what was read -----

  /** The numbers of the data lines of dump `id`. */
  function Ordinals(id: nat, rs: seq<Reading>): seq<nat> {
    if rs == [] then []
    else
      var r := rs[|rs| - 1];
      Ordinals(id, rs[..|rs| - 1]) + if r.data.Some? && r.data.value.id == id then [r.data.value.n] else []
  }

  function UpTo(n: nat): (ns: seq<nat>) { seq(n, i requires 0 <= i < n => i) }

  /** Readings i to j are a whole dump: its begin line with counts that add up, no other begin line,
      its data lines numbered 0, 1, ... without a gap, and its end line. */
  ghost predicate Whole(rs: seq<Reading>, i: nat, j: nat) {
    && i < j < |rs| && rs[i].begin.Some?
    && var b := rs[i].begin.value;
    && b.lines == b.blocks + b.persisted + b.ram
    && (forall k :: i < k <= j ==> rs[k].begin.None?)
    && Ordinals(b.id, rs[i + 1..j]) == UpTo(b.lines)
    && rs[j].end == Some(End(b.id, b.lines)) && !(rs[j].data.Some? && rs[j].data.value.id == b.id)
  }

  /** The verifier holds what the readings since the last begin line, at i, say. */
  ghost predicate Follows(rs: seq<Reading>, v: State, i: nat) {
    && i < |rs| && rs[i].begin.Some? && (forall k :: i < k < |rs| ==> rs[k].begin.None?)
    && var b := rs[i].begin.value;
    var ns := Ordinals(b.id, rs[i + 1..]);
    && v.dump == Some((b.id, b.lines)) && !v.complete
    && v.next == (if ns == [] then 0 else ns[|ns| - 1] + 1)
    && (v.error.None? <==> b.lines == b.blocks + b.persisted + b.ram && ns == UpTo(|ns|))
  }

  ghost predicate Fresh(rs: seq<Reading>, v: State) {
    v.dump.None? && !v.complete && forall k :: 0 <= k < |rs| ==> rs[k].begin.None?
  }

  lemma BeginFollows(rs: seq<Reading>, v: State, r: Reading)
    requires r.begin.Some?
    ensures Follows(rs + [r], FeedReading(v, r).0, |rs|)
  {
    assert (rs + [r])[|rs| + 1..] == [];
  }

  lemma DataFollows(rs: seq<Reading>, v: State, i: nat, r: Reading)
    requires Follows(rs, v, i) && r.begin.None? && r.data.Some? && r.data.value.id == rs[i].begin.value.id
    ensures Follows(rs + [r], FeedReading(v, r).0, i)
  {
    var b, n := rs[i].begin.value, r.data.value.n;
    var ns := Ordinals(b.id, rs[i + 1..]);
    OrdinalsAppend(b.id, rs, i, r);
    var more := ns + [n];
    if more == UpTo(|more|) {
      assert ns == UpTo(|ns|) by {
        assert forall k :: 0 <= k < |ns| ==> ns[k] == more[k] == k;
      }
      assert more[|ns|] == |ns|;
    }
    if ns == UpTo(|ns|) && n == v.next {
      assert more == UpTo(|more|);
    }
  }

  lemma OrdinalsAppend(id: nat, rs: seq<Reading>, i: nat, r: Reading)
    requires i < |rs|
    ensures Ordinals(id, (rs + [r])[i + 1..])
            == Ordinals(id, rs[i + 1..]) + if r.data.Some? && r.data.value.id == id then [r.data.value.n] else []
  {
    assert (rs + [r])[i + 1..] == rs[i + 1..] + [r];
    assert (rs[i + 1..] + [r])[..|rs| - i - 1] == rs[i + 1..];
  }

  /** A reading that is neither a begin line nor data nor end of the present dump. */
  lemma OtherFollows(rs: seq<Reading>, v: State, i: nat, r: Reading)
    requires Follows(rs, v, i) && r.begin.None? && !(r.data.Some? && r.data.value.id == rs[i].begin.value.id)
    requires !(r.end.Some? && r.end.value.id == rs[i].begin.value.id)
    ensures Follows(rs + [r], FeedReading(v, r).0, i)
  {
    OrdinalsAppend(rs[i].begin.value.id, rs, i, r);
  }

  /** While nothing is decided, the verifier holds what the last begin line and its data say. */
  lemma {:induction false} UndecidedFollows(rs: seq<Reading>)
    requires Undecided(FRESH, rs)
    ensures Fresh(rs, After(FRESH, rs)) || exists i: nat :: Follows(rs, After(FRESH, rs), i)
    decreases |rs|
  {
    if rs != [] {
      var front, r := rs[..|rs| - 1], rs[|rs| - 1];
      UndecidedFollows(front);
      var v := After(FRESH, front);
      assert front + [r] == rs;
      if r.begin.Some? {
        BeginFollows(front, v, r);
      } else if !Fresh(front, v) {
        var i: nat :| Follows(front, v, i);
        if r.data.Some? && r.data.value.id == front[i].begin.value.id {
          DataFollows(front, v, i, r);
        } else {
          OtherFollows(front, v, i, r);
        }
      }
    }
  }

  /** The program accepts exactly a stream that holds a whole dump before anything was decided. */
  lemma AcceptsIffWhole(rs: seq<Reading>)
    ensures Accepts(FRESH, rs) <==> exists i: nat, j: nat :: Whole(rs, i, j) && Undecided(FRESH, rs[..j])
  {
    AcceptsDecides(FRESH, rs);
    if j: nat :| DecidedAt(FRESH, rs, j) {
      var i := DecidedIsWhole(rs, j);
    }
    if i: nat, j: nat :| Whole(rs, i, j) && Undecided(FRESH, rs[..j]) {
      WholeDecides(rs, i, j);
    }
  }

  lemma DecidedIsWhole(rs: seq<Reading>, j: nat) returns (i: nat)
    requires DecidedAt(FRESH, rs, j)
    ensures Whole(rs, i, j)
  {
    var pre, v := rs[..j], After(FRESH, rs[..j]);
    UndecidedFollows(pre);
    i :| Follows(pre, v, i);
    var b := rs[i].begin.value;
    assert pre[i + 1..] == rs[i + 1..j];
    var ns := Ordinals(b.id, rs[i + 1..j]);
    assert |ns| > 0 ==> ns[|ns| - 1] == |ns| - 1;
    forall k | i < k <= j ensures rs[k].begin.None? {
      assert k < j ==> rs[k] == pre[k];
    }
  }

  lemma WholeDecides(rs: seq<Reading>, i: nat, j: nat)
    requires Whole(rs, i, j) && Undecided(FRESH, rs[..j])
    ensures DecidedAt(FRESH, rs, j)
  {
    var pre, v := rs[..j], After(FRESH, rs[..j]);
    UndecidedFollows(pre);
    assert pre[i].begin.Some?;
    var k: nat :| Follows(pre, v, k);
    assert k == i;
    assert pre[i + 1..] == rs[i + 1..j];
  }

  // ----- from any state -----

  /** Whatever the verifier has seen before, a dump that starts with its own begin line is accepted if
      and only if none of its lines is missing. */
  lemma AcceptedFromBegin(d: Dump, v: State, items: seq<Item>)
    requires WellFormed(d) && Arrival(d, 1, items)
    ensures Accepts(v, [OwnReading(d, 0)] + Received(d, items)) <==> AllArrived(d, 1, items)
  {
    var rs := [OwnReading(d, 0)] + Received(d, items);
    assert rs[1..] == Received(d, items);
    assert FeedReading(v, rs[0]) == (Following(d, 1), true);
    CompleteIffRest(d, 1, items);
  }

  /** After anything that decides nothing, cut-off dumps and noise of any kind, the next dump is
      accepted if and only if none of its lines is missing. */
  lemma LaterDumpAccepted(pre: seq<Reading>, d: Dump, items: seq<Item>)
    requires Undecided(FRESH, pre) && WellFormed(d) && Arrival(d, 1, items)
    ensures Accepts(FRESH, pre + ([OwnReading(d, 0)] + Received(d, items))) <==> AllArrived(d, 1, items)
  {
    AcceptsAppend(FRESH, pre, [OwnReading(d, 0)] + Received(d, items));
    AcceptedFromBegin(d, After(FRESH, pre), items);
  }

  ghost predicate NoEnd(rs: seq<Reading>) { forall i :: 0 <= i < |rs| ==> rs[i].end.None? }

  /** Without an end line nothing is decided, and nothing accepted. */
  lemma {:induction false} NoEndUndecided(v: State, rs: seq<Reading>)
    requires !v.complete && NoEnd(rs)
    ensures Undecided(v, rs) && !After(v, rs).complete
    decreases |rs|
  {
    if rs != [] {
      NoEndUndecided(v, rs[..|rs| - 1]);
    }
  }

  lemma NoEndNotAccepted(v: State, rs: seq<Reading>)
    requires !v.complete && NoEnd(rs)
    ensures !Accepts(v, rs)
  {
    NoEndUndecided(v, rs);
    AcceptsAppend(v, rs, []);
    assert rs + [] == rs;
  }
}
