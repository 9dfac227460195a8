/** A reader of the block and event details of a dump, and the proof that it gives back every field
    that the firmware prints (src/host_event_log.c). */
module DumpFields {
  import opened Common
  import opened DumpText
  import opened JournalModel
  import opened DumpStream

  /** A data line, read. */
  datatype Printed =
    | BlockLine(slot: nat, journalSeq: nat, first: nat, count: nat)
    | EventLine(source: char, slot: nat, number: nat, e: Event)

  // ----- reading one detail -----

  function SignedNumber(s: string): Option<(int, string)> {
    if s != "" && s[0] == '-' then
      var (n, rest) :- Number(s[1..]);
      var negative: int := 0 - n;
      Some((negative, rest))
    else
      var (n, rest) :- Number(s);
      var positive: int := n;
      Some((positive, rest))
  }

  function SignedField(lit: string, s: string): Option<(int, string)> {
    var rest :- Literal(lit, s);
    SignedNumber(rest)
  }

  function ReadBlock(s: string): Option<Printed> {
    var (slot, s1) :- Field("b s=", s);
    var (journalSeq, s2) :- Field(" j=", s1);
    var (first, s3) :- Field(" first=", s2);
    var (count, s4) :- Field(" count=", s3);
    if s4 == "" then Some(BlockLine(slot, journalSeq, first, count)) else None
  }

  function ReadHead(s: string): Option<(char, nat, nat, nat, string)> {
    var s0 :- Literal("e s=", s);
    var s1 :- if s0 == "" then None else Some(s0[1..]);
    var (slot, s2) :- Number(s1);
    var (q, s3) :- Field(" q=", s2);
    var (t, s4) :- Field(" t=", s3);
    Some((s0[0], slot, q, t, s4))
  }

  function ReadTail(t: nat, s: string): Option<Event> {
    var (kind, s1) :- Field(" k=", s);
    var (idx, s2) :- SignedField(" i=", s1);
    var (active, s3) :- SignedField(" a=", s2);
    var (reason, s4) :- Field(" r=", s3);
    var (win, s5) :- Field(" w=", s4);
    var (extra, s6) :- Field(" x=", s5);
    if s6 == "" && t < 0x1_0000_0000 && kind < 0x100 && -0x80 <= idx < 0x80 && -0x80 <= active < 0x80
       && reason < 0x100 && win < 0x100 && extra < 0x100
    then Some(Event(t, kind, idx, active, reason, win, extra)) else None
  }

  function ReadEvent(s: string): Option<Printed> {
    var (source, slot, q, t, rest) :- ReadHead(s);
    var e :- ReadTail(t, rest);
    Some(EventLine(source, slot, q, e))
  }

  function Parse(s: string): Option<Printed> {
    var b := ReadBlock(s);
    if b.Some? then b else ReadEvent(s)
  }

  // ----- printed details read back -----

  lemma SignedRoundTrip(n: int, rest: string)
    requires StartsClean(rest)
    ensures SignedNumber(SignedDec(n) + rest) == Some((n, rest))
  {
    if n < 0 {
      NumberRoundTrip(-n, rest);
      NegativeReads(Dec(-n), n, rest);
    } else {
      NumberRoundTrip(n, rest);
      DecValue(n);
      assert (Dec(n) + rest)[0] == Dec(n)[0];
    }
  }

  lemma NegativeReads(d: string, n: int, rest: string)
    requires n < 0 && Number(d + rest) == Some((-n, rest))
    ensures SignedNumber("-" + d + rest) == Some((n, rest))
  {
    var s := "-" + d + rest;
    assert s[0] == '-' && s[1..] == d + rest;
  }

  lemma SignedFieldRoundTrip(lit: string, n: int, rest: string)
    requires StartsClean(rest)
    ensures SignedField(lit, lit + (SignedDec(n) + rest)) == Some((n, rest))
  {
    LiteralRoundTrip(lit, SignedDec(n) + rest);
    SignedRoundTrip(n, rest);
  }

  /** One more tag and number at the end of a text, seen from its front. */
  lemma PushField(before: string, lit: string, digits: string, rest: string)
    ensures (before + lit + digits) + rest == before + (lit + (digits + rest))
  {
  }

  lemma TailRoundTrip(e: Event)
    ensures ReadTail(e.uptime, EventTail(e)) == Some(e)
  {
    var x := " x=" + (Dec(e.extra) + "");
    var w := " w=" + (Dec(e.win) + x);
    var r := " r=" + (Dec(e.reason) + w);
    var a := " a=" + (SignedDec(e.active) + r);
    var i := " i=" + (SignedDec(e.idx) + a);
    var k := " k=" + (Dec(e.kind) + i);
    TailNested(e, k, i, a, r, w, x);
    FieldRoundTrip(" k=", e.kind, i);
    SignedFieldRoundTrip(" i=", e.idx, a);
    SignedFieldRoundTrip(" a=", e.active, r);
    FieldRoundTrip(" r=", e.reason, w);
    FieldRoundTrip(" w=", e.win, x);
    FieldRoundTrip(" x=", e.extra, "");
  }

  lemma TailNested(e: Event, k: string, i: string, a: string, r: string, w: string, x: string)
    requires x == " x=" + (Dec(e.extra) + "") && w == " w=" + (Dec(e.win) + x) && r == " r=" + (Dec(e.reason) + w)
    requires a == " a=" + (SignedDec(e.active) + r) && i == " i=" + (SignedDec(e.idx) + a)
    requires k == " k=" + (Dec(e.kind) + i)
    ensures EventTail(e) == k
  {
    Nest6(" k=", Dec(e.kind), " i=", SignedDec(e.idx), " a=", SignedDec(e.active), " r=", Dec(e.reason),
          " w=", Dec(e.win), " x=", Dec(e.extra));
  }

  /** Six tagged numbers, put together from the front and from the back. */
  lemma Nest6(l1: string, d1: string, l2: string, d2: string, l3: string, d3: string,
              l4: string, d4: string, l5: string, d5: string, l6: string, d6: string)
    ensures l1 + d1 + l2 + d2 + l3 + d3 + l4 + d4 + l5 + d5 + l6 + d6
            == l1 + (d1 + (l2 + (d2 + (l3 + (d3 + (l4 + (d4 + (l5 + (d5 + (l6 + (d6 + "")))))))))))
  {
    var p1 := l1 + d1;
    var p2 := p1 + l2 + d2;
    var p3 := p2 + l3 + d3;
    var p4 := p3 + l4 + d4;
    var p5 := p4 + l5 + d5;
    var r6 := l6 + (d6 + "");
    var r5 := l5 + (d5 + r6);
    var r4 := l4 + (d4 + r5);
    var r3 := l3 + (d3 + r4);
    PushField(p5, l6, d6, "");
    PushField(p4, l5, d5, r6);
    PushField(p3, l4, d4, r5);
    PushField(p2, l3, d3, r4);
    PushField(p1, l2, d2, r3);
    PushField("", l1, d1, l2 + (d2 + r3));
  }

  lemma HeadRoundTrip(source: char, slot: nat, q: nat, t: nat, rest: string)
    requires StartsClean(rest)
    ensures ReadHead(EventHead(source, slot, q, t) + rest) == Some((source, slot, q, t, rest))
  {
    var st := " t=" + (Dec(t) + rest);
    var sq := " q=" + (Dec(q) + st);
    var ss := [source] + (Dec(slot) + sq);
    HeadNested(source, slot, q, t, rest, ss, sq, st);
    LiteralRoundTrip("e s=", ss);
    assert ss[0] == source && ss[1..] == Dec(slot) + sq;
    NumberRoundTrip(slot, sq);
    FieldRoundTrip(" q=", q, st);
    FieldRoundTrip(" t=", t, rest);
  }

  lemma HeadNested(source: char, slot: nat, q: nat, t: nat, rest: string, ss: string, sq: string, st: string)
    requires st == " t=" + (Dec(t) + rest) && sq == " q=" + (Dec(q) + st) && ss == [source] + (Dec(slot) + sq)
    ensures EventHead(source, slot, q, t) + rest == "e s=" + ss
  {
    var ps := "e s=" + [source] + Dec(slot);
    var pq := ps + " q=" + Dec(q);
    PushField(pq, " t=", Dec(t), rest);
    PushField(ps, " q=", Dec(q), st);
    PushField("e s=", [source], Dec(slot), sq);
  }

  lemma EventReadsBack(source: char, slot: nat, q: nat, e: Event)
    ensures Parse(EventDetail(source, slot, q, e)) == Some(EventLine(source, slot, q, e))
  {
    var detail := EventDetail(source, slot, q, e);
    TailStarts(e);
    HeadRoundTrip(source, slot, q, e.uptime, EventTail(e));
    TailRoundTrip(e);
    HeadStarts(source, slot, q, e.uptime);
    NotBlock(detail);
  }

  lemma TailStarts(e: Event)
    ensures StartsClean(EventTail(e))
  {
    assert (" k=" + Dec(e.kind))[0] == ' ';
  }

  lemma HeadStarts(source: char, slot: nat, q: nat, t: nat)
    ensures EventHead(source, slot, q, t) != "" && EventHead(source, slot, q, t)[0] == 'e'
  {
    assert ("e s=" + [source])[0] == 'e';
  }

  lemma NotBlock(s: string)
    requires s != "" && s[0] == 'e'
    ensures ReadBlock(s).None?
  {
    assert Literal("b s=", s).None? by {
      assert "b s="[0] == 'b';
    }
  }

  lemma BlockReadsBack(slot: nat, b: Block)
    ensures Parse(BlockDetail(slot, b)) == Some(BlockLine(slot, b.journalSeq, b.first, |b.ev|))
  {
    var c := " count=" + (Dec(|b.ev|) + "");
    var f := " first=" + (Dec(b.first) + c);
    var j := " j=" + (Dec(b.journalSeq) + f);
    BlockNested(slot, b, j, f, c);
    FieldRoundTrip("b s=", slot, j);
    FieldRoundTrip(" j=", b.journalSeq, f);
    FieldRoundTrip(" first=", b.first, c);
    FieldRoundTrip(" count=", |b.ev|, "");
  }

  lemma BlockNested(slot: nat, b: Block, j: string, f: string, c: string)
    requires c == " count=" + (Dec(|b.ev|) + "") && f == " first=" + (Dec(b.first) + c)
    requires j == " j=" + (Dec(b.journalSeq) + f)
    ensures BlockDetail(slot, b) == "b s=" + (Dec(slot) + j)
  {
    Nest4("b s=", Dec(slot), " j=", Dec(b.journalSeq), " first=", Dec(b.first), " count=", Dec(|b.ev|));
  }

  lemma Nest4(l1: string, d1: string, l2: string, d2: string, l3: string, d3: string, l4: string, d4: string)
    ensures l1 + d1 + l2 + d2 + l3 + d3 + l4 + d4 == l1 + (d1 + (l2 + (d2 + (l3 + (d3 + (l4 + (d4 + "")))))))
  {
    var r4 := l4 + (d4 + "");
    var r3 := l3 + (d3 + r4);
    PushField(l1 + d1 + l2 + d2 + l3 + d3, l4, d4, "");
    PushField(l1 + d1 + l2 + d2, l3, d3, r4);
    PushField(l1 + d1, l2, d2, r3);
    PushField("", l1, d1, l2 + (d2 + r3));
  }
}
