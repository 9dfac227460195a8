/** The text lines of a diagnostic dump: how the firmware prints them
    (src/host_event_log.c) and how the host's three regular expressions read them
    (tools/read_diag_dump.py). Digits are the ten ASCII digits. */
module DumpText {
  import opened Common

  // ----- decimal numbers -----

  predicate IsDigit(c: char) { '0' <= c <= '9' }

  function Digit(d: nat): char
    requires d < 10
  {
    '0' + d as char
  }

  function DigitValue(c: char): nat
    requires IsDigit(c)
  {
    c as int - '0' as int
  }

  /** The decimal notation that %u prints. */
  function Dec(n: nat): (s: string) {
    if n < 10 then [Digit(n)] else Dec(n / 10) + [Digit(n % 10)]
  }

  /** The notation that %d prints. */
  function SignedDec(n: int): string { if n < 0 then "-" + Dec(-n) else Dec(n) }

  predicate AllDigits(s: string) { forall i :: 0 <= i < |s| ==> IsDigit(s[i]) }

  function Value(s: string): nat
    requires AllDigits(s)
  {
    if s == [] then 0 else 10 * Value(s[..|s| - 1]) + DigitValue(s[|s| - 1])
  }

  lemma {:induction false} DecValue(n: nat)
    ensures AllDigits(Dec(n)) && Dec(n) != [] && Value(Dec(n)) == n
  {
    var s := Dec(n);
    if n < 10 {
      assert s[..0] == [];
    } else {
      DecValue(n / 10);
      assert s[..|s| - 1] == Dec(n / 10);
    }
  }

  function Pow10(k: nat): nat { if k == 0 then 1 else 10 * Pow10(k - 1) }

  lemma {:induction false} DecLength(n: nat, k: nat)
    requires 1 <= k && n < Pow10(k)
    ensures |Dec(n)| <= k
  {
    if n >= 10 {
      assert k >= 2;
      DecLength(n / 10, k - 1);
    }
  }

  lemma {:induction false} DecLengthAtLeast(n: nat, k: nat)
    requires 1 <= k && Pow10(k - 1) <= n
    ensures |Dec(n)| >= k
  {
    if k > 1 {
      DecLengthAtLeast(n / 10, k - 1);
    }
  }

  /** The largest number has the full width. */
  lemma DecWidest()
    ensures |Dec(0xFFFF_FFFF)| == 10
  {
    DecWidths(0xFFFF_FFFF);
    assert Pow10(3) == 1000;
    assert Pow10(6) == 1000 * Pow10(3);
    assert Pow10(9) == 1000 * Pow10(6);
    DecLengthAtLeast(0xFFFF_FFFF, 10);
  }

  /** The printed widths of the integer types the lines carry. */
  lemma DecWidths(n: u32)
    ensures |Dec(n)| <= 10
    ensures n < 0x1_0000 ==> |Dec(n)| <= 5
    ensures n < 0x100 ==> |Dec(n)| <= 3
  {
    assert Pow10(3) == 1000;
    assert Pow10(5) == 100 * Pow10(3);
    assert Pow10(7) == 100 * Pow10(5);
    assert Pow10(10) == 1000 * Pow10(7);
    DecLength(n, 10);
    if n < 0x1_0000 { DecLength(n, 5); }
    if n < 0x100 { DecLength(n, 3); }
  }

  lemma SignedDecWidth(n: i8)
    ensures |SignedDec(n)| <= 4
  {
    if n < 0 { DecWidths(0 - n as int); } else { DecWidths(n); }
  }

  // ----- reading -----

  /** The literal text `lit` at the front of `s`. */
  function Literal(lit: string, s: string): Option<string> {
    if lit <= s then Some(s[|lit|..]) else None
  }

  function DigitRun(s: string): (k: nat)
    ensures k <= |s| && AllDigits(s[..k]) && (k < |s| ==> !IsDigit(s[k]))
  {
    if s == [] || !IsDigit(s[0]) then 0
    else
      var k := DigitRun(s[1..]);
      assert s[..k + 1] == [s[0]] + s[1..][..k];
      k + 1
  }

  /** (\d+): one or more digits, as many as there are. Whatever follows it in the three
      expressions starts with a blank or ends the line, so no shorter match can succeed. */
  function Number(s: string): Option<(nat, string)> {
    var k := DigitRun(s);
    if k == 0 then None else Some((Value(s[..k]), s[k..]))
  }

  /** `$`: the end, or just before one last newline. */
  predicate AtEnd(s: string) { s == "" || s == "\n" }

  predicate OneLine(s: string) { forall i :: 0 <= i < |s| ==> s[i] != '\n' }

  /** Printable ASCII, which every decoding of the byte stream leaves alone. */
  predicate Plain(s: string) { forall i :: 0 <= i < |s| ==> ' ' <= s[i] <= '~' }

  predicate StartsClean(s: string) { s == "" || !IsDigit(s[0]) }

  lemma {:induction false} DigitRunMaximal(d: string, rest: string)
    requires AllDigits(d) && StartsClean(rest)
    ensures DigitRun(d + rest) == |d|
  {
    var s := d + rest;
    if d == [] {
      assert s == rest;
    } else {
      assert s[1..] == d[1..] + rest;
      DigitRunMaximal(d[1..], rest);
    }
  }

  lemma NumberRoundTrip(n: nat, rest: string)
    requires StartsClean(rest)
    ensures Number(Dec(n) + rest) == Some((n, rest))
  {
    DecValue(n);
    DigitRunMaximal(Dec(n), rest);
    assert (Dec(n) + rest)[..|Dec(n)|] == Dec(n);
    assert (Dec(n) + rest)[|Dec(n)|..] == rest;
  }

  lemma LiteralRoundTrip(lit: string, rest: string)
    ensures Literal(lit, lit + rest) == Some(rest)
  {
    assert lit <= lit + rest;
    assert (lit + rest)[|lit|..] == rest;
  }

  /** A literal followed by a number: the unit all three expressions are made of. */
  function Field(lit: string, s: string): Option<(nat, string)> {
    var rest :- Literal(lit, s);
    Number(rest)
  }

  lemma FieldRoundTrip(lit: string, n: nat, rest: string)
    requires StartsClean(rest)
    ensures Field(lit, lit + (Dec(n) + rest)) == Some((n, rest))
  {
    LiteralRoundTrip(lit, Dec(n) + rest);
    NumberRoundTrip(n, rest);
  }

  // ----- begin lines -----

  datatype Begin = Begin(id: nat, lines: nat, blocks: nat, persisted: nat, ram: nat, seqno: nat)

  function PrintBegin(b: Begin): string {
    BEGIN_TAG + (Dec(b.id) + (" lines=" + (Dec(b.lines) + (" blocks=" + (Dec(b.blocks) +
    (" persisted=" + (Dec(b.persisted) + (" ram=" + (Dec(b.ram) + (" seq=" + (Dec(b.seqno) + "")))))))))))
  }

  function MatchBegin(s: string): Option<Begin> {
    var (id, s1) :- Field(BEGIN_TAG, s);
    var (lines, s2) :- Field(" lines=", s1);
    var (blocks, s3) :- Field(" blocks=", s2);
    var (persisted, s4) :- Field(" persisted=", s3);
    var (ram, s5) :- Field(" ram=", s4);
    var (seqno, s6) :- Field(" seq=", s5);
    if AtEnd(s6) then Some(Begin(id, lines, blocks, persisted, ram, seqno)) else None
  }

  lemma BeginRoundTrip(b: Begin)
    ensures MatchBegin(PrintBegin(b)) == Some(b)
  {
    var s6 := "";
    var s5 := " seq=" + (Dec(b.seqno) + s6);
    var s4 := " ram=" + (Dec(b.ram) + s5);
    var s3 := " persisted=" + (Dec(b.persisted) + s4);
    var s2 := " blocks=" + (Dec(b.blocks) + s3);
    var s1 := " lines=" + (Dec(b.lines) + s2);
    FieldRoundTrip(BEGIN_TAG, b.id, s1);
    FieldRoundTrip(" lines=", b.lines, s2);
    FieldRoundTrip(" blocks=", b.blocks, s3);
    FieldRoundTrip(" persisted=", b.persisted, s4);
    FieldRoundTrip(" ram=", b.ram, s5);
    FieldRoundTrip(" seq=", b.seqno, s6);
  }

  // ----- data lines -----

  datatype Data = Data(id: nat, n: nat, detail: string)

  function PrintData(d: Data): string {
    DATA_TAG + (Dec(d.id) + (" n=" + (Dec(d.n) + (" " + d.detail))))
  }

  /** (.+)$: at least one character, none of them a newline but perhaps the last. */
  function MatchRest(s: string): Option<string> {
    var body := if s != "" && s[|s| - 1] == '\n' then s[..|s| - 1] else s;
    if body != "" && OneLine(body) then Some(body) else None
  }

  function MatchData(s: string): Option<Data> {
    var (id, s1) :- Field(DATA_TAG, s);
    var (n, s2) :- Field(" n=", s1);
    var s3 :- Literal(" ", s2);
    var detail :- MatchRest(s3);
    Some(Data(id, n, detail))
  }

  lemma RestRoundTrip(detail: string)
    requires detail != "" && OneLine(detail)
    ensures MatchRest(detail) == Some(detail)
  {
  }

  lemma DataRoundTrip(d: Data)
    requires d.detail != "" && OneLine(d.detail)
    ensures MatchData(PrintData(d)) == Some(d)
  {
    var s2 := " " + d.detail;
    var s1 := " n=" + (Dec(d.n) + s2);
    FieldRoundTrip(DATA_TAG, d.id, s1);
    FieldRoundTrip(" n=", d.n, s2);
    LiteralRoundTrip(" ", d.detail);
    RestRoundTrip(d.detail);
  }

  // ----- end lines -----

  datatype End = End(id: nat, lines: nat)

  function PrintEnd(e: End): string {
    END_TAG + (Dec(e.id) + (" lines=" + (Dec(e.lines) + " status=ok")))
  }

  function MatchEnd(s: string): Option<End> {
    var (id, s1) :- Field(END_TAG, s);
    var (lines, s2) :- Field(" lines=", s1);
    var s3 :- Literal(" status=ok", s2);
    if AtEnd(s3) then Some(End(id, lines)) else None
  }

  lemma EndRoundTrip(e: End)
    ensures MatchEnd(PrintEnd(e)) == Some(e)
  {
    var s2 := " status=ok";
    var s1 := " lines=" + (Dec(e.lines) + s2);
    FieldRoundTrip(END_TAG, e.id, s1);
    FieldRoundTrip(" lines=", e.lines, s2);
    assert s2 + "" == s2;
    LiteralRoundTrip(" status=ok", "");
  }

  lemma FieldTag(lit: string, s: string, k: nat)
    requires Field(lit, s).Some? && k < |lit|
    ensures k < |s| && s[k] == lit[k]
  {
  }

  const BEGIN_TAG := "totem_diag begin id="
  const DATA_TAG := "totem_diag d="
  const END_TAG := "totem_diag end id="

  lemma TagLetters()
    ensures |BEGIN_TAG| > 11 && |DATA_TAG| > 11 && |END_TAG| > 11
    ensures BEGIN_TAG[6] == DATA_TAG[6] == END_TAG[6] == 'd'
    ensures BEGIN_TAG[11] == 'b' && DATA_TAG[11] == 'd' && END_TAG[11] == 'e'
  {
  }

  /** The character after the common prefix tells the three kinds of line apart. */
  lemma BeginTag(s: string)
    requires MatchBegin(s).Some?
    ensures 11 < |s| && s[6] == 'd' && s[11] == 'b'
  {
    TagLetters();
    assert Field(BEGIN_TAG, s).Some?;
    FieldTag(BEGIN_TAG, s, 6);
    FieldTag(BEGIN_TAG, s, 11);
  }

  lemma DataTag(s: string)
    requires MatchData(s).Some?
    ensures 11 < |s| && s[6] == 'd' && s[11] == 'd'
  {
    TagLetters();
    assert Field(DATA_TAG, s).Some?;
    FieldTag(DATA_TAG, s, 6);
    FieldTag(DATA_TAG, s, 11);
  }

  lemma EndTag(s: string)
    requires MatchEnd(s).Some?
    ensures 11 < |s| && s[6] == 'd' && s[11] == 'e'
  {
    TagLetters();
    assert Field(END_TAG, s).Some?;
    FieldTag(END_TAG, s, 6);
    FieldTag(END_TAG, s, 11);
  }

  /** The three kinds of line never pass for one another, whatever numbers they carry. */
  lemma KindsAreDisjoint(s: string)
    ensures MatchBegin(s).Some? ==> MatchData(s).None? && MatchEnd(s).None?
    ensures MatchData(s).Some? ==> MatchEnd(s).None?
  {
    if MatchBegin(s).Some? { BeginTag(s); }
    if MatchData(s).Some? { DataTag(s); }
    if MatchEnd(s).Some? { EndTag(s); }
  }

  // ----- printed lines are plain -----

  lemma DecPlain(n: nat)
    ensures Plain(Dec(n))
  {
    DecValue(n);
  }

  lemma PlainAppend(a: string, b: string)
    requires Plain(a) && Plain(b)
    ensures Plain(a + b)
  {
  }

  lemma FieldPlain(lit: string, n: nat, rest: string)
    requires Plain(lit) && Plain(rest)
    ensures Plain(lit + (Dec(n) + rest))
  {
    DecPlain(n);
    PlainAppend(Dec(n), rest);
    PlainAppend(lit, Dec(n) + rest);
  }

  lemma BeginPlain(b: Begin)
    ensures Plain(PrintBegin(b))
  {
    var s5 := " seq=" + (Dec(b.seqno) + "");
    var s4 := " ram=" + (Dec(b.ram) + s5);
    var s3 := " persisted=" + (Dec(b.persisted) + s4);
    var s2 := " blocks=" + (Dec(b.blocks) + s3);
    var s1 := " lines=" + (Dec(b.lines) + s2);
    FieldPlain(" seq=", b.seqno, "");
    FieldPlain(" ram=", b.ram, s5);
    FieldPlain(" persisted=", b.persisted, s4);
    FieldPlain(" blocks=", b.blocks, s3);
    FieldPlain(" lines=", b.lines, s2);
    FieldPlain(BEGIN_TAG, b.id, s1);
  }

  lemma DataPlain(d: Data)
    requires Plain(d.detail)
    ensures Plain(PrintData(d))
  {
    var s2 := " " + d.detail;
    PlainAppend(" ", d.detail);
    FieldPlain(" n=", d.n, s2);
    FieldPlain(DATA_TAG, d.id, " n=" + (Dec(d.n) + s2));
  }

  lemma EndPlain(e: End)
    ensures Plain(PrintEnd(e))
  {
    var s2 := " status=ok";
    FieldPlain(" lines=", e.lines, s2);
    FieldPlain(END_TAG, e.id, " lines=" + (Dec(e.lines) + s2));
  }

  /** Lines of other subsystems, such as the boot and fault lines before a dump. */
  lemma OtherSubsystem(s: string)
    requires 6 < |s| && s[6] != 'd'
    ensures MatchBegin(s).None? && MatchData(s).None? && MatchEnd(s).None?
  {
    if MatchBegin(s).Some? { BeginTag(s); }
    if MatchData(s).Some? { DataTag(s); }
    if MatchEnd(s).Some? { EndTag(s); }
  }
}
