/** The three expressions of tools/read_diag_dump.py, as the sets of lines that they match: each
    matches exactly the lines of its form, whatever digits stand for the numbers, and gives the
    numbers' values. */
module DumpGrammar {
  import opened Common
  import opened DumpText

  /** One or more digits that stand for n. */
  predicate Denotes(d: string, n: nat) { d != "" && AllDigits(d) && Value(d) == n }

  lemma NumberOfDigits(d: string, n: nat, rest: string)
    requires Denotes(d, n) && StartsClean(rest)
    ensures Number(d + rest) == Some((n, rest))
  {
    DigitRunMaximal(d, rest);
    assert (d + rest)[..|d|] == d && (d + rest)[|d|..] == rest;
  }

  lemma FieldOfDigits(lit: string, d: string, n: nat, rest: string)
    requires Denotes(d, n) && StartsClean(rest)
    ensures Field(lit, lit + (d + rest)) == Some((n, rest))
  {
    LiteralRoundTrip(lit, d + rest);
    NumberOfDigits(d, n, rest);
  }

  /** What a field has read stands at the front of the text. */
  lemma FieldReads(lit: string, s: string) returns (d: string)
    requires Field(lit, s).Some?
    ensures Denotes(d, Field(lit, s).value.0) && s == lit + (d + Field(lit, s).value.1)
    ensures StartsClean(Field(lit, s).value.1)
  {
    var rest := s[|lit|..];
    var k := DigitRun(rest);
    d := rest[..k];
    assert s == lit + rest && rest == d + rest[k..];
  }

  lemma LiteralReads(lit: string, s: string)
    requires Literal(lit, s).Some?
    ensures s == lit + Literal(lit, s).value
  {
  }

  // ----- end lines -----

  function EndText(d1: string, d2: string, tail: string): string {
    "totem_diag end id=" + (d1 + (" lines=" + (d2 + (" status=ok" + tail))))
  }

  ghost predicate IsEndLine(s: string, e: End) {
    exists d1, d2, tail :: s == EndText(d1, d2, tail) && Denotes(d1, e.id) && Denotes(d2, e.lines)
                           && (tail == "" || tail == "\n")
  }

  lemma EndExactly(s: string, e: End)
    ensures MatchEnd(s) == Some(e) <==> IsEndLine(s, e)
  {
    if MatchEnd(s) == Some(e) {
      EndReads(s, e);
    }
    if d1, d2, tail :| s == EndText(d1, d2, tail) && Denotes(d1, e.id) && Denotes(d2, e.lines)
                       && (tail == "" || tail == "\n")
    {
      EndMatches(d1, d2, tail, e);
    }
  }

  lemma EndReads(s: string, e: End)
    requires MatchEnd(s) == Some(e)
    ensures IsEndLine(s, e)
  {
    var d1 := FieldReads(END_TAG, s);
    var s1 := Field(END_TAG, s).value.1;
    var d2 := FieldReads(" lines=", s1);
    var s2 := Field(" lines=", s1).value.1;
    LiteralReads(" status=ok", s2);
    assert s == EndText(d1, d2, Literal(" status=ok", s2).value);
  }

  lemma EndMatches(d1: string, d2: string, tail: string, e: End)
    requires Denotes(d1, e.id) && Denotes(d2, e.lines) && (tail == "" || tail == "\n")
    ensures MatchEnd(EndText(d1, d2, tail)) == Some(e)
  {
    var s2 := " status=ok" + tail;
    var s1 := " lines=" + (d2 + s2);
    FieldOfDigits(END_TAG, d1, e.id, s1);
    FieldOfDigits(" lines=", d2, e.lines, s2);
    LiteralRoundTrip(" status=ok", tail);
  }

  // ----- data lines -----

  function DataText(d1: string, d2: string, detail: string, tail: string): string {
    "totem_diag d=" + (d1 + (" n=" + (d2 + (" " + (detail + tail)))))
  }

  ghost predicate IsDataLine(s: string, d: Data) {
    exists d1, d2, tail :: s == DataText(d1, d2, d.detail, tail) && Denotes(d1, d.id) && Denotes(d2, d.n)
                           && (tail == "" || tail == "\n") && d.detail != "" && OneLine(d.detail)
  }

  lemma DataExactly(s: string, d: Data)
    ensures MatchData(s) == Some(d) <==> IsDataLine(s, d)
  {
    if MatchData(s) == Some(d) {
      DataReads(s, d);
    }
    if d1, d2, tail :| s == DataText(d1, d2, d.detail, tail) && Denotes(d1, d.id) && Denotes(d2, d.n)
                       && (tail == "" || tail == "\n") && d.detail != "" && OneLine(d.detail)
    {
      DataMatches(d1, d2, tail, d);
    }
  }

  lemma DataReads(s: string, d: Data)
    requires MatchData(s) == Some(d)
    ensures IsDataLine(s, d)
  {
    var d1 := FieldReads(DATA_TAG, s);
    var s1 := Field(DATA_TAG, s).value.1;
    var d2 := FieldReads(" n=", s1);
    var s2 := Field(" n=", s1).value.1;
    LiteralReads(" ", s2);
    var s3 := Literal(" ", s2).value;
    var tail := RestReads(s3);
    assert s == DataText(d1, d2, d.detail, tail);
  }

  /** (.+)$ reads all but one last newline. */
  lemma RestReads(s: string) returns (tail: string)
    requires MatchRest(s).Some?
    ensures s == MatchRest(s).value + tail && (tail == "" || tail == "\n")
    ensures MatchRest(s).value != "" && OneLine(MatchRest(s).value)
  {
    if s[|s| - 1] == '\n' {
      tail := "\n";
      assert s == s[..|s| - 1] + [s[|s| - 1]];
    } else {
      tail := "";
    }
  }

  lemma DataMatches(d1: string, d2: string, tail: string, d: Data)
    requires Denotes(d1, d.id) && Denotes(d2, d.n) && (tail == "" || tail == "\n")
    requires d.detail != "" && OneLine(d.detail)
    ensures MatchData(DataText(d1, d2, d.detail, tail)) == Some(d)
  {
    var s3 := d.detail + tail;
    var s2 := " " + s3;
    var s1 := " n=" + (d2 + s2);
    FieldOfDigits(DATA_TAG, d1, d.id, s1);
    FieldOfDigits(" n=", d2, d.n, s2);
    LiteralRoundTrip(" ", s3);
    RestMatches(d.detail, tail);
  }

  lemma RestMatches(detail: string, tail: string)
    requires detail != "" && OneLine(detail) && (tail == "" || tail == "\n")
    ensures MatchRest(detail + tail) == Some(detail)
  {
    var s := detail + tail;
    if tail == "" {
      assert s == detail;
    } else {
      assert s[..|s| - 1] == detail;
    }
  }

  // ----- begin lines -----

  function BeginText(d1: string, d2: string, d3: string, d4: string, d5: string, d6: string, tail: string): string {
    "totem_diag begin id=" + (d1 + (" lines=" + (d2 + (" blocks=" + (d3 + (" persisted=" + (d4 + (" ram=" + (d5 +
    (" seq=" + (d6 + tail)))))))))))
  }

  predicate DenoteAll(b: Begin, d1: string, d2: string, d3: string, d4: string, d5: string, d6: string, tail: string) {
    && Denotes(d1, b.id) && Denotes(d2, b.lines) && Denotes(d3, b.blocks) && Denotes(d4, b.persisted)
    && Denotes(d5, b.ram) && Denotes(d6, b.seqno) && (tail == "" || tail == "\n")
  }

  ghost predicate IsBeginLine(s: string, b: Begin) {
    exists d1, d2, d3, d4, d5, d6, tail ::
      s == BeginText(d1, d2, d3, d4, d5, d6, tail) && DenoteAll(b, d1, d2, d3, d4, d5, d6, tail)
  }

  lemma BeginExactly(s: string, b: Begin)
    ensures MatchBegin(s) == Some(b) <==> IsBeginLine(s, b)
  {
    if MatchBegin(s) == Some(b) {
      BeginReads(s, b);
    }
    if d1, d2, d3, d4, d5, d6, tail :|
      s == BeginText(d1, d2, d3, d4, d5, d6, tail) && DenoteAll(b, d1, d2, d3, d4, d5, d6, tail)
    {
      BeginMatches(d1, d2, d3, d4, d5, d6, tail, b);
    }
  }

  lemma BeginReads(s: string, b: Begin)
    requires MatchBegin(s) == Some(b)
    ensures IsBeginLine(s, b)
  {
    var d1 := FieldReads(BEGIN_TAG, s);
    var s1 := Field(BEGIN_TAG, s).value.1;
    var d2 := FieldReads(" lines=", s1);
    var s2 := Field(" lines=", s1).value.1;
    var d3 := FieldReads(" blocks=", s2);
    var s3 := Field(" blocks=", s2).value.1;
    var d4 := FieldReads(" persisted=", s3);
    var s4 := Field(" persisted=", s3).value.1;
    var d5 := FieldReads(" ram=", s4);
    var s5 := Field(" ram=", s4).value.1;
    var d6 := FieldReads(" seq=", s5);
    var tail := Field(" seq=", s5).value.1;
    assert s == BeginText(d1, d2, d3, d4, d5, d6, tail) && DenoteAll(b, d1, d2, d3, d4, d5, d6, tail);
  }

  lemma BeginMatches(d1: string, d2: string, d3: string, d4: string, d5: string, d6: string, tail: string, b: Begin)
    requires DenoteAll(b, d1, d2, d3, d4, d5, d6, tail)
    ensures MatchBegin(BeginText(d1, d2, d3, d4, d5, d6, tail)) == Some(b)
  {
    var s5 := " seq=" + (d6 + tail);
    var s4 := " ram=" + (d5 + s5);
    var s3 := " persisted=" + (d4 + s4);
    var s2 := " blocks=" + (d3 + s3);
    var s1 := " lines=" + (d2 + s2);
    FieldOfDigits(BEGIN_TAG, d1, b.id, s1);
    FieldOfDigits(" lines=", d2, b.lines, s2);
    FieldOfDigits(" blocks=", d3, b.blocks, s3);
    FieldOfDigits(" persisted=", d4, b.persisted, s4);
    FieldOfDigits(" ram=", d5, b.ram, s5);
    FieldOfDigits(" seq=", d6, b.seqno, tail);
  }
}
