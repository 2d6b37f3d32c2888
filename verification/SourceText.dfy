/** Source text line by line: blanks, labels, instructions and comments as they stand in a file, and
    exactly what the two passes make of such lines, clean or not. */
module SourceText {
  import opened Semantics
  import opened Tokenizer
  import opened Keywords
  import opened Assembler
  import opened Passes
  import opened PassTheorems
  import opened Meaning
  import opened Caasm
  import opened RoundTrip
  import opened PrintedText

  // ----- lexing goes line by line -----

  predicate IsLineEnd(c: char) { c in {'\n', ';'} }

  lemma FirstBeforeEnd(s: string, end: char, rest: string)
    requires s != "" && IsLineEnd(end)
    ensures First(s + ([end] + rest)) == First(s)
  {
    var t := s + ([end] + rest);
    var n := |s|;
    assert t[0] == s[0] && t[n] == end;
    if IsCharacter(s[0]) {
      var e := WordEnd(s, 1);
      forall i | 1 <= i < e ensures IsWordPart(t[i]) { assert t[i] == s[i]; }
      assert t[e] == if e < n then s[e] else end;
      WordEndOfRun(t, 1, e);
      assert t[..e] == s[..e];
    } else if IsNumber(s[0]) {
      var e := NumberEnd(s, 1);
      forall i | 1 <= i < e ensures IsNumber(t[i]) { assert t[i] == s[i]; }
      assert t[e] == if e < n then s[e] else end;
      NumberEndOfRun(t, 1, e);
      assert t[..e] == s[..e];
    } else {
      assert t[1] == if n > 1 then s[1] else end;
    }
  }

  /** No token reaches over a line end, a newline or a semicolon. */
  lemma {:induction false} LexBeforeEnd(s: string, end: char, rest: string)
    requires IsLineEnd(end)
    ensures Lex(s + ([end] + rest)) == Lex(s) + ([END] + Lex(rest))
    decreases |s|
  {
    hide First;
    var after := [end] + rest;
    if s == "" {
      FirstOfEnd(end, rest);
      assert s + after == after && after[1..] == rest;
      assert [] + ([END] + Lex(rest)) == [END] + Lex(rest);
    } else {
      var (t, n) := First(s);
      FirstBeforeEnd(s, end, rest);
      LexBeforeEnd(s[n..], end, rest);
      assert (s + after)[n..] == s[n..] + after;
    }
  }

  lemma FirstOfEnd(end: char, rest: string)
    requires IsLineEnd(end)
    ensures First([end] + rest) == (END, 1)
  {
  }

  predicate OnOneLine(s: string) { forall i | 0 <= i < |s| :: !IsLineEnd(s[i]) }

  lemma {:induction false} LexOnOneLine(s: string)
    requires OnOneLine(s)
    ensures END !in Lex(s)
    decreases |s|
  {
    if s != "" {
      var (t, n) := First(s);
      LexOnOneLine(s[n..]);
    }
  }

  lemma {:induction false} StripLines(a: seq<Token>, b: seq<Token>, inComment: bool)
    requires END !in a
    ensures Strip(a + ([END] + b), inComment) == Strip(a, inComment) + ([END] + Strip(b, false))
    decreases |a|
  {
    if a == [] {
      assert a + ([END] + b) == [END] + b && ([END] + b)[1..] == b;
      assert [] + ([END] + Strip(b, false)) == [END] + Strip(b, false);
    } else {
      assert (a + ([END] + b))[1..] == a[1..] + ([END] + b);
      StripLines(a[1..], b, inComment);
      StripLines(a[1..], b, true);
      StripLines(a[1..], b, false);
    }
  }

  lemma {:induction false} FirstLine(a: seq<Token>, b: seq<Token>, begun: Line)
    requires END !in a
    ensures LinesFrom(a + ([END] + b), begun) == [begun + a] + LinesFrom(b, [])
    ensures TailFrom(a + ([END] + b), begun) == TailFrom(b, [])
    decreases |a|
  {
    if a == [] {
      assert a + ([END] + b) == [END] + b && ([END] + b)[1..] == b && begun + a == begun;
    } else {
      assert (a + ([END] + b))[1..] == a[1..] + ([END] + b);
      FirstLine(a[1..], b, begun + [a[0]]);
      assert begun + [a[0]] + a[1..] == begun + a;
    }
  }

  lemma {:induction false} StripOnOneLine(ts: seq<Token>, inComment: bool)
    requires END !in ts
    ensures END !in Strip(ts, inComment)
    decreases |ts|
  {
    if ts != [] {
      StripOnOneLine(ts[1..], true);
      StripOnOneLine(ts[1..], false);
    }
  }

  /** The lines of a text are the lines of its parts between line ends. */
  lemma TextByLines(s: string, end: char, rest: string)
    requires END !in Lex(s) && IsLineEnd(end)
    ensures var ts := Lex(s + ([end] + rest));
            LinesOf(ts) == [Strip(Lex(s), false)] + LinesOf(Lex(rest)) && Tail(ts) == Tail(Lex(rest))
  {
    hide Lex, Strip, LinesFrom, TailFrom;
    LexBeforeEnd(s, end, rest);
    StripLines(Lex(s), Lex(rest), false);
    StripOnOneLine(Lex(s), false);
    FirstLine(Strip(Lex(s), false), Strip(Lex(rest), false), []);
    assert [] + Strip(Lex(s), false) == Strip(Lex(s), false);
  }

  // ----- rows -----

  /** What a reader sees on a line: nothing, a label, an instruction, or both. */
  datatype Content = Nothing | Named(name: string) | Code(i: Instruction) | NamedCode(name: string, i: Instruction)

  /** A line as it stands in a file: blanks in front, blanks and a comment behind, and its line end. */
  datatype Row = Row(indent: string, content: Content, after: string, end: char)

  /** Blanks, then perhaps a # and anything up to the line end. */
  predicate IsRemark(s: string)
  {
    s == "" || (IsSpace(s[0]) && IsRemark(s[1..])) || (s[0] == '#' && OnOneLine(s))
  }

  predicate IsName(name: string) { IsLexeme(Word(name)) }

  predicate IsContent(c: Content)
  {
    match c
    case Nothing => true
    case Named(name) => IsName(name)
    case Code(i) => IsCanonical(i)
    case NamedCode(name, i) => IsName(name) && IsCanonical(i)
  }

  predicate IsRow(r: Row)
  {
    IsGap(r.indent) && IsContent(r.content) && IsRemark(r.after) && IsLineEnd(r.end)
  }

  predicate AreRows(rows: seq<Row>) { forall k | 0 <= k < |rows| :: IsRow(rows[k]) }

  function ContentParts(c: Content): seq<Part>
    requires IsContent(c)
  {
    match c
    case Nothing => []
    case Named(name) => [Tight(Word(name)), Tight(COLON)]
    case Code(i) => PlainParts(LineWords(i))
    case NamedCode(name, i) => [Tight(Word(name)), Spaced(COLON)] + PlainParts(LineWords(i))
  }

  function ContentLine(c: Content): Line
    requires IsContent(c)
  {
    match c
    case Nothing => []
    case Named(name) => [Word(name), COLON]
    case Code(i) => LineWords(i)
    case NamedCode(name, i) => [Word(name), COLON] + LineWords(i)
  }

  function RowBody(r: Row): string
    requires IsRow(r)
  {
    r.indent + (TextOf(ContentParts(r.content)) + r.after)
  }

  function RowsText(rows: seq<Row>): string
    requires AreRows(rows)
  {
    if rows == [] then "" else RowBody(rows[0]) + ([rows[0].end] + RowsText(rows[1..]))
  }

  function RowLines(rows: seq<Row>): seq<Line>
    requires AreRows(rows)
  {
    seq(|rows|, k requires 0 <= k < |rows| => ContentLine(rows[k].content))
  }

  lemma ContentFits(c: Content)
    requires IsContent(c)
    ensures Fits(ContentParts(c)) && TokensOf(ContentParts(c)) == ContentLine(c)
  {
    hide IsCanonical, LineWords, IsLexeme, PlainParts, IsPart;
    match c
    case Nothing =>
    case Named(name) => NameFits(name);
    case Code(i) => PlainFits(i);
    case NamedCode(name, i) =>
      NameFits(name);
      PlainFits(i);
      FitsBehindLabel(name, PlainParts(LineWords(i)));
  }

  lemma NameFits(name: string)
    requires IsName(name)
    ensures IsPart(Tight(Word(name))) && IsPart(Tight(COLON)) && IsPart(Spaced(COLON))
    ensures Apart(Tight(Word(name)), ":") && Tight(COLON).text == ":" && Spaced(COLON).text == ":"
  {
  }

  lemma FitsBehindLabel(name: string, ps: seq<Part>)
    requires IsName(name) && Fits(ps)
    ensures var all := [Tight(Word(name)), Spaced(COLON)] + ps;
            Fits(all) && TokensOf(all) == [Word(name), COLON] + TokensOf(ps)
  {
    hide IsPart, IsName;
    NameFits(name);
    var all := [Tight(Word(name)), Spaced(COLON)] + ps;
    forall k | 0 <= k < |all| ensures IsPart(all[k]) {
      if k >= 2 { assert all[k] == ps[k - 2]; }
    }
    forall k | 0 <= k < |all| - 1 ensures Apart(all[k], all[k + 1].text) {
      if k >= 2 {
        assert Apart(ps[k - 2], ps[k - 2 + 1].text);
        assert all[k] == ps[k - 2] && all[k + 1] == ps[k - 2 + 1];
      }
    }
  }

  lemma {:induction false} RemarkOnOneLine(s: string)
    requires IsRemark(s)
    ensures OnOneLine(s) && EndsToken(s)
    decreases |s|
  {
    if s != "" && IsSpace(s[0]) {
      RemarkOnOneLine(s[1..]);
      forall i | 0 <= i < |s| ensures !IsLineEnd(s[i]) {
        if i > 0 { assert s[i] == s[1..][i - 1]; }
      }
    }
  }

  /** Blanks and a comment leave nothing. */
  lemma {:induction false} RemarkLeavesNothing(s: string)
    requires IsRemark(s)
    ensures Strip(Lex(s), false) == []
    decreases |s|
  {
    if s != "" {
      if IsSpace(s[0]) {
        RemarkLeavesNothing(s[1..]);
        assert Lex(s) == Lex(s[1..]);
      } else {
        forall i | 0 <= i < |s[1..]| ensures !IsLineEnd(s[1..][i]) { assert s[1..][i] == s[i + 1]; }
        LexOnOneLine(s[1..]);
        StripInComment(Lex(s[1..]));
        assert First(s) == (HASH, 1);
      }
    }
  }

  lemma {:induction false} StripInComment(ts: seq<Token>)
    requires END !in ts
    ensures Strip(ts, true) == []
    decreases |ts|
  {
    if ts != [] { StripInComment(ts[1..]); }
  }

  lemma {:induction false} StripBehind(a: seq<Token>, b: seq<Token>)
    requires HASH !in a
    ensures Strip(a + b, false) == a + Strip(b, false)
    decreases |a|
  {
    if a == [] {
      assert a + b == b;
    } else {
      assert (a + b)[1..] == a[1..] + b;
      StripBehind(a[1..], b);
    }
  }

  lemma ContentHasNoSigns(c: Content)
    requires IsContent(c)
    ensures END !in ContentLine(c) && HASH !in ContentLine(c)
  {
    hide IsCanonical, LineWords, IsLexeme;
    if c.Code? || c.NamedCode? {
      LineWordsAreWords(c.i);
      forall t | t in LineWords(c.i) ensures t != END && t != HASH { assert IsPlain(t); }
    }
  }

  lemma RowBodyLexes(r: Row)
    requires IsRow(r)
    ensures END !in Lex(RowBody(r)) && Strip(Lex(RowBody(r)), false) == ContentLine(r.content)
  {
    hide Lex, Strip, IsGap, IsContent, IsRemark, Fits, TokensOf, TextOf, ContentParts, ContentLine;
    var ps := ContentParts(r.content);
    ContentFits(r.content);
    RemarkOnOneLine(r.after);
    LexOnOneLine(r.after);
    RemarkLeavesNothing(r.after);
    LexGap(r.indent, TextOf(ps) + r.after);
    LexParts(ps, r.after);
    ContentHasNoSigns(r.content);
    StripBehind(ContentLine(r.content), Lex(r.after));
    assert ContentLine(r.content) + [] == ContentLine(r.content);
  }

  /** Indentation, blanks and comments leave no trace: the lines of the text are what stands on its rows. */
  lemma {:induction false} RowsAreLines(rows: seq<Row>)
    requires AreRows(rows)
    ensures var ts := Lex(RowsText(rows));
            LinesOf(ts) == AllLines(ts) == RowLines(rows) && Tail(ts) == []
    decreases |rows|
  {
    hide Lex, LinesOf, Tail, RowBody, IsRow, ContentLine;
    if rows == [] {
      NoLines();
    } else {
      RowsAreLines(rows[1..]);
      RowBodyLexes(rows[0]);
      RowEnds(rows[0]);
      TextByLines(RowBody(rows[0]), rows[0].end, RowsText(rows[1..]));
      assert RowLines(rows) == [ContentLine(rows[0].content)] + RowLines(rows[1..]);
    }
    assert LinesOf(Lex(RowsText(rows))) + [] == LinesOf(Lex(RowsText(rows)));
  }

  lemma RowEnds(r: Row)
    requires IsRow(r)
    ensures IsLineEnd(r.end) && IsContent(r.content)
  {
  }

  lemma NoLines()
    ensures LinesOf(Lex("")) == [] && Tail(Lex("")) == []
  {
  }

  // ----- what the second pass emits -----

  /** The rows of a text on which something stands. */
  function Standing(rows: seq<Row>): seq<Content>
  {
    if rows == [] then []
    else (if rows[0].content.Nothing? then [] else [rows[0].content]) + Standing(rows[1..])
  }

  /** The colon of a label is in the token buffer after the line. */
  predicate StaleAfter(c: Content, stale: bool)
  {
    match c
    case Nothing => stale
    case Named(_) => true
    case NamedCode(_, _) => true
    case Code(i) => stale && IsBare(i.op)
  }

  /** The instruction of the line that comes through, if one does. */
  function Emits(c: Content, stale: bool): Program
  {
    if c.Code? && !(IsBare(c.i.op) && stale) then [c.i] else []
  }

  /** The instructions that come through: those behind a label on its line do not, nor do bare ones after a
      label as long as its colon is in the token buffer. */
  function Survivors(cs: seq<Content>, stale: bool): Program
  {
    if cs == [] then [] else Emits(cs[0], stale) + Survivors(cs[1..], StaleAfter(cs[0], stale))
  }

  lemma WordsOfLine(i: Instruction)
    requires IsCanonical(i)
    ensures var l := LineWords(i);
            l != [] && l[0].Word? && (|l| == 1 <==> IsBare(i.op)) && (|l| >= 2 ==> l[1] != COLON)
  {
    hide Name, Digits;
  }

  /** The line end of one line. */
  lemma EmitContent(s: Emission, c: Content, labels: seq<Label>)
    requires IsContent(c) && s.line == []
    ensures EmitLineEnd(s.(line := ContentLine(c)), labels)
            == Emitted(s.(staleColon := StaleAfter(c, s.staleColon),
                          program := s.program + Emits(c, s.staleColon)))
  {
    hide AssembleLine, IsCanonical, LineWords, IsBare;
    assert s.program + [] == s.program;
    if c.Code? {
      LineRoundTrip(c.i, labels);
      WordsOfLine(c.i);
    }
  }

  lemma {:induction false} EmitRows(s: Emission, rows: seq<Row>, labels: seq<Label>)
    requires AreRows(rows) && s.line == []
    ensures var r := EmitLines(s, RowLines(rows), labels);
            r.Emitted? && r.value.program == s.program + Survivors(Standing(rows), s.staleColon)
    decreases |rows|
  {
    hide EmitLineEnd, IsRow, ContentLine, Emits, StaleAfter;
    if rows == [] {
      assert s.program + [] == s.program;
    } else {
      var c := rows[0].content;
      assert IsRow(rows[0]);
      RowEnds(rows[0]);
      EmitContent(s, c, labels);
      var emitted := Emits(c, s.staleColon);
      var next := s.(staleColon := StaleAfter(c, s.staleColon), program := s.program + emitted);
      EmitRows(next, rows[1..], labels);
      assert RowLines(rows)[1..] == RowLines(rows[1..]) && s.line + ContentLine(c) == ContentLine(c);
      var rest := Standing(rows[1..]);
      assert s.program + emitted + Survivors(rest, next.staleColon)
          == s.program + (emitted + Survivors(rest, next.staleColon));
      if c.Nothing? {
        NothingEmits(s.staleColon);
        assert [] + Survivors(rest, next.staleColon) == Survivors(rest, next.staleColon);
        assert Standing(rows) == rest;
      } else {
        assert Standing(rows)[1..] == rest;
      }
    }
  }

  lemma NothingEmits(stale: bool)
    ensures Emits(Nothing, stale) == [] && StaleAfter(Nothing, stale) == stale
  {
  }

  // ----- what the first pass records -----

  /** `kept` says that a bare line taken for a label is still in the token buffer; it is counted as one
      instruction together with the next line that is not blank. */
  datatype Tally = Tally(labels: seq<Label>, count: nat, stale: bool, kept: bool)

  function TallyLine(t: Tally, c: Content): Tally
  {
    if t.kept && !c.Nothing? then t.(count := t.count + 1, stale := false, kept := false)
    else
      match c
      case Nothing => t
      case Named(name) => t.(labels := t.labels + [Label(name, t.count)], stale := true)
      case NamedCode(name, _) => t.(labels := t.labels + [Label(name, t.count)], stale := true)
      case Code(i) =>
        if IsBare(i.op) && t.stale then t.(kept := true) else t.(count := t.count + 1, stale := false)
  }

  function Tallied(cs: seq<Content>, t: Tally): Tally
    decreases |cs|
  {
    if cs == [] then t else Tallied(cs[1..], TallyLine(t, cs[0]))
  }

  predicate Shows(s: Index, t: Tally)
  {
    && s.labels == t.labels && s.lc == t.count && s.staleColon == t.stale
    && if t.kept then |s.line| == 1 && s.line[0].Word? && t.stale else s.line == []
  }

  lemma IndexContent(s: Index, t: Tally, c: Content)
    requires IsContent(c) && Shows(s, t)
    ensures Shows(IndexLineEnd(s.(line := s.line + ContentLine(c))), TallyLine(t, c))
  {
    hide IsCanonical, LineWords, IsBare;
    if c.Code? || c.NamedCode? { WordsOfLine(c.i); }
    assert s.line + [] == s.line;
    if s.line == [] {
      assert s.line + ContentLine(c) == ContentLine(c);
    } else if !c.Nothing? {
      assert (s.line + ContentLine(c))[1] == ContentLine(c)[0];
    }
  }

  lemma {:induction false} IndexRows(s: Index, t: Tally, rows: seq<Row>)
    requires AreRows(rows) && Shows(s, t)
    ensures Shows(IndexLines(s, RowLines(rows)), Tallied(Standing(rows), t))
    decreases |rows|
  {
    hide IndexLineEnd, IsRow, ContentLine, TallyLine, Shows;
    if rows != [] {
      var c := rows[0].content;
      assert IsRow(rows[0]);
      RowEnds(rows[0]);
      IndexContent(s, t, c);
      IndexRows(IndexLineEnd(s.(line := s.line + ContentLine(c))), TallyLine(t, c), rows[1..]);
      assert RowLines(rows)[1..] == RowLines(rows[1..]);
      if c.Nothing? {
        NothingCounts(t);
        assert Standing(rows) == Standing(rows[1..]);
      } else {
        assert Standing(rows)[1..] == Standing(rows[1..]);
      }
    }
  }

  lemma NothingCounts(t: Tally)
    ensures TallyLine(t, Nothing) == t
  {
  }

  // ----- the theorem -----

  const NO_TALLY := Tally([], 0, false, false)

  /** What the assembler makes of any text of such lines, clean or not, whatever its indentation and
      comments: the label table and count of the first pass, and the program. */
  lemma RowsAssemble(rows: seq<Row>)
    requires AreRows(rows)
    ensures var index, tally := IndexFrom(START_INDEX, Lex(RowsText(rows))), Tallied(Standing(rows), NO_TALLY);
            index.labels == tally.labels && index.lc == tally.count
    ensures AssembleText(RowsText(rows)) == Emitted(Survivors(Standing(rows), false))
  {
    hide EmitLines, IndexLines, EmitFrom, IndexFrom, LinesOf, RowLines, Lex, RowsText, Survivors, Tallied, Standing;
    var ts := Lex(RowsText(rows));
    var labels := IndexFrom(START_INDEX, ts).labels;
    RowsAreLines(rows);
    PassesSeeLines(ts, labels);
    IndexRows(START_INDEX, NO_TALLY, rows);
    EmitRows(START_EMISSION, rows, labels);
    assert [] + Survivors(Standing(rows), false) == Survivors(Standing(rows), false);
  }

  /** The instructions a reader sees. */
  function CountCode(cs: seq<Content>): nat
  {
    if cs == [] then 0 else (if cs[0].Code? || cs[0].NamedCode? then 1 else 0) + CountCode(cs[1..])
  }

  lemma {:induction false} HeldOnRows(rows: seq<Row>)
    requires AreRows(rows)
    ensures CountHeld(RowLines(rows)) == CountCode(Standing(rows))
    decreases |rows|
  {
    hide IsRow, ContentLine, HoldsInstruction;
    if rows != [] {
      var c := rows[0].content;
      assert IsRow(rows[0]);
      RowEnds(rows[0]);
      HeldOnLine(c);
      HeldOnRows(rows[1..]);
      assert RowLines(rows)[1..] == RowLines(rows[1..]);
      if c.Nothing? {
        assert Standing(rows) == Standing(rows[1..]);
      } else {
        assert Standing(rows)[1..] == Standing(rows[1..]);
      }
    }
  }

  lemma HeldOnLine(c: Content)
    requires IsContent(c)
    ensures HoldsInstruction(ContentLine(c)) <==> c.Code? || c.NamedCode?
  {
    hide IsCanonical, LineWords, IsBare;
    if c.Code? || c.NamedCode? { WordsOfLine(c.i); }
  }

  /** An instruction behind a label on its line is lost without a word. */
  lemma InstructionBehindLabelIsLost(name: string, i: Instruction)
    requires IsName(name) && IsCanonical(i)
    ensures var row := Row("", NamedCode(name, i), "", '\n');
            && AreRows([row]) && CountHeld(AllLines(Lex(RowsText([row])))) == 1
            && AssembleText(RowsText([row])) == Emitted([])
  {
    hide IsCanonical, Lex, AllLines, RowsText, LineWords, AssembleText, IsName;
    var row := Row("", NamedCode(name, i), "", '\n');
    assert IsRow(row) && [row][1..] == [];
    RowsAssemble([row]);
    RowsAreLines([row]);
    WordsOfLine(i);
    HeldOfOne(ContentLine(row.content));
    assert RowLines([row]) == [ContentLine(row.content)];
    assert Standing([row]) == [row.content] + Standing([]) && [row.content][1..] == [];
    assert Survivors([row.content], false) == [] + Survivors([], true);
  }

  lemma HeldOfOne(l: Line)
    ensures CountHeld([l]) == if HoldsInstruction(l) then 1 else 0
  {
    assert [l][1..] == [];
  }

  lemma SemicolonRows(note: string, i: Instruction)
    requires OnOneLine(note) && IsCanonical(i)
    ensures var rows := [Row("", Nothing, "#" + note, ';'), Row("", Code(i), "", '\n')];
            AreRows(rows) && RowsText(rows) == "#" + note + ";" + TextOf(PlainParts(LineWords(i))) + "\n"
  {
    hide IsCanonical, LineWords, PlainParts;
    var first, second := Row("", Nothing, "#" + note, ';'), Row("", Code(i), "", '\n');
    var rows, words := [first, second], TextOf(PlainParts(LineWords(i)));
    assert OnOneLine("#" + note);
    assert IsRow(first) && IsRow(second);
    assert rows[1..] == [second] && [second][1..] == [];
    assert RowBody(first) == "#" + note && RowBody(second) == words;
    assert RowsText([second]) == words + "\n";
    assert RowsText(rows) == ("#" + note) + (";" + (words + "\n"));
  }

  /** A comment ends at its first semicolon: what follows on the same line of the file is assembled. */
  lemma SemicolonEndsComment(note: string, i: Instruction)
    requires OnOneLine(note) && IsCanonical(i)
    ensures AssembleText("#" + note + ";" + TextOf(PlainParts(LineWords(i))) + "\n") == Emitted([i])
  {
    hide IsCanonical, RowsText, LineWords, AssembleText, TextOf, PlainParts;
    var rows := [Row("", Nothing, "#" + note, ';'), Row("", Code(i), "", '\n')];
    SemicolonRows(note, i);
    RowsAssemble(rows);
    var code := [Code(i)];
    assert rows[1..][1..] == [] && code[1..] == [];
    assert Standing(rows[1..]) == code + Standing([]);
    assert Standing(rows) == [] + Standing(rows[1..]);
    assert Standing(rows) == code;
    assert Survivors(code, false) == [i] + Survivors([], false);
    assert Survivors(code, false) == [i];
    assert AssembleText(RowsText(rows)) == Emitted([i]);
    assert RowsText(rows) == "#" + note + ";" + TextOf(PlainParts(LineWords(i))) + "\n";
  }
}
