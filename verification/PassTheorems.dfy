/** What the two passes do with whole token lists: comments and blank lines are invisible, and the
    passes agree exactly on lists that are clean. */
module PassTheorems {
  import opened Semantics
  import opened Tokenizer
  import opened Keywords
  import opened Assembler
  import opened Passes

  // ----- comments and blank lines -----

  /** Drops every comment from its `#` up to, but not including, its line end. */
  function Strip(ts: seq<Token>, inComment: bool): (r: seq<Token>)
    ensures HASH !in r
    decreases |ts|
  {
    if ts == [] then []
    else if inComment && ts[0] != END then Strip(ts[1..], true)
    else if !inComment && ts[0] == HASH then Strip(ts[1..], true)
    else [ts[0]] + Strip(ts[1..], false)
  }

  /** Makes one line end of consecutive ones. */
  function Collapse(ts: seq<Token>): (r: seq<Token>)
    ensures forall t | t in r :: t in ts
    decreases |ts|
  {
    if ts == [] then []
    else if |ts| > 1 && ts[0] == END && ts[1] == END then Collapse(ts[1..])
    else [ts[0]] + Collapse(ts[1..])
  }

  lemma {:induction false} IndexStrip(s: Index, ts: seq<Token>)
    ensures IndexFrom(s, ts).(comment := false) == IndexFrom(s.(comment := false), Strip(ts, s.comment))
    decreases |ts|
  {
    if ts != [] {
      IndexStrip(IndexToken(s, ts[0]), ts[1..]);
      if !(s.comment && ts[0] != END) && !(!s.comment && ts[0] == HASH) {
        IndexFromCons(s.(comment := false), ts[0], Strip(ts[1..], false));
      }
    }
  }

  lemma IndexFromCons(s: Index, t: Token, ts: seq<Token>)
    ensures IndexFrom(s, [t] + ts) == IndexFrom(IndexToken(s, t), ts)
  {
    assert ([t] + ts)[1..] == ts;
  }

  lemma {:induction false} IndexCollapse(s: Index, ts: seq<Token>)
    requires !s.comment && HASH !in ts
    ensures IndexFrom(s, Collapse(ts)) == IndexFrom(s, ts)
    decreases |ts|
  {
    if ts != [] {
      var next := IndexToken(s, ts[0]);
      if |ts| > 1 && ts[0] == END && ts[1] == END {
        IndexCollapse(s, ts[1..]);
        assert IndexToken(next, END) == IndexToken(s, END);
        assert IndexFrom(s, ts[1..]) == IndexFrom(IndexToken(s, END), ts[1..][1..]);
        assert IndexFrom(next, ts[1..]) == IndexFrom(IndexToken(next, END), ts[1..][1..]);
      } else {
        IndexCollapse(next, ts[1..]);
        IndexFromCons(s, ts[0], Collapse(ts[1..]));
      }
    }
  }

  lemma {:induction false} EmitFromCons(s: Emission, t: Token, ts: seq<Token>, labels: seq<Label>)
    ensures EmitFrom(s, [t] + ts, labels) == match EmitToken(s, t, labels)
                                             case Aborted(e) => Aborted(e)
                                             case Emitted(next) => EmitFrom(next, ts, labels)
  {
    assert ([t] + ts)[1..] == ts;
  }

  ghost function Uncommented(r: Assembled<Emission>): Assembled<Emission>
  {
    match r
    case Emitted(s) => Emitted(s.(comment := false))
    case Aborted(e) => Aborted(e)
  }

  lemma {:induction false} EmitStrip(s: Emission, ts: seq<Token>, labels: seq<Label>)
    ensures Uncommented(EmitFrom(s, ts, labels)) == EmitFrom(s.(comment := false), Strip(ts, s.comment), labels)
    decreases |ts|
  {
    hide AssembleLine;
    if ts != [] {
      var next := EmitToken(s, ts[0], labels);
      if next.Emitted? { EmitStrip(next.value, ts[1..], labels); }
      if !(s.comment && ts[0] != END) && !(!s.comment && ts[0] == HASH) {
        EmitFromCons(s.(comment := false), ts[0], Strip(ts[1..], false), labels);
      }
    }
  }

  /** A second line end finds the buffer as the first one left it. */
  lemma EmitEndTwice(s: Emission, labels: seq<Label>)
    requires !s.comment && EmitToken(s, END, labels).Emitted?
    ensures var next := EmitToken(s, END, labels).value;
            !next.comment && EmitToken(next, END, labels) == Emitted(next)
  {
    hide AssembleLine;
  }

  lemma {:induction false} EmitCollapse(s: Emission, ts: seq<Token>, labels: seq<Label>)
    requires !s.comment && HASH !in ts
    ensures EmitFrom(s, Collapse(ts), labels) == EmitFrom(s, ts, labels)
    decreases |ts|
  {
    hide AssembleLine, EmitLineEnd;
    if ts != [] {
      var next := EmitToken(s, ts[0], labels);
      if |ts| > 1 && ts[0] == END && ts[1] == END {
        EmitCollapse(s, ts[1..], labels);
        if next.Emitted? { EmitEndTwice(s, labels); }
      } else {
        if next.Emitted? {
          EmitKeepsUncommented(s, ts[0], labels);
          EmitCollapse(next.value, ts[1..], labels);
        }
        EmitFromCons(s, ts[0], Collapse(ts[1..]), labels);
      }
    }
  }

  lemma EmitKeepsUncommented(s: Emission, t: Token, labels: seq<Label>)
    requires !s.comment && t != HASH && EmitToken(s, t, labels).Emitted?
    ensures !EmitToken(s, t, labels).value.comment
  {
    hide AssembleLine;
  }

  ghost function ProgramOf(r: Assembled<Emission>): Assembled<Program>
  {
    match r
    case Emitted(s) => Emitted(s.program)
    case Aborted(e) => Aborted(e)
  }

  function Tidy(ts: seq<Token>): seq<Token> { Collapse(Strip(ts, false)) }

  /** Comments and blank lines change neither the label table nor the program nor an abort, for all
      token lists, clean or not. */
  lemma CommentsAndBlanksInvisible(ts: seq<Token>, labels: seq<Label>)
    ensures IndexFrom(START_INDEX, Tidy(ts)).labels == IndexFrom(START_INDEX, ts).labels
    ensures IndexFrom(START_INDEX, Tidy(ts)).lc == IndexFrom(START_INDEX, ts).lc
    ensures ProgramOf(EmitFrom(START_EMISSION, Tidy(ts), labels)) == ProgramOf(EmitFrom(START_EMISSION, ts, labels))
  {
    IndexStrip(START_INDEX, ts);
    IndexCollapse(START_INDEX, Strip(ts, false));
    EmitStrip(START_EMISSION, ts, labels);
    EmitCollapse(START_EMISSION, Strip(ts, false), labels);
  }

  // ----- lines -----

  type Line = seq<Token>

  /** The terminated lines of a list without comments; `begun` is the start of the first one. */
  function LinesFrom(ts: seq<Token>, begun: Line): seq<Line>
    decreases |ts|
  {
    if ts == [] then []
    else if ts[0] == END then [begun] + LinesFrom(ts[1..], [])
    else LinesFrom(ts[1..], begun + [ts[0]])
  }

  function LinesOf(ts: seq<Token>): seq<Line> { LinesFrom(Strip(ts, false), []) }

  /** What follows the last line end. */
  function TailFrom(ts: seq<Token>, begun: Line): Line
    decreases |ts|
  {
    if ts == [] then begun
    else if ts[0] == END then TailFrom(ts[1..], [])
    else TailFrom(ts[1..], begun + [ts[0]])
  }

  /** The last line of a list when nothing terminates it, without its comment. */
  function Tail(ts: seq<Token>): Line { TailFrom(Strip(ts, false), []) }

  /** The lines a reader sees: the terminated ones and, if there is one, the unterminated last. */
  function AllLines(ts: seq<Token>): seq<Line>
  {
    LinesOf(ts) + if Tail(ts) == [] then [] else [Tail(ts)]
  }

  function IndexLines(s: Index, lines: seq<Line>): Index
    decreases |lines|
  {
    if lines == [] then s else IndexLines(IndexLineEnd(s.(line := s.line + lines[0])), lines[1..])
  }

  ghost function EmitLines(s: Emission, lines: seq<Line>, labels: seq<Label>): Assembled<Emission>
    decreases |lines|
  {
    if lines == [] then Emitted(s)
    else
      match EmitLineEnd(s.(line := s.line + lines[0]), labels)
      case Aborted(e) => Aborted(e)
      case Emitted(t) => EmitLines(t, lines[1..], labels)
  }

  lemma {:induction false} IndexByLines(s: Index, ts: seq<Token>, begun: Line)
    requires !s.comment && HASH !in ts
    ensures var a, b := IndexFrom(s.(line := s.line + begun), ts), IndexLines(s, LinesFrom(ts, begun));
            a.labels == b.labels && a.lc == b.lc
    decreases |ts|
  {
    if ts != [] {
      var at := s.(line := s.line + begun);
      if ts[0] == END {
        var next := IndexLineEnd(at);
        IndexByLines(next, ts[1..], []);
        assert next.line + [] == next.line;
        assert ([begun] + LinesFrom(ts[1..], []))[1..] == LinesFrom(ts[1..], []);
      } else {
        IndexByLines(s, ts[1..], begun + [ts[0]]);
        assert s.line + (begun + [ts[0]]) == (s.line + begun) + [ts[0]];
      }
    }
  }

  lemma {:induction false} EmitByLines(s: Emission, ts: seq<Token>, begun: Line, labels: seq<Label>)
    requires !s.comment && HASH !in ts
    ensures ProgramOf(EmitFrom(s.(line := s.line + begun), ts, labels))
            == ProgramOf(EmitLines(s, LinesFrom(ts, begun), labels))
    decreases |ts|
  {
    hide AssembleLine, EmitLineEnd;
    if ts != [] {
      var at := s.(line := s.line + begun);
      if ts[0] == END {
        var next := EmitLineEnd(at, labels);
        assert EmitToken(at, ts[0], labels) == next;
        assert ([begun] + LinesFrom(ts[1..], []))[1..] == LinesFrom(ts[1..], []);
        if next.Emitted? {
          EmitKeepsUncommented(at, END, labels);
          EmitByLines(next.value, ts[1..], [], labels);
          assert next.value.line + [] == next.value.line;
        }
      } else {
        EmitByLines(s, ts[1..], begun + [ts[0]], labels);
        assert s.line + (begun + [ts[0]]) == (s.line + begun) + [ts[0]];
      }
    }
  }

  /** Both passes see a token list as its terminated lines without comments. */
  lemma PassesSeeLines(ts: seq<Token>, labels: seq<Label>)
    ensures IndexFrom(START_INDEX, ts).labels == IndexLines(START_INDEX, LinesOf(ts)).labels
    ensures IndexFrom(START_INDEX, ts).lc == IndexLines(START_INDEX, LinesOf(ts)).lc
    ensures ProgramOf(EmitFrom(START_EMISSION, ts, labels))
            == ProgramOf(EmitLines(START_EMISSION, LinesOf(ts), labels))
  {
    hide IndexToken, EmitToken, LinesFrom, IndexLineEnd, EmitLineEnd;
    assert START_INDEX.line + [] == [] && START_EMISSION.line + [] == [];
    IndexStrip(START_INDEX, ts);
    IndexByLines(START_INDEX, Strip(ts, false), []);
    EmitStrip(START_EMISSION, ts, labels);
    EmitByLines(START_EMISSION, Strip(ts, false), [], labels);
  }

  // ----- which lines are labels and which are instructions -----

  predicate IsLabelLine(l: Line) { |l| >= 2 && l[0].Word? && l[1] == COLON }

  predicate IsInstructionLine(l: Line) { l != [] && !IsLabelLine(l) }

  function CountInstructions(lines: seq<Line>): nat
  {
    if lines == [] then 0 else (if IsInstructionLine(lines[0]) then 1 else 0) + CountInstructions(lines[1..])
  }

  function CountLabels(lines: seq<Line>): nat
  {
    if lines == [] then 0 else (if IsLabelLine(lines[0]) then 1 else 0) + CountLabels(lines[1..])
  }

  /** Every declared label with the number of instruction lines before it, counted from `base`. */
  function DeclaredLabels(lines: seq<Line>, base: nat): (r: seq<Label>)
    ensures |r| == CountLabels(lines)
    decreases |lines|
  {
    if lines == [] then []
    else if IsLabelLine(lines[0]) then [Label(lines[0][0].text, base)] + DeclaredLabels(lines[1..], base)
    else DeclaredLabels(lines[1..], if IsInstructionLine(lines[0]) then base + 1 else base)
  }

  /** No one-token line comes after a label line before a longer line has replaced the colon in the
      token buffer. */
  predicate Clean(lines: seq<Line>, afterLabel: bool)
    decreases |lines|
  {
    if lines == [] then true
    else if lines[0] == [] then Clean(lines[1..], afterLabel)
    else if |lines[0]| == 1 then !afterLabel && Clean(lines[1..], false)
    else Clean(lines[1..], IsLabelLine(lines[0]))
  }

  /** The lexer makes numbers of digits. */
  predicate IsLexed(t: Token) { t.Number? ==> t.text != "" && IsNumber(t.text[0]) }

  predicate Lexed(ts: seq<Token>) { forall t | t in ts :: IsLexed(t) }

  predicate WellLexed(lines: seq<Line>)
  {
    forall i | 0 <= i < |lines| :: lines[i] != [] ==> IsLexed(lines[i][0])
  }

  lemma {:induction false} LinesWellLexed(ts: seq<Token>, begun: Line)
    requires Lexed(ts) && (begun != [] ==> IsLexed(begun[0]))
    ensures WellLexed(LinesFrom(ts, begun))
    decreases |ts|
  {
    hide IsLexed;
    if ts != [] {
      assert ts[0] in ts;
      assert forall t | t in ts[1..] :: t in ts;
      if ts[0] == END {
        LinesWellLexed(ts[1..], []);
      } else {
        LinesWellLexed(ts[1..], begun + [ts[0]]);
      }
    }
  }

  lemma {:induction false} StripSubset(ts: seq<Token>, inComment: bool)
    requires Lexed(ts)
    ensures Lexed(Strip(ts, inComment))
    decreases |ts|
  {
    if ts != [] {
      assert forall t | t in ts[1..] :: t in ts;
      StripSubset(ts[1..], inComment);
      StripSubset(ts[1..], true);
      StripSubset(ts[1..], false);
    }
  }

  /** An instruction line that does not abort starts with a word. */
  lemma AssembledLineStartsWithWord(l: Line, labels: seq<Label>)
    requires l != [] && IsLexed(l[0])
    ensures AssembleLine(l, labels).Emitted? ==> l[0].Word?
  {
    hide Name;
  }

  // ----- the second pass emits every instruction line exactly when the list is clean -----

  lemma {:induction false} EmittedCount(s: Emission, lines: seq<Line>, labels: seq<Label>)
    requires s.line == [] && WellLexed(lines) && EmitLines(s, lines, labels).Emitted?
    ensures var n := |EmitLines(s, lines, labels).value.program|;
            && n <= |s.program| + CountInstructions(lines)
            && (n == |s.program| + CountInstructions(lines) <==> Clean(lines, s.staleColon))
    decreases |lines|
  {
    hide AssembleLine;
    if lines != [] {
      var l := lines[0];
      assert s.line + l == l;
      if l != [] { AssembledLineStartsWithWord(l, labels); }
      var next := EmitLineEnd(s.(line := l), labels).value;
      EmittedCount(next, lines[1..], labels);
    }
  }

  // ----- the first pass sees every line exactly when the list is clean -----

  /** Lines that pass 2 would abort on: a colon second, after something that is not a word. */
  predicate NoStrayColon(lines: seq<Line>)
  {
    forall i | 0 <= i < |lines| && |lines[i]| >= 2 && lines[i][1] == COLON :: lines[i][0].Word?
  }

  /** Between lines the buffer is empty or holds one word taken for a label by mistake. */
  predicate IndexAtRest(s: Index)
  {
    s.line == [] || (|s.line| == 1 && s.line[0].Word? && s.staleColon)
  }

  function Seen(s: Index): nat { |s.labels| + s.lc }

  /** An ordinary line, with no word kept and no one-token line after a label. */
  lemma IndexOrdinaryLine(s: Index, l: Line)
    requires s.line == [] && !(|l| == 1 && s.staleColon) && (|l| >= 2 && l[1] == COLON ==> l[0].Word?)
    ensures var t := IndexLineEnd(s.(line := l));
            && t.line == []
            && t.staleColon == (if l == [] then s.staleColon else IsLabelLine(l))
            && t.labels == s.labels + (if IsLabelLine(l) then [Label(l[0].text, s.lc)] else [])
            && t.lc == s.lc + (if IsInstructionLine(l) then 1 else 0)
  {
  }

  /** A one-token line after a label is not counted; a word is kept in the buffer. */
  lemma IndexMissedLine(s: Index, l: Line)
    requires s.line == [] && |l| == 1 && s.staleColon
    ensures var t := IndexLineEnd(s.(line := l)); IndexAtRest(t) && t.staleColon && Seen(t) == Seen(s)
  {
  }

  /** A line read behind a kept word makes one label or one instruction of the two. */
  lemma IndexMergedLine(s: Index, l: Line)
    requires IndexAtRest(s) && s.line != []
    ensures var t := IndexLineEnd(s.(line := s.line + l));
            IndexAtRest(t) && Seen(t) <= Seen(s) + (if l == [] then 0 else 1)
  {
    if l != [] { assert (s.line + l)[1] == l[0]; }
  }

  /** A line with a colon second and no word first, on which pass 2 aborts, is neither recorded nor counted. */
  lemma IndexStrayColon(s: Index, l: Line)
    requires s.line == [] && |l| >= 2 && l[1] == COLON && !l[0].Word?
    ensures IndexLineEnd(s.(line := l)) == s.(staleColon := true)
  {
  }

  /** A line that is not empty is a label or an instruction. */
  function CountLines(lines: seq<Line>): nat
  {
    if lines == [] then 0 else (if lines[0] == [] then 0 else 1) + CountLines(lines[1..])
  }

  lemma {:induction false} LinesAreLabelsOrInstructions(lines: seq<Line>)
    ensures CountLines(lines) == CountLabels(lines) + CountInstructions(lines)
    decreases |lines|
  {
    if lines != [] { LinesAreLabelsOrInstructions(lines[1..]); }
  }

  /** Pass 1 sees no more lines than there are, and all of them exactly when the list is clean. */
  lemma {:induction false} IndexedCount(s: Index, lines: seq<Line>)
    requires IndexAtRest(s) && NoStrayColon(lines)
    ensures var t := IndexLines(s, lines);
            && Seen(t) <= Seen(s) + CountLines(lines)
            && (s.line == [] ==> (Seen(t) == Seen(s) + CountLines(lines) <==> Clean(lines, s.staleColon)))
    decreases |lines|
  {
    hide IndexLineEnd;
    if lines != [] {
      var l := lines[0];
      assert s.line == [] ==> s.line + l == l;
      if s.line != [] {
        IndexMergedLine(s, l);
      } else if |l| == 1 && s.staleColon {
        IndexMissedLine(s, l);
      } else {
        IndexOrdinaryLine(s, l);
      }
      NoStrayColonTail(lines);
      IndexedCount(IndexLineEnd(s.(line := s.line + l)), lines[1..]);
    }
  }

  /** On a clean list pass 1 records exactly the declared labels. */
  lemma {:induction false} IndexedTable(s: Index, lines: seq<Line>)
    requires s.line == [] && NoStrayColon(lines) && Clean(lines, s.staleColon)
    ensures var t := IndexLines(s, lines);
            t.labels == s.labels + DeclaredLabels(lines, s.lc) && t.lc == s.lc + CountInstructions(lines)
    decreases |lines|
  {
    hide IndexLineEnd;
    if lines != [] {
      var l := lines[0];
      assert s.line + l == l;
      IndexOrdinaryLine(s, l);
      NoStrayColonTail(lines);
      IndexedTable(IndexLineEnd(s.(line := l)), lines[1..]);
    }
  }

  lemma NoStrayColonTail(lines: seq<Line>)
    requires lines != [] && NoStrayColon(lines)
    ensures NoStrayColon(lines[1..])
  {
    var rest := lines[1..];
    forall i | 0 <= i < |rest| && |rest[i]| >= 2 && rest[i][1] == COLON ensures rest[i][0].Word? {
      assert rest[i] == lines[i + 1];
    }
  }

  lemma {:induction false} EmittedHasNoStrayColon(s: Emission, lines: seq<Line>, labels: seq<Label>)
    requires s.line == [] && WellLexed(lines) && EmitLines(s, lines, labels).Emitted?
    ensures NoStrayColon(lines)
    decreases |lines|
  {
    hide AssembleLine;
    if lines != [] {
      var l := lines[0];
      assert s.line + l == l;
      if l != [] { AssembledLineStartsWithWord(l, labels); }
      EmittedHasNoStrayColon(EmitLineEnd(s.(line := l), labels).value, lines[1..], labels);
      forall i | 0 <= i < |lines| && |lines[i]| >= 2 && lines[i][1] == COLON ensures lines[i][0].Word? {
        if i > 0 { assert lines[i] == lines[1..][i - 1]; }
      }
    }
  }

  // ----- the terminated lines against all lines -----

  lemma LinesOfWellLexed(ts: seq<Token>)
    requires Lexed(ts)
    ensures WellLexed(LinesOf(ts))
  {
    StripSubset(ts, false);
    LinesWellLexed(Strip(ts, false), []);
  }

  lemma {:induction false} CountsAppend(lines: seq<Line>, last: Line)
    ensures CountInstructions(lines + [last]) == CountInstructions(lines) + (if IsInstructionLine(last) then 1 else 0)
    ensures CountLines(lines + [last]) == CountLines(lines) + (if last == [] then 0 else 1)
    decreases |lines|
  {
    hide IsInstructionLine;
    if lines == [] {
      assert lines + [last] == [last] && [last][1..] == [];
    } else {
      CountsAppend(lines[1..], last);
      assert (lines + [last])[1..] == lines[1..] + [last];
    }
  }

  /** The last line, when nothing terminates it, adds to the lines a reader sees. */
  lemma AllLinesCount(ts: seq<Token>)
    ensures CountInstructions(AllLines(ts))
            == CountInstructions(LinesOf(ts)) + (if IsInstructionLine(Tail(ts)) then 1 else 0)
    ensures CountLines(AllLines(ts)) == CountLines(LinesOf(ts)) + (if Tail(ts) == [] then 0 else 1)
    ensures Tail(ts) == [] ==> AllLines(ts) == LinesOf(ts)
  {
    hide CountInstructions, CountLines, LinesOf, Tail;
    if Tail(ts) == [] {
      assert LinesOf(ts) + [] == LinesOf(ts);
    } else {
      CountsAppend(LinesOf(ts), Tail(ts));
    }
  }

  // ----- what a reader sees on a line -----

  /** A reader also sees the instruction that stands behind a label on its line. */
  predicate HoldsInstruction(l: Line) { if IsLabelLine(l) then |l| > 2 else l != [] }

  function CountHeld(lines: seq<Line>): nat
  {
    if lines == [] then 0 else (if HoldsInstruction(lines[0]) then 1 else 0) + CountHeld(lines[1..])
  }

  /** Every label with the number of instructions a reader sees before it. */
  function ReaderLabels(lines: seq<Line>, base: nat): (r: seq<Label>)
    ensures |r| == CountLabels(lines)
    decreases |lines|
  {
    if lines == [] then []
    else
      (if IsLabelLine(lines[0]) then [Label(lines[0][0].text, base)] else [])
      + ReaderLabels(lines[1..], if HoldsInstruction(lines[0]) then base + 1 else base)
  }

  /** Nothing stands behind a label on its line. */
  predicate LabelsStandAlone(lines: seq<Line>)
  {
    forall i | 0 <= i < |lines| && IsLabelLine(lines[i]) :: |lines[i]| == 2
  }

  lemma AloneTail(lines: seq<Line>)
    requires lines != []
    ensures LabelsStandAlone(lines) <==> (IsLabelLine(lines[0]) ==> |lines[0]| == 2) && LabelsStandAlone(lines[1..])
  {
    hide IsLabelLine;
    forall i | 0 <= i < |lines[1..]| ensures lines[1..][i] == lines[i + 1] {}
    forall i | 0 < i < |lines| ensures lines[i] == lines[1..][i - 1] {}
  }

  /** The instructions on lines of their own are at most those a reader sees, and all of them exactly when
      the labels stand alone. */
  lemma {:induction false} HeldCount(lines: seq<Line>)
    ensures CountInstructions(lines) <= CountHeld(lines)
    ensures CountInstructions(lines) == CountHeld(lines) <==> LabelsStandAlone(lines)
    decreases |lines|
  {
    if lines != [] {
      HeldCount(lines[1..]);
      AloneTail(lines);
    }
  }

  lemma {:induction false} ReaderLabelsAlone(lines: seq<Line>, base: nat)
    requires LabelsStandAlone(lines)
    ensures ReaderLabels(lines, base) == DeclaredLabels(lines, base)
    decreases |lines|
  {
    if lines != [] {
      AloneTail(lines);
      ReaderLabelsAlone(lines[1..], if HoldsInstruction(lines[0]) then base + 1 else base);
    }
  }

  /** What both passes make of a line: of a label line only the label. */
  function Cut(l: Line): Line { if IsLabelLine(l) then l[..2] else l }

  function CutAll(lines: seq<Line>): seq<Line>
  {
    seq(|lines|, k requires 0 <= k < |lines| => Cut(lines[k]))
  }

  lemma IndexIgnoresHeld(s: Index, l: Line)
    ensures IndexLineEnd(s.(line := s.line + Cut(l))) == IndexLineEnd(s.(line := s.line + l))
  {
    var a, b := s.line + Cut(l), s.line + l;
    if IsLabelLine(l) { assert |a| >= 2 && |b| >= 2 && a[0] == b[0] && a[1] == b[1]; }
  }

  lemma EmissionIgnoresHeld(s: Emission, l: Line, labels: seq<Label>)
    requires s.line == []
    ensures EmitLineEnd(s.(line := s.line + Cut(l)), labels) == EmitLineEnd(s.(line := s.line + l), labels)
    ensures var r := EmitLineEnd(s.(line := s.line + l), labels); r.Emitted? ==> r.value.line == []
  {
    hide AssembleLine;
    assert s.line + l == l && s.line + Cut(l) == Cut(l);
  }

  lemma {:induction false} IndexHeldInvisible(s: Index, lines: seq<Line>)
    ensures IndexLines(s, CutAll(lines)) == IndexLines(s, lines)
    decreases |lines|
  {
    hide IndexLineEnd, Cut;
    if lines != [] {
      IndexIgnoresHeld(s, lines[0]);
      IndexHeldInvisible(IndexLineEnd(s.(line := s.line + lines[0])), lines[1..]);
      assert CutAll(lines)[1..] == CutAll(lines[1..]);
    }
  }

  lemma {:induction false} EmitHeldInvisible(s: Emission, lines: seq<Line>, labels: seq<Label>)
    requires s.line == []
    ensures EmitLines(s, CutAll(lines), labels) == EmitLines(s, lines, labels)
    decreases |lines|
  {
    hide EmitLineEnd, Cut;
    if lines != [] {
      EmissionIgnoresHeld(s, lines[0], labels);
      var next := EmitLineEnd(s.(line := s.line + lines[0]), labels);
      if next.Emitted? { EmitHeldInvisible(next.value, lines[1..], labels); }
      assert CutAll(lines)[1..] == CutAll(lines[1..]);
    }
  }

  lemma CutKeeps(l: Line)
    ensures var c := Cut(l);
            && |c| <= |l| && (c == [] <==> l == []) && (|c| == 1 <==> |l| == 1) && (l != [] ==> c[0] == l[0])
            && (IsLabelLine(c) <==> IsLabelLine(l)) && (IsInstructionLine(c) <==> IsInstructionLine(l))
  {
  }

  /** The cut lines are as clean as the lines and have as many instructions. */
  lemma {:induction false} CutAllKeeps(lines: seq<Line>, afterLabel: bool)
    ensures Clean(CutAll(lines), afterLabel) <==> Clean(lines, afterLabel)
    ensures CountInstructions(CutAll(lines)) == CountInstructions(lines)
    decreases |lines|
  {
    hide Cut, IsLabelLine, IsInstructionLine;
    if lines != [] {
      CutKeeps(lines[0]);
      CutAllKeeps(lines[1..], afterLabel);
      CutAllKeeps(lines[1..], false);
      CutAllKeeps(lines[1..], IsLabelLine(lines[0]));
      assert CutAll(lines)[1..] == CutAll(lines[1..]);
    }
  }

  lemma CutAllWellLexed(lines: seq<Line>)
    requires WellLexed(lines)
    ensures WellLexed(CutAll(lines))
  {
    hide Cut, IsLexed;
    forall i | 0 <= i < |lines| && CutAll(lines)[i] != [] ensures IsLexed(CutAll(lines)[i][0]) { CutKeeps(lines[i]); }
  }

  /** What stands behind a label on its line is lost: both passes do with any list what they do with
      the lines cut off behind their labels. */
  lemma BehindLabelsIsLost(ts: seq<Token>, labels: seq<Label>)
    ensures var lines, index := CutAll(LinesOf(ts)), IndexFrom(START_INDEX, ts);
            && LabelsStandAlone(lines)
            && index.labels == IndexLines(START_INDEX, lines).labels && index.lc == IndexLines(START_INDEX, lines).lc
    ensures ProgramOf(EmitFrom(START_EMISSION, ts, labels))
            == ProgramOf(EmitLines(START_EMISSION, CutAll(LinesOf(ts)), labels))
  {
    hide IndexFrom, EmitFrom, IndexLines, EmitLines, LinesOf;
    PassesSeeLines(ts, labels);
    IndexHeldInvisible(START_INDEX, LinesOf(ts));
    EmitHeldInvisible(START_EMISSION, LinesOf(ts), labels);
  }

  // ----- the theorems -----

  /** No one-token line is lost behind a label, no instruction stands behind a label on its line, and the
      last line is terminated. */
  predicate KeepsEverything(ts: seq<Token>)
  {
    Clean(LinesOf(ts), false) && LabelsStandAlone(AllLines(ts)) && Tail(ts) == []
  }

  /** The two passes against what a reader sees: all lines, the last one included even when nothing
      terminates it, and on each of them the instruction behind a label too. When pass 2 does not abort:
      pass 1 records every label at the number of instructions before it and counts every instruction,
      exactly when the terminated lines are clean, the labels stand alone and nothing follows the last line
      end; and pass 2 emits every instruction exactly when the terminated lines are clean, the labels stand
      alone and no instruction follows. */
  lemma PassesFaithfulIffClean(ts: seq<Token>, labels: seq<Label>)
    requires Lexed(ts) && EmitFrom(START_EMISSION, ts, labels).Emitted?
    ensures var lines, index := AllLines(ts), IndexFrom(START_INDEX, ts);
            KeepsEverything(ts) <==> index.labels == ReaderLabels(lines, 0) && index.lc == CountHeld(lines)
    ensures var lines, program := AllLines(ts), EmitFrom(START_EMISSION, ts, labels).value.program;
            Clean(LinesOf(ts), false) && LabelsStandAlone(lines) && !IsInstructionLine(Tail(ts)) <==>
              |program| == CountHeld(lines)
  {
    hide AssembleLine, IndexLineEnd, Tail, LinesOf, CountInstructions, CountLabels, CountLines, IndexFrom, EmitFrom,
         IndexLines, EmitLines, Clean, IsInstructionLine, LabelsStandAlone, CountHeld;
    var lines := LinesOf(ts);
    LinesOfWellLexed(ts);
    PassesSeeLines(ts, labels);
    EmittedHasNoStrayColon(START_EMISSION, lines, labels);
    EmittedCount(START_EMISSION, lines, labels);
    IndexedCount(START_INDEX, lines);
    LinesAreLabelsOrInstructions(AllLines(ts));
    AllLinesCount(ts);
    HeldCount(AllLines(ts));
    if KeepsEverything(ts) {
      IndexedTable(START_INDEX, lines);
      ReaderLabelsAlone(lines, 0);
      assert [] + DeclaredLabels(lines, 0) == DeclaredLabels(lines, 0);
    }
  }

  /** On the terminated lines alone: the counts of both passes and the label table of a clean list. */
  lemma CleanPasses(ts: seq<Token>, labels: seq<Label>)
    requires Lexed(ts) && Clean(LinesOf(ts), false) && EmitFrom(START_EMISSION, ts, labels).Emitted?
    ensures var lines, index := LinesOf(ts), IndexFrom(START_INDEX, ts);
            && index.labels == DeclaredLabels(lines, 0)
            && index.lc == CountInstructions(lines) == |EmitFrom(START_EMISSION, ts, labels).value.program|
  {
    hide AssembleLine, IndexLineEnd, LinesOf, CountInstructions, IndexFrom, EmitFrom, IndexLines, EmitLines, Clean,
         DeclaredLabels;
    var lines := LinesOf(ts);
    LinesOfWellLexed(ts);
    PassesSeeLines(ts, labels);
    EmittedHasNoStrayColon(START_EMISSION, lines, labels);
    EmittedCount(START_EMISSION, lines, labels);
    IndexedTable(START_INDEX, lines);
    assert [] + DeclaredLabels(lines, 0) == DeclaredLabels(lines, 0);
  }

  predicate IsFirstDeclaration(lines: seq<Line>, i: nat, name: string)
  {
    i < |lines| && Declares(lines[i], name) && forall j | 0 <= j < i :: !Declares(lines[j], name)
  }

  lemma FirstDeclarationShifts(lines: seq<Line>, i: nat, name: string)
    requires lines != [] && !Declares(lines[0], name) && IsFirstDeclaration(lines[1..], i, name)
    ensures IsFirstDeclaration(lines, i + 1, name)
    ensures CountInstructions(lines[..i + 1])
            == (if IsInstructionLine(lines[0]) then 1 else 0) + CountInstructions(lines[1..][..i])
  {
    hide Declares, IsInstructionLine;
    forall j | 0 <= j < i + 1 ensures !Declares(lines[j], name) {
      if j > 0 { assert lines[j] == lines[1..][j - 1]; }
    }
    assert lines[..i + 1][1..] == lines[1..][..i];
  }

  /** The address of a name by its first declaration: the instruction lines before that line. */
  lemma {:induction false} LookupDeclared(lines: seq<Line>, base: nat, name: string)
    ensures match Lookup(DeclaredLabels(lines, base), name)
            case Some(a) =>
              exists i: nat :: IsFirstDeclaration(lines, i, name) && a == base + CountInstructions(lines[..i])
            case None => forall i | 0 <= i < |lines| :: !Declares(lines[i], name)
    decreases |lines|
  {
    hide IsInstructionLine, CountInstructions;
    if lines != [] {
      var l, rest := lines[0], lines[1..];
      var base' := if IsInstructionLine(l) then base + 1 else base;
      LabelsAreNotInstructions(l);
      if Declares(l, name) {
        NoneBefore(lines);
        assert IsFirstDeclaration(lines, 0, name);
      } else {
        LookupDeclared(rest, base', name);
        if IsLabelLine(l) {
          assert ([Label(l[0].text, base)] + DeclaredLabels(rest, base))[1..] == DeclaredLabels(rest, base);
        }
        match Lookup(DeclaredLabels(rest, base'), name)
        case Some(a) =>
          var i: nat :| IsFirstDeclaration(rest, i, name) && a == base' + CountInstructions(rest[..i]);
          FirstDeclarationShifts(lines, i, name);
        case None =>
          forall i | 0 <= i < |lines| ensures !Declares(lines[i], name) {
            if i > 0 { assert lines[i] == rest[i - 1]; }
          }
      }
    }
  }

  lemma LabelsAreNotInstructions(l: Line)
    ensures IsLabelLine(l) ==> !IsInstructionLine(l)
  {
  }

  lemma NoneBefore(lines: seq<Line>)
    ensures CountInstructions(lines[..0]) == 0
  {
  }

  predicate Declares(l: Line, name: string) { IsLabelLine(l) && l[0].text == name }

  lemma {:induction false} CountSplits(lines: seq<Line>, i: nat)
    requires i <= |lines|
    ensures CountInstructions(lines) == CountInstructions(lines[..i]) + CountInstructions(lines[i..])
    decreases i
  {
    if i == 0 {
      assert lines[..0] == [] && lines[0..] == lines;
    } else {
      CountSplits(lines[1..], i - 1);
      assert lines[1..][..i - 1] == lines[..i][1..];
      assert lines[1..][i - 1..] == lines[i..];
    }
  }

  lemma {:induction false} EmitLinesPrefix(s: Emission, lines: seq<Line>, i: nat, labels: seq<Label>)
    requires i <= |lines| && EmitLines(s, lines, labels).Emitted?
    ensures EmitLines(s, lines[..i], labels).Emitted?
    decreases i
  {
    hide EmitLineEnd;
    if i > 0 {
      EmitLinesPrefix(EmitLineEnd(s.(line := s.line + lines[0]), labels).value, lines[1..], i - 1, labels);
      assert lines[..i][1..] == lines[1..][..i - 1];
    }
  }

  lemma {:induction false} CleanPrefix(lines: seq<Line>, afterLabel: bool, i: nat)
    requires i <= |lines| && Clean(lines, afterLabel)
    ensures Clean(lines[..i], afterLabel)
    decreases i
  {
    if i > 0 {
      var l := lines[0];
      CleanPrefix(lines[1..], if l == [] then afterLabel else IsLabelLine(l), i - 1);
      assert lines[..i][1..] == lines[1..][..i - 1];
    }
  }

  /** The passes agree on the terminated lines of clean lists: the counts are equal, a reference finds
      the first declaration of its name, and the address it gets is the number of instructions pass 2
      emits from the lines before that declaration, which is at most the program size. */
  lemma PassesAgree(ts: seq<Token>, name: string)
    requires var lines, index := LinesOf(ts), IndexFrom(START_INDEX, ts);
             Lexed(ts) && Clean(lines, false) && EmitFrom(START_EMISSION, ts, index.labels).Emitted?
    ensures var lines, index := LinesOf(ts), IndexFrom(START_INDEX, ts);
            var program := EmitFrom(START_EMISSION, ts, index.labels).value.program;
            && index.lc == |program|
            && match Lookup(index.labels, name)
               case None => forall i | 0 <= i < |lines| :: !Declares(lines[i], name)
               case Some(a) =>
                 a <= |program| && exists i: nat ::
                   && IsFirstDeclaration(lines, i, name)
                   && EmitLines(START_EMISSION, lines[..i], index.labels).Emitted?
                   && |EmitLines(START_EMISSION, lines[..i], index.labels).value.program| == a
  {
    hide AssembleLine, IndexLineEnd, EmitLineEnd, Declares;
    var lines, index := LinesOf(ts), IndexFrom(START_INDEX, ts);
    CleanPasses(ts, index.labels);
    LookupDeclared(lines, 0, name);
    PassesSeeLines(ts, index.labels);
    LinesOfWellLexed(ts);
    match Lookup(index.labels, name)
    case None =>
    case Some(a) =>
      var i: nat :| IsFirstDeclaration(lines, i, name) && a == CountInstructions(lines[..i]);
      CountSplits(lines, i);
      PrefixEmits(lines, i, index.labels);
  }

  lemma PrefixEmits(lines: seq<Line>, i: nat, labels: seq<Label>)
    requires i <= |lines| && WellLexed(lines) && Clean(lines, false)
    requires EmitLines(START_EMISSION, lines, labels).Emitted?
    ensures var r := EmitLines(START_EMISSION, lines[..i], labels);
            r.Emitted? && |r.value.program| == CountInstructions(lines[..i])
  {
    hide EmitLineEnd, CountInstructions;
    EmitLinesPrefix(START_EMISSION, lines, i, labels);
    CleanPrefix(lines, false, i);
    EmittedCount(START_EMISSION, lines[..i], labels);
  }

  // ----- lines the token buffer holds -----

  /** How many tokens stand behind the last line end. */
  function SinceEnd(ts: seq<Token>): nat
  {
    if ts == [] || ts[|ts| - 1] == END then 0 else SinceEnd(ts[..|ts| - 1]) + 1
  }

  lemma {:induction false} IndexLineLength(list: seq<Token>, i: nat)
    requires i <= |list|
    ensures |IndexFrom(START_INDEX, list[..i]).line| <= SinceEnd(list[..i]) + 1
    decreases i
  {
    if i > 0 {
      IndexLineLength(list, i - 1);
      IndexFromNext(list, i - 1);
      assert list[..i][..i - 1] == list[..i - 1];
    }
  }

  lemma {:induction false} EmissionLineLength(list: seq<Token>, i: nat, labels: seq<Label>)
    requires i <= |list| && EmitFrom(START_EMISSION, list[..i], labels).Emitted?
    ensures |EmitFrom(START_EMISSION, list[..i], labels).value.line| <= SinceEnd(list[..i])
    decreases i
  {
    hide AssembleLine;
    if i > 0 {
      EmitPrefix(list, i - 1, i, labels);
      EmissionLineLength(list, i - 1, labels);
      EmitFromNext(list, i - 1, labels);
      assert list[..i][..i - 1] == list[..i - 1];
    }
  }

  lemma EmitPrefix(list: seq<Token>, j: nat, i: nat, labels: seq<Label>)
    requires j <= i <= |list| && EmitFrom(START_EMISSION, list[..i], labels).Emitted?
    ensures EmitFrom(START_EMISSION, list[..j], labels).Emitted?
  {
    hide EmitToken;
    assert list[..i] == list[..j] + list[j..i];
    EmitFromAdd(START_EMISSION, list[..j], list[j..i], labels);
  }

  /** Lines of at most 31 tokens fit the token buffer of both passes. */
  lemma ShortLinesFit(list: seq<Token>, labels: seq<Label>)
    requires forall i | 0 <= i <= |list| :: SinceEnd(list[..i]) <= 31
    ensures IndexFits(list) && EmissionFits(list, labels)
  {
    hide IndexFrom, EmitFrom, SinceEnd;
    forall i | 0 <= i <= |list| ensures |IndexFrom(START_INDEX, list[..i]).line| <= TK_SIZE {
      IndexLineLength(list, i);
    }
    forall i | 0 <= i <= |list|
      ensures var r := EmitFrom(START_EMISSION, list[..i], labels); r.Emitted? ==> |r.value.line| <= TK_SIZE
    {
      if EmitFrom(START_EMISSION, list[..i], labels).Emitted? { EmissionLineLength(list, i, labels); }
    }
  }
}
