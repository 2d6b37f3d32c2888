/** The assembler from source text to program: what main_assemble does between reading the file and
    writing the result. */
module Caasm {
  import opened Semantics
  import opened Tokenizer
  import opened Assembler
  import opened Passes
  import opened PassTheorems
  import opened CallFrames
  import opened SourceLanguage
  import opened Meaning

  ghost function AssembleText(text: string): Assembled<Program>
  {
    var list := Lex(text);
    ProgramOf(EmitFrom(START_EMISSION, list, IndexFrom(START_INDEX, list).labels))
  }

  /** The lexer, the first pass and the second pass, one after the other. */
  method MainAssemble(buffer: string) returns (program: Assembled<Program>)
    requires IndexFits(Lex(buffer)) && EmissionFits(Lex(buffer), IndexFrom(START_INDEX, Lex(buffer)).labels)
    ensures program == AssembleText(buffer)
  {
    var list := Tokenize(buffer);
    var labels, count := IndexLabels(list);
    program := AssembleProgram(list, labels);
  }

  lemma {:induction false} LexedText(text: string)
    ensures Lexed(Lex(text))
    decreases |text|
  {
    if text != "" {
      var (t, n) := First(text);
      LexedText(text[n..]);
      forall u | u in Lex(text) ensures IsLexed(u) {
        if u !in Lex(text[n..]) { assert u == t; }
      }
    }
  }

  // ----- the last line -----

  lemma {:induction false} TailEndsAtLineEnd(ts: seq<Token>, begun: Line)
    requires ts != [] && ts[|ts| - 1] == END
    ensures TailFrom(ts, begun) == []
    decreases |ts|
  {
    if |ts| > 1 {
      assert ts[1..][|ts[1..]| - 1] == END;
      TailEndsAtLineEnd(ts[1..], []);
      TailEndsAtLineEnd(ts[1..], begun + [ts[0]]);
    }
  }

  lemma {:induction false} StripKeepsLineEnd(ts: seq<Token>, inComment: bool)
    requires ts != [] && ts[|ts| - 1] == END
    ensures var r := Strip(ts, inComment); r != [] && r[|r| - 1] == END
    decreases |ts|
  {
    if |ts| > 1 {
      assert ts[1..][|ts[1..]| - 1] == END;
      StripKeepsLineEnd(ts[1..], true);
      StripKeepsLineEnd(ts[1..], false);
    }
  }

  predicate EndsLine(text: string) { text != "" && text[|text| - 1] in {'\n', ';'} }

  lemma {:induction false} LexKeepsLineEnd(text: string)
    requires EndsLine(text)
    ensures var ts := Lex(text); ts != [] && ts[|ts| - 1] == END
    decreases |text|
  {
    var (t, n) := First(text);
    if n < |text| {
      assert text[n..][|text[n..]| - 1] == text[|text| - 1];
      LexKeepsLineEnd(text[n..]);
    } else {
      assert text[n - 1] == text[|text| - 1];
      assert text[n..] == "" && Lex(text[n..]) == [];
    }
  }

  /** A text that ends in a line end, or is empty, has no unterminated last line. */
  lemma EndedTextHasNoTail(text: string)
    requires text == "" || EndsLine(text)
    ensures Tail(Lex(text)) == [] && AllLines(Lex(text)) == LinesOf(Lex(text))
  {
    hide Lex;
    if text == "" {
      LexOfNothing();
    } else {
      LexKeepsLineEnd(text);
      StripKeepsLineEnd(Lex(text), false);
      TailEndsAtLineEnd(Strip(Lex(text), false), []);
    }
    assert LinesOf(Lex(text)) + [] == LinesOf(Lex(text));
  }

  lemma LexOfNothing()
    ensures Lex("") == []
  {
  }

  /** What stands on the lines of a text, the last one included even when nothing terminates it, but for
      instructions behind a label on its line. */
  function TextLines(text: string): seq<Line> { CutAll(AllLines(Lex(text))) }

  /** The part of a source that its text hands to the assembler: all of it but an unterminated last line. */
  function Terminated(text: string, src: Source): Source
  {
    if Tail(Lex(text)) == [] || src == [] then src else src[..|src| - 1]
  }

  lemma TerminatedIsSource(text: string, src: Source)
    requires IsSourceOf(TextLines(text), src)
    ensures IsSourceOf(CutLines(Lex(text)), Terminated(text, src))
  {
    hide Expresses, LinesOf, Tail, Lex, Cut;
    var ts, kept := Lex(text), Terminated(text, src);
    assert |TextLines(text)| == |AllLines(ts)| == |src|;
    forall i | 0 <= i < |LinesOf(ts)| ensures Expresses(CutLines(ts)[i], kept[i]) {
      assert AllLines(ts)[i] == LinesOf(ts)[i] && kept[i] == src[i] && TextLines(text)[i] == CutLines(ts)[i];
    }
  }

  // ----- the theorems -----

  /** Let the lines of a text express a source of the fragment, the last one included even when nothing
      terminates it, whatever stands behind a label on its line, and let the terminated ones be clean. The
      text is accepted exactly when every label named by the terminated part is declared in it. */
  lemma TextAcceptedIffDeclared(text: string, src: Source)
    requires Clean(LinesOf(Lex(text)), false) && IsSourceOf(TextLines(text), src)
    requires CountInstructions(LinesOf(Lex(text))) < 0x8000_0000
    ensures AssembleText(text).Emitted? <==> AllDeclared(Terminated(text, src))
  {
    hide EmitFrom, IndexFrom, Lex, LinesOf, TextLines, CutLines, Terminated, Clean, IsSourceOf, CountInstructions,
         Lexed, AllDeclared;
    LexedText(text);
    TerminatedIsSource(text, src);
    AcceptedIffDeclared(Lex(text), Terminated(text, src));
  }

  /** Assembling a text preserves the meaning of its terminated part: under the same conditions and when
      the assembler accepts the text, then from any registers, stack and frame array n steps of the
      program are n steps of that part of the source, with the same data, depth, halting and faults; only
      a REC with all frames in use faults where the source goes on. */
  lemma {:induction false} TextPreservesMeaning(text: string, src: Source, s: State, n: nat)
    requires Clean(LinesOf(Lex(text)), false) && IsSourceOf(TextLines(text), src)
    requires CountInstructions(LinesOf(Lex(text))) < 0x8000_0000
    requires AssembleText(text).Emitted? && s.pc == 0 && s.frames == 0 && s.running
    ensures var p, kept := AssembleText(text).value, Terminated(text, src);
            var source := SourceExec(kept, SourceStart(s.data, |s.mem|), n);
            match Exec(p, s, n)
            case Ok(t) => && source.Ok? && t.data == source.state.data && t.running == source.state.running
                          && t.frames == |source.state.pending|
                          && (Halted(p, t) <==> SourceHalted(kept, source.state))
            case Stopped => source == Stopped
            case Fault(e) => source == Fault(e) || (e == FrameBounds && MeetsFullRec(p, s, n))
  {
    hide EmitToken, IndexToken, Lex, LinesOf, TextLines, CutLines, Terminated, Clean, IsSourceOf, CountInstructions,
         Step, SourceStep, MeetsFullRec, Lexed;
    LexedText(text);
    TerminatedIsSource(text, src);
    AssemblyPreservesMeaning(Lex(text), Terminated(text, src), s, n);
  }

  /** Nothing is cut from lines whose labels stand alone. */
  lemma AloneIsUncut(text: string)
    requires LabelsStandAlone(AllLines(Lex(text)))
    ensures TextLines(text) == AllLines(Lex(text))
  {
    hide AllLines, Lex, IsLabelLine;
    var lines := AllLines(Lex(text));
    forall k | 0 <= k < |lines| ensures Cut(lines[k]) == lines[k] {}
  }

  /** The assembler keeps the whole of an accepted text, every label at the number of instructions before
      it and every instruction, exactly when its lines are clean, no instruction stands behind a label on
      its line and nothing but blanks and comments follows the last line end. */
  lemma TextKeptIff(text: string)
    requires AssembleText(text).Emitted?
    ensures var lines, index := AllLines(Lex(text)), IndexFrom(START_INDEX, Lex(text));
            KeepsEverything(Lex(text)) <==>
              && index.labels == ReaderLabels(lines, 0)
              && index.lc == CountHeld(lines) == |AssembleText(text).value|
  {
    hide EmitFrom, IndexFrom, Lex, LinesOf, AllLines, Tail, Clean, CountHeld, Lexed, ReaderLabels, LabelsStandAlone;
    LexedText(text);
    PassesFaithfulIffClean(Lex(text), IndexFrom(START_INDEX, Lex(text)).labels);
    NothingIsNoInstruction();
  }

  lemma NothingIsNoInstruction()
    ensures !IsInstructionLine([])
  {
  }
}
