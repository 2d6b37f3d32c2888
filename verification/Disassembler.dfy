/** What the assembler makes of the text the disassembler prints. */
module Disassembler {
  import opened Semantics
  import opened Tokenizer
  import opened Keywords
  import opened Assembler
  import opened Passes
  import opened PassTheorems
  import opened Meaning
  import opened Caasm
  import opened RoundTrip
  import opened PrintedText
  import opened SourceText

  // ----- printed lines -----

  function PrintedTokens(style: Style, i: Instruction): seq<Token>
    requires IsCanonical(i)
  {
    TokensOf(Parts(style, i))
  }

  /** The line an instruction is printed on, without its comment. */
  function PrintedLine(style: Style, i: Instruction): Line
    requires IsCanonical(i)
  {
    Strip(PrintedTokens(style, i), false)
  }

  /** The listing writes `nejump` and `reg_dump#debug`, which are no keywords. */
  predicate IsReadable(style: Style, i: Instruction)
  {
    style.Plain? || i.op !in {NEJMP, REG_DUMP}
  }

  /** What the printed line of a readable instruction assembles to. */
  function ReadBack(style: Style, i: Instruction): Instruction
  {
    if style.Plain? then i else Instruction(i.op, 0, 0, 0, 0)
  }

  lemma {:induction false} StripNothing(ts: seq<Token>)
    requires HASH !in ts
    ensures Strip(ts, false) == ts
    decreases |ts|
  {
    if ts != [] {
      StripNothing(ts[1..]);
      assert [ts[0]] + ts[1..] == ts;
    }
  }

  predicate IsTidy(l: Line) { l != [] && (|l| >= 2 ==> l[1] != COLON) }

  /** The tokens of a printed instruction stay on one line. */
  lemma PlainLine(i: Instruction)
    requires IsCanonical(i)
    ensures PrintedTokens(Plain, i) == PrintedLine(Plain, i) == LineWords(i)
    ensures END !in LineWords(i) && IsTidy(LineWords(i))
  {
    hide Name, Digits, IsLexeme, IsCanonical, IsPart, Fits, PlainParts, Strip, TokensOf;
    PlainFits(i);
    LineWordsAreWords(i);
    forall t | t in LineWords(i) ensures t != HASH && t != END && t != COLON { assert IsPlain(t); }
    StripNothing(LineWords(i));
    LineWordsNotEmpty(i);
  }

  lemma LineWordsNotEmpty(i: Instruction)
    requires IsCanonical(i)
    ensures LineWords(i) != []
  {
  }

  /** Neither a line end nor the start of a comment. */
  predicate IsInner(p: Part) { p.token != END && p.token != HASH }

  predicate AllInner(ps: seq<Part>) { forall k | 0 <= k < |ps| :: IsInner(ps[k]) }

  /** The keyword, then operands, one line only and too many words unless there are no operands. */
  predicate IsListingLine(ps: seq<Part>, i: Instruction)
  {
    && ps != [] && ps[0].token == Word(if i.op == NEJMP then "nejump" else Name(i.op))
    && (|ps| >= 2 ==> ps[1].token != COLON)
    && AllInner(ps)
    && |ps| > (if OperandCount(i.op) == 0 then 0 else OperandCount(i.op) + 1)
  }

  lemma InnerParts(word: string, n: nat)
    ensures IsInner(Spaced(Word(word))) && IsInner(Tight(Word(word)))
    ensures IsInner(RegisterPart(n)) && IsInner(Tight(ValueWord(n)))
  {
    hide Digits, Text;
  }

  lemma InnerSigns()
    ensures IsInner(AT) && AT.token != COLON && IsInner(COMMA) && IsInner(OPEN) && IsInner(CLOSE) && IsInner(DOLLAR)
  {
    hide Text;
  }

  lemma BinaryLine(i: Instruction)
    requires IsCanonical(i) && IsBinary(i.op)
    ensures IsListingLine(ListingParts(i), i)
  {
    hide Name, Text, IsInner, RegisterPart;
    InnerSigns();
    InnerParts(Name(i.op), i.r0);
    InnerParts(Name(i.op), i.r1);
    InnerParts(Name(i.op), i.r2);
  }

  lemma CopyLine(i: Instruction)
    requires IsCanonical(i) && IsCopy(i.op)
    ensures IsListingLine(ListingParts(i), i)
  {
    hide Name, Text, IsInner, RegisterPart;
    InnerSigns();
    InnerParts(Name(i.op), i.r0);
    InnerParts(Name(i.op), i.r1);
  }

  lemma UnaryLine(i: Instruction)
    requires IsCanonical(i) && IsUnary(i.op) && i.op != REG_DUMP
    ensures IsListingLine(ListingParts(i), i)
  {
    hide Name, Text, IsInner, RegisterPart;
    InnerSigns();
    InnerParts(Name(i.op), i.r0);
  }

  lemma AddressInner(keyword: string, n: nat)
    ensures AllInner(AddressParts(keyword, n)) && |AddressParts(keyword, n)| == 6
    ensures AddressParts(keyword, n)[0].token == Word(keyword) && AddressParts(keyword, n)[1].token != COLON
  {
    hide Text, IsInner;
    InnerSigns();
    InnerParts(keyword, n);
    InnerParts("address", n);
  }

  lemma BranchInner(keyword: string, n: nat, ra: nat, rb: nat)
    ensures var ps := BranchParts(keyword, n, ra, rb);
            AllInner(ps) && |ps| == 12 && ps[0].token == Word(keyword) && ps[1].token != COLON
  {
    hide Text, IsInner, RegisterPart;
    InnerSigns();
    InnerParts(keyword, n);
    InnerParts("address", ra);
    InnerParts("address", rb);
  }

  lemma PrintInner(keyword: string)
    ensures var ps := PrintParts(keyword);
            AllInner(ps) && |ps| == 15 && ps[0].token == Word(keyword) && ps[1].token != COLON
  {
    hide Text;
  }

  lemma AddressLine(i: Instruction)
    requires IsCanonical(i) && i.op in {JMP, CALL, EJMP, NEJMP}
    ensures IsListingLine(ListingParts(i), i)
  {
    hide Name, Text, AddressParts, BranchParts, AllInner, PlainParts;
    if i.op == JMP || i.op == CALL {
      AddressInner(Name(i.op), i.imm);
    } else {
      BranchInner(if i.op == NEJMP then "nejump" else Name(i.op), i.imm, i.r0, i.r1);
    }
  }

  lemma OtherLine(i: Instruction)
    requires IsCanonical(i) && i.op in {HALT, REC, SET}
    ensures IsListingLine(ListingParts(i), i)
  {
    hide Name, Text, IsInner, RegisterPart;
    InnerSigns();
    InnerParts(Name(i.op), i.imm);
    InnerParts(Name(i.op), i.r0);
  }

  lemma PrintLine(i: Instruction)
    requires IsCanonical(i) && i.op == PRINT
    ensures IsListingLine(ListingParts(i), i)
  {
    hide Name, Text, PrintParts, AllInner;
    PrintInner(Name(i.op));
  }

  lemma ListingLine(i: Instruction)
    requires IsCanonical(i) && i.op != REG_DUMP
    ensures IsListingLine(ListingParts(i), i)
  {
    hide ListingParts, IsListingLine;
    match i.op
    case HALT => OtherLine(i);
    case REC => OtherLine(i);
    case SET => OtherLine(i);
    case PRINT => PrintLine(i);
    case JMP => AddressLine(i);
    case CALL => AddressLine(i);
    case EJMP => AddressLine(i);
    case NEJMP => AddressLine(i);
    case CU2I => CopyLine(i);
    case CI2U => CopyLine(i);
    case _ => if IsBinary(i.op) { BinaryLine(i); } else { UnaryLine(i); }
  }

  /** reg_dump#debug: what stands behind the # is a comment. */
  lemma DumpLine(i: Instruction)
    requires IsCanonical(i) && i.op == REG_DUMP
    ensures END !in PrintedTokens(Listing, i)
    ensures IsTidy(PrintedLine(Listing, i)) && PrintedLine(Listing, i)[0] == Word("reg")
  {
    hide Name, Digits, Text, IsCanonical;
    var ts := PrintedTokens(Listing, i);
    StripInComment(ts[4..]);
    assert ts[1..][0] == Symbol(Null) && ts[1..][1..] == ts[2..] && ts[2..][1..] == ts[3..] && ts[3..][1..] == ts[4..];
    assert Strip(ts[2..], false) == [ts[2]] + Strip(ts[3..], false);
    assert Strip(ts[1..], false) == [ts[1]] + Strip(ts[2..], false);
    assert Strip(ts, false) == [ts[0]] + Strip(ts[1..], false);
  }

  /** A printed instruction is one line, and its second word is no colon. */
  lemma PrintedLineIsTidy(style: Style, i: Instruction)
    requires IsCanonical(i)
    ensures END !in PrintedTokens(style, i) && IsTidy(PrintedLine(style, i))
  {
    hide Name, Digits, Text, IsCanonical, ListingParts, Strip;
    if style.Plain? {
      PlainLine(i);
    } else if i.op == REG_DUMP {
      DumpLine(i);
    } else {
      ListingLine(i);
      StripNothing(PrintedTokens(style, i));
    }
  }

  // ----- how a printed line assembles -----

  /** Words that are no keyword. */
  lemma NoKeywords()
    ensures KeywordOp("nejump").None? && KeywordOp("reg").None?
  {
    forall op ensures Name(op) != "nejump" && Name(op) != "reg" { NotThisName(op); }
  }

  lemma NotThisName(op: Op)
    ensures Name(op) != "nejump" && Name(op) != "reg"
  {
    hide Name, OpOfFingerprint;
    TableLists(op);
    LikelyNames();
  }

  /** The only keywords with the fingerprints of these words are others. */
  lemma LikelyNames()
    ensures OpOfFingerprint(Fingerprint("nejump")) == NERJMP && Name(NERJMP) == "nerjmp"
    ensures OpOfFingerprint(Fingerprint("reg")) == NOP && Name(NOP) == "nop"
  {
  }

  lemma ZeroedLine(line: Line, op: Op, labels: seq<Label>)
    requires line != [] && line[0] == Word(Name(op))
    requires |line| > (if OperandCount(op) == 0 then 0 else OperandCount(op) + 1)
    ensures AssembleLine(line, labels) == Emitted(Build(op, [0, 0, 0, 0], 0, 0))
  {
    hide Name, Build, OperandCount;
    KeywordOfName(op);
    if |line| == OperandCount(op) + 1 { TakeNone(line, NO_OPERANDS, op, labels); }
  }

  lemma BuildOfZeros(i: Instruction)
    requires IsCanonical(i)
    ensures Build(i.op, [0, 0, 0, 0], 0, 0) == Instruction(i.op, 0, 0, 0, 0)
  {
  }

  lemma UnknownWord(line: Line, labels: seq<Label>)
    requires line != [] && line[0].Word? && KeywordOp(line[0].text).None?
    ensures AssembleLine(line, labels) == Aborted(NotAnInstruction)
  {
  }

  /** A readable printed line assembles to its instruction, with all operands zero if it comes from the
      listing; an unreadable one aborts. */
  lemma PrintedLineAssembles(style: Style, i: Instruction, labels: seq<Label>)
    requires IsCanonical(i)
    ensures PrintedLine(style, i) != []
    ensures AssembleLine(PrintedLine(style, i), labels)
            == if IsReadable(style, i) then Emitted(ReadBack(style, i)) else Aborted(NotAnInstruction)
  {
    hide Name, Digits, Text, IsCanonical, ListingParts, Strip, AssembleLine, OperandCount, Build, LineWords, KeywordOp;
    NoKeywords();
    if style.Plain? {
      PlainLine(i);
      LineRoundTrip(i, labels);
    } else if i.op == REG_DUMP {
      DumpLine(i);
      UnknownWord(PrintedLine(style, i), labels);
    } else {
      ListingLine(i);
      StripNothing(PrintedTokens(style, i));
      if i.op == NEJMP {
        UnknownWord(PrintedLine(style, i), labels);
      } else {
        ZeroedLine(PrintedLine(style, i), i.op, labels);
        BuildOfZeros(i);
      }
    }
  }

  // ----- whole programs -----

  function InstructionTokens(style: Style, i: Instruction): seq<Token>
    requires IsCanonical(i)
  {
    [END] + PrintedTokens(style, i) + if i.op == RET then [END] else []
  }

  function ProgramTokens(style: Style, p: Program): seq<Token>
    requires IsCanonicalProgram(p)
  {
    if p == [] then [] else InstructionTokens(style, p[0]) + ProgramTokens(style, p[1..])
  }

  lemma LexLineEnd(rest: string)
    ensures Lex("\n" + rest) == [END] + Lex(rest)
    ensures Lex("\n\t" + rest) == [END] + Lex(rest)
  {
    assert ("\n" + rest)[1..] == rest;
    assert ("\n\t" + rest)[1..] == "\t" + rest && ("\t" + rest)[1..] == rest;
    assert Lex("\t" + rest) == Lex(rest);
  }

  lemma LineEndEndsToken(rest: string)
    ensures EndsToken("\n" + rest)
  {
  }

  lemma LexInstruction(style: Style, i: Instruction, rest: string)
    requires IsCanonical(i) && EndsToken(rest)
    ensures Lex(PrintInstruction(style, i) + rest) == InstructionTokens(style, i) + Lex(rest)
  {
    hide Lex, Parts, Fits, TokensOf, TextOf, IsCanonical, EndsToken;
    var text, tokens := TextOf(Parts(style, i)), PrintedTokens(style, i);
    PartsFit(style, i);
    var after := if i.op == RET then "\n" + rest else rest;
    LexLineEnd(rest);
    LineEndEndsToken(rest);
    LexLineEnd(text + after);
    LexParts(Parts(style, i), after);
    assert PrintInstruction(style, i) + rest == "\n\t" + (text + after);
    assert InstructionTokens(style, i) + Lex(rest) == [END] + (tokens + Lex(after));
  }

  lemma {:induction false} LexProgram(style: Style, p: Program, rest: string)
    requires IsCanonicalProgram(p) && EndsToken(rest)
    ensures Lex(PrintProgram(style, p) + rest) == ProgramTokens(style, p) + Lex(rest)
    decreases |p|
  {
    hide Lex, IsCanonical, InstructionTokens, PrintInstruction;
    if p == [] {
      assert "" + rest == rest && [] + Lex(rest) == Lex(rest);
    } else {
      var after := PrintProgram(style, p[1..]) + rest;
      LexProgram(style, p[1..], rest);
      ProgramEndsToken(style, p[1..], rest);
      LexInstruction(style, p[0], after);
      assert PrintProgram(style, p) + rest == PrintInstruction(style, p[0]) + after;
    }
  }

  lemma ProgramEndsToken(style: Style, p: Program, rest: string)
    requires IsCanonicalProgram(p) && EndsToken(rest)
    ensures EndsToken(PrintProgram(style, p) + rest)
  {
    if p == [] {
      assert "" + rest == rest;
    } else {
      assert PrintInstruction(style, p[0])[0] == '\n';
    }
  }

  // ----- the passes over a printed program -----

  /** The lines of a printed program that are terminated: all but the last, and that too if it is a ret. */
  function Ended(p: Program): (q: Program)
    ensures q <= p
  {
    if p == [] || p[|p| - 1].op == RET then p else p[..|p| - 1]
  }

  predicate AllReadable(style: Style, p: Program) { forall k | 0 <= k < |p| :: IsReadable(style, p[k]) }

  function AllReadBack(style: Style, p: Program): (q: Program)
    ensures |q| == |p|
  {
    seq(|p|, k requires 0 <= k < |p| => ReadBack(style, p[k]))
  }

  /** The line the passes have begun when `p` is printed so far. */
  function Begun(style: Style, p: Program): Line
    requires IsCanonicalProgram(p)
  {
    if Ended(p) == p then [] else PrintedLine(style, p[|p| - 1])
  }

  predicate InComment(style: Style, p: Program)
    requires IsCanonicalProgram(p)
  {
    Ended(p) != p && HASH in PrintedTokens(style, p[|p| - 1])
  }

  function EmissionAfter(style: Style, p: Program): Emission
    requires IsCanonicalProgram(p)
  {
    Emission(Begun(style, p), false, AllReadBack(style, Ended(p)), InComment(style, p))
  }

  /** Up to the next line end the pass collects the line without its comment. */
  lemma {:induction false} EmitOneLine(s: Emission, ts: seq<Token>, labels: seq<Label>)
    requires END !in ts
    ensures EmitFrom(s, ts, labels)
            == Emitted(s.(line := s.line + Strip(ts, s.comment), comment := s.comment || HASH in ts))
    decreases |ts|
  {
    if ts == [] {
      assert s.line + [] == s.line;
    } else {
      EmitOneLine(EmitToken(s, ts[0], labels).value, ts[1..], labels);
      if s.comment || ts[0] == HASH {
        StripInComment(ts[1..]);
        assert s.line + [] == s.line;
      } else {
        assert s.line + [ts[0]] + Strip(ts[1..], false) == s.line + Strip(ts, false);
      }
    }
  }

  /** A tidy line is assembled at its end. */
  lemma {:induction false} EmitTidyEnd(l: Line, program: Program, comment: bool, labels: seq<Label>)
    requires IsTidy(l)
    ensures EmitToken(Emission(l, false, program, comment), END, labels)
            == match AssembleLine(l, labels)
               case Emitted(i) => Emitted(Emission([], false, program + [i], false))
               case Aborted(e) => Aborted(e)
  {
    hide AssembleLine;
  }

  lemma EmitAtEnd(style: Style, p: Program, labels: seq<Label>)
    requires IsCanonicalProgram(p) && AllReadable(style, Ended(p))
    ensures EmitToken(EmissionAfter(style, p), END, labels)
            == if AllReadable(style, p) then Emitted(Emission([], false, AllReadBack(style, p), false))
               else Aborted(NotAnInstruction)
  {
    hide IsCanonical, PrintedLine, PrintedTokens, IsReadable, ReadBack, AssembleLine;
    if Ended(p) != p {
      var i := p[|p| - 1];
      PrintedLineIsTidy(style, i);
      EmitTidyEnd(Begun(style, p), AllReadBack(style, Ended(p)), InComment(style, p), labels);
      PrintedLineAssembles(style, i, labels);
      assert AllReadable(style, p) <==> IsReadable(style, i);
      assert AllReadBack(style, p[..|p| - 1]) + [ReadBack(style, i)] == AllReadBack(style, p);
    }
  }

  lemma AppendOne(style: Style, p: Program, i: Instruction)
    requires IsCanonicalProgram(p) && IsCanonical(i)
    ensures IsCanonicalProgram(p + [i])
    ensures Ended(p + [i]) == if i.op == RET then p + [i] else p
    ensures Begun(style, p + [i]) == if i.op == RET then [] else PrintedLine(style, i)
    ensures InComment(style, p + [i]) == (i.op != RET && HASH in PrintedTokens(style, i))
  {
    hide IsCanonical, PrintedLine, PrintedTokens;
    assert (p + [i])[..|p|] == p;
  }

  lemma PrintedLineStrips(style: Style, i: Instruction)
    requires IsCanonical(i)
    ensures Strip(PrintedTokens(style, i), false) == PrintedLine(style, i)
  {
  }

  lemma EmitNothing(s: Emission, labels: seq<Label>)
    ensures EmitFrom(s, [], labels) == Emitted(s)
  {
  }

  lemma RetIsReadable(style: Style, i: Instruction)
    ensures i.op == RET ==> IsReadable(style, i)
  {
  }

  /** The state of pass 2 after one more printed instruction, or its abort. */
  lemma EmitInstruction(style: Style, p: Program, i: Instruction, labels: seq<Label>)
    requires IsCanonicalProgram(p) && IsCanonical(i) && AllReadable(style, Ended(p))
    ensures IsCanonicalProgram(p + [i])
    ensures EmitFrom(EmissionAfter(style, p), InstructionTokens(style, i), labels)
            == if AllReadable(style, Ended(p + [i])) then Emitted(EmissionAfter(style, p + [i]))
               else Aborted(NotAnInstruction)
  {
    hide IsCanonical, PrintedLine, PrintedTokens, EmitFrom, EmitToken, Ended, IsCanonicalProgram, IsTidy, AssembleLine,
         ReadBack, IsReadable;
    AppendOne(style, p, i);
    RetIsReadable(style, i);
    var ts, line := PrintedTokens(style, i), PrintedLine(style, i);
    var empty := Emission([], false, AllReadBack(style, p), false);
    var begun := empty.(line := line, comment := HASH in ts);
    PrintedLineIsTidy(style, i);
    EmitAtEnd(style, p, labels);
    EmitOneLine(empty, ts, labels);
    PrintedLineStrips(style, i);
    assert [] + line == line;
    EmitFromAdd(EmissionAfter(style, p), [END] + ts, if i.op == RET then [END] else [], labels);
    EmitFromCons(EmissionAfter(style, p), END, ts, labels);
    ReadableAppend(style, p, i);
    if AllReadable(style, p) {
      if i.op == RET {
        EmitFromCons(begun, END, [], labels);
        EmitTidyEnd(line, AllReadBack(style, p), HASH in ts, labels);
        PrintedLineAssembles(style, i, labels);
        EmitNothing(Emission([], false, AllReadBack(style, p + [i]), false), labels);
        assert [END] + [] == [END];
      } else {
        EmitNothing(begun, labels);
      }
    }
  }

  lemma ReadableAppend(style: Style, p: Program, i: Instruction)
    ensures AllReadable(style, p + [i]) <==> AllReadable(style, p) && IsReadable(style, i)
    ensures AllReadBack(style, p + [i]) == AllReadBack(style, p) + [ReadBack(style, i)]
  {
    hide IsReadable, ReadBack;
    var q := p + [i];
    if AllReadable(style, q) {
      forall k | 0 <= k < |p| ensures IsReadable(style, p[k]) { assert q[k] == p[k]; }
      assert q[|p|] == i;
    }
  }

  lemma EndedGrows(style: Style, p: Program, more: Program)
    ensures AllReadable(style, Ended(p + more)) ==> AllReadable(style, Ended(p))
  {
    hide IsReadable;
    var a, b := Ended(p), Ended(p + more);
    assert |a| <= |b| && forall k | 0 <= k < |a| :: a[k] == b[k] by { if more == [] { assert p + more == p; } }
  }

  lemma {:induction false} EmitPrinted(style: Style, p: Program, more: Program, labels: seq<Label>)
    requires IsCanonicalProgram(p) && IsCanonicalProgram(more) && AllReadable(style, Ended(p))
    ensures IsCanonicalProgram(p + more)
    ensures EmitFrom(EmissionAfter(style, p), ProgramTokens(style, more), labels)
            == if AllReadable(style, Ended(p + more)) then Emitted(EmissionAfter(style, p + more))
               else Aborted(NotAnInstruction)
    decreases |more|
  {
    hide IsCanonical, InstructionTokens, EmissionAfter, EmitFrom, AllReadable, Ended;
    if more == [] {
      assert p + [] == p;
      EmitNothing(EmissionAfter(style, p), labels);
    } else {
      EmitInstruction(style, p, more[0], labels);
      EmitFromAdd(EmissionAfter(style, p), InstructionTokens(style, more[0]), ProgramTokens(style, more[1..]), labels);
      assert p + [more[0]] + more[1..] == p + more;
      EndedGrows(style, p + [more[0]], more[1..]);
      if AllReadable(style, Ended(p + [more[0]])) { EmitPrinted(style, p + [more[0]], more[1..], labels); }
    }
  }

  lemma NothingPrinted(style: Style)
    ensures IsCanonicalProgram([]) && Ended([]) == [] && AllReadable(style, Ended([]))
    ensures EmissionAfter(style, []) == START_EMISSION
  {
  }

  function Assembling(style: Style, p: Program): Assembled<Program>
  {
    if AllReadable(style, p) then Emitted(AllReadBack(style, p)) else Aborted(NotAnInstruction)
  }

  /** The second pass over the printed tokens, as they are or with one more line end. */
  lemma EmitWhole(style: Style, p: Program, labels: seq<Label>)
    requires IsCanonicalProgram(p)
    ensures var ts := ProgramTokens(style, p);
            && ProgramOf(EmitFrom(START_EMISSION, ts, labels)) == Assembling(style, Ended(p))
            && ProgramOf(EmitFrom(START_EMISSION, ts + [END], labels)) == Assembling(style, p)
  {
    hide IsCanonical, IsCanonicalProgram, ProgramTokens, EmitToken, Begun, InComment, AllReadable, Ended, EmitFrom;
    NothingPrinted(style);
    assert [] + p == p;
    EmitPrinted(style, [], p, labels);
    EmitFromAdd(START_EMISSION, ProgramTokens(style, p), [END], labels);
    EndedIsPrefix(style, p);
    if AllReadable(style, Ended(p)) {
      EmitFromCons(EmissionAfter(style, p), END, [], labels);
      EmitAtEnd(style, p, labels);
      EmitNothing(Emission([], false, AllReadBack(style, p), false), labels);
    }
    assert [END] + [] == [END];
  }

  lemma EndedIsPrefix(style: Style, p: Program)
    ensures AllReadable(style, p) ==> AllReadable(style, Ended(p))
  {
  }

  /** What the assembler makes of the text the disassembler prints, for every canonical program. As
      printed, the last instruction is lost unless it is a ret, since nothing terminates its line; with
      one more line end nothing is lost. Of the instructions kept, the listing gives back the opcode with
      all operands zero, and nejmp or regdump among them abort the assembler. */
  lemma PrintedProgramAssembles(style: Style, p: Program)
    requires IsCanonicalProgram(p)
    ensures AssembleText(PrintProgram(style, p)) == Assembling(style, Ended(p))
    ensures AssembleText(PrintProgram(style, p) + "\n") == Assembling(style, p)
  {
    hide IsCanonical, Assembling, ProgramTokens, PrintProgram, EmitFrom, IndexFrom, Lex, Ended;
    var text, ts := PrintProgram(style, p), ProgramTokens(style, p);
    LexProgram(style, p, "");
    LexProgram(style, p, "\n");
    LexLineEnd("");
    LexOfNothing();
    assert text + "" == text && ts + [] == ts && "\n" + "" == "\n" && [END] + [] == [END];
    EmitWhole(style, p, IndexFrom(START_INDEX, ts).labels);
    EmitWhole(style, p, IndexFrom(START_INDEX, ts + [END]).labels);
  }

  /** The round trip without decoration: with a line end behind it every program comes back as itself,
      and without one exactly those that are empty or end in ret. */
  lemma PlainRoundTrip(p: Program)
    requires IsCanonicalProgram(p)
    ensures AssembleText(PrintProgram(Plain, p) + "\n") == Emitted(p)
    ensures AssembleText(PrintProgram(Plain, p)) == Emitted(p) <==> p == [] || p[|p| - 1].op == RET
  {
    hide IsCanonical, PrintProgram, AssembleText;
    PrintedProgramAssembles(Plain, p);
    assert AllReadBack(Plain, p) == p && AllReadBack(Plain, Ended(p)) == Ended(p);
  }

  /** The round trip through the listing itself, closed by a line end: a program comes back exactly when all
      its operands are zero and it has no nejmp and no regdump. */
  lemma ListingComesBackIffZero(p: Program)
    requires IsCanonicalProgram(p)
    ensures AssembleText(PrintProgram(Listing, p) + "\n") == Emitted(p) <==>
              forall k | 0 <= k < |p| :: p[k] == Instruction(p[k].op, 0, 0, 0, 0) && p[k].op !in {NEJMP, REG_DUMP}
  {
    hide IsCanonical, PrintProgram, AssembleText;
    PrintedProgramAssembles(Listing, p);
    var q := AllReadBack(Listing, p);
    if AllReadable(Listing, p) && q == p {
      forall k | 0 <= k < |p| ensures p[k] == Instruction(p[k].op, 0, 0, 0, 0) && p[k].op !in {NEJMP, REG_DUMP} {
        assert q[k] == p[k] && IsReadable(Listing, p[k]);
      }
    }
  }

  /** A line without a line end is lost: one printed instruction alone is a line that a reader sees and
      neither pass does. */
  lemma LastLineIsLost(style: Style, i: Instruction)
    requires IsCanonical(i)
    ensures var text := TextOf(Parts(style, i));
            && AllLines(Lex(text)) == [PrintedLine(style, i)] && IsInstructionLine(PrintedLine(style, i))
            && AssembleText(text) == Emitted([])
  {
    hide IsCanonical, Lex, Parts, Fits, TokensOf, TextOf, Strip, EmitFrom, IndexFrom;
    var text, ts := TextOf(Parts(style, i)), PrintedTokens(style, i);
    PartsFit(style, i);
    LexParts(Parts(style, i), "");
    LexOfNothing();
    assert text + "" == text && ts + [] == ts;
    PrintedLineIsTidy(style, i);
    StripOnOneLine(ts, false);
    OneLineIsTail(PrintedLine(style, i), []);
    var line := PrintedLine(style, i);
    assert [] + line == line && [] + [line] == [line];
    EmitOneLine(START_EMISSION, ts, IndexFrom(START_INDEX, ts).labels);
  }

  lemma {:induction false} OneLineIsTail(ts: seq<Token>, begun: Line)
    requires END !in ts
    ensures LinesFrom(ts, begun) == [] && TailFrom(ts, begun) == begun + ts
    decreases |ts|
  {
    if ts == [] {
      assert begun + [] == begun;
    } else {
      OneLineIsTail(ts[1..], begun + [ts[0]]);
      assert begun + [ts[0]] + ts[1..] == begun + ts;
    }
  }
}
