/** Assembling preserves meaning: the program the two passes make of a clean token list runs in step
    with the source that list expresses. */
module Meaning {
  import opened Words
  import opened Semantics
  import opened Tokenizer
  import opened Keywords
  import opened Assembler
  import opened Passes
  import opened PassTheorems
  import opened CallFrames
  import opened SourceLanguage
  import opened Simulation

  // ----- which lines express which statements -----

  predicate IsRegisterWord(t: Token, r: i8)
  {
    t.Word? && |t.text| >= 2 && t.text[0] == 'r' && IsDigits(t.text[1..]) && Atoi(t.text[1..]) == r
  }

  predicate IsValueWord(t: Token, n: nat)
  {
    t.Number? && t.text != "" && IsDigits(t.text) && Atoi(t.text) == n <= INT_MAX
  }

  predicate IsTargetWord(t: Token, target: Target)
  {
    match target
    case ToLabel(name) => name != "" && t == Word("L" + name)
    case ToAddress(n) => IsValueWord(t, n)
  }

  predicate IsPlain(t: Token) { t.Word? || t.Number? }

  /** The line reads as the keyword of the statement and its operands in order. */
  predicate Reads(l: Line, s: Statement)
  {
    match s
    case Bare(op) => l == [Word(Name(op))]
    case Unary(op, r) => |l| == 2 && l[0] == Word(Name(op)) && IsRegisterWord(l[1], r)
    case Copy(op, rd, rs) =>
      |l| == 3 && l[0] == Word(Name(op)) && IsRegisterWord(l[1], rd) && IsRegisterWord(l[2], rs)
    case Load(rd, n) => |l| == 3 && l[0] == Word(Name(SET)) && IsRegisterWord(l[1], rd) && IsValueWord(l[2], n)
    case Arith(op, rd, ra, rb) =>
      && |l| == 4 && l[0] == Word(Name(op))
      && IsRegisterWord(l[1], rd) && IsRegisterWord(l[2], ra) && IsRegisterWord(l[3], rb)
    case Jump(t) => |l| == 2 && l[0] == Word(Name(JMP)) && IsTargetWord(l[1], t)
    case CallTo(t) => |l| == 2 && l[0] == Word(Name(CALL)) && IsTargetWord(l[1], t)
    case JumpIf(onEqual, t, ra, rb) =>
      && |l| == 4 && l[0] == Word(Name(if onEqual then EJMP else NEJMP))
      && IsTargetWord(l[1], t) && IsRegisterWord(l[2], ra) && IsRegisterWord(l[3], rb)
  }

  predicate Expresses(l: Line, item: Item)
  {
    match item
    case Blank => l == []
    case Declaration(name) => Declares(l, name) && |l| == 2
    case Do(s) => Reads(l, s) && IsSupported(s)
  }

  ghost predicate IsSourceOf(lines: seq<Line>, src: Source)
  {
    |lines| == |src| && forall i | 0 <= i < |lines| :: Expresses(lines[i], src[i])
  }

  lemma StatementsAreInstructions(l: Line, item: Item)
    requires Expresses(l, item)
    ensures IsInstructionLine(l) <==> item.Do?
    ensures item.Do? ==> l != [] && (|l| >= 2 ==> l[1] != COLON)
    ensures forall name :: Declares(l, name) <==> item == Declaration(name)
  {
    hide Name, IsDigits, Atoi, IsSupported;
    match item
    case Do(s) => assert |l| >= 2 ==> IsPlain(l[1]);
    case _ =>
  }

  // ----- operands -----

  lemma ParseRegister(t: Token, r: i8)
    requires IsRegisterWord(t, r)
    ensures ParseReg(t.text) == Emitted(Register(r))
  {
    hide Atoi, IsDigits;
  }

  lemma ParseValue(t: Token, n: nat)
    requires IsValueWord(t, n)
    ensures ParseReg(t.text) == Emitted(Value(n))
  {
    hide Atoi;
    assert IsNumber(t.text[0]);
    WrapSmall(n);
  }

  lemma ParseReference(name: string)
    requires name != ""
    ensures ParseReg("L" + name) == Emitted(Reference(name))
  {
    var s := "L" + name;
    assert s[0] == 'L' && s[1..] == name && |s| > 1;
    assert s != "fr" by { assert "fr"[0] == 'f'; }
  }

  /** One turn of the operand loop. */
  lemma {:induction false} TakeWord(line: seq<Token>, t: nat, o: Operands, op: Op, labels: seq<Label>,
                                    operand: Operand)
    requires |o.regs| == 4 && 1 <= t < |line| <= 4
    requires IsPlain(line[t]) && ParseReg(line[t].text) == Emitted(operand)
    ensures match TakeOperand(o, t, operand, op, labels)
            case Emitted(next) =>
              && |next.regs| == 4
              && TakeOperands(line, t, o, op, labels) == TakeOperands(line, t + 1, next, op, labels)
            case Aborted(e) => TakeOperands(line, t, o, op, labels) == Aborted(e)
  {
    hide ParseReg, Atoi;
  }

  lemma TakeRegister(line: seq<Token>, t: nat, o: Operands, op: Op, labels: seq<Label>, r: i8)
    requires |o.regs| == 4 && 1 <= t < |line| <= 4 && IsRegisterWord(line[t], r)
    ensures TakeOperands(line, t, o, op, labels)
            == TakeOperands(line, t + 1, o.(regs := o.regs[t - 1 := r]), op, labels)
  {
    hide TakeOperands;
    ParseRegister(line[t], r);
    TakeWord(line, t, o, op, labels, Register(r));
  }

  lemma TakeValue(line: seq<Token>, t: nat, o: Operands, op: Op, labels: seq<Label>, n: nat)
    requires |o.regs| == 4 && 1 <= t < |line| <= 4 && IsValueWord(line[t], n) && !IsFloatInstruction(op)
    ensures TakeOperands(line, t, o, op, labels) == TakeOperands(line, t + 1, o.(dvalue := n), op, labels)
  {
    hide TakeOperands;
    ParseValue(line[t], n);
    TakeWord(line, t, o, op, labels, Value(n));
  }

  /** A target is an address or the name of a declared label. */
  predicate IsDeclared(src: Source, t: Target)
  {
    t.ToLabel? ==> Declaration(t.name) in src
  }

  /** A declared target becomes its address; for any other the line aborts. */
  lemma TakeTarget(line: seq<Token>, t: nat, o: Operands, op: Op, lines: seq<Line>,
                                      src: Source, target: Target)
    requires |o.regs| == 4 && 1 <= t < |line| <= 4 && IsTargetWord(line[t], target) && !IsFloatInstruction(op)
    requires IsSourceOf(lines, src)
    ensures var labels := DeclaredLabels(lines, 0);
            TakeOperands(line, t, o, op, labels)
            == if IsDeclared(src, target)
               then TakeOperands(line, t + 1, o.(dvalue := TargetAddress(src, target)), op, labels)
               else Aborted(LabelNotFound)
  {
    hide TakeOperands, IsSourceOf, ParseReg, Address;
    match target
    case ToLabel(name) =>
      ParseReference(name);
      TakeWord(line, t, o, op, DeclaredLabels(lines, 0), Reference(name));
      LabelAddress(lines, src, name);
    case ToAddress(n) => TakeValue(line, t, o, op, DeclaredLabels(lines, 0), n);
  }

  lemma {:induction false} CountIsAddress(lines: seq<Line>, src: Source, i: nat)
    requires IsSourceOf(lines, src) && i <= |lines|
    ensures CountInstructions(lines[..i]) == Address(src, i)
    decreases i
  {
    hide Expresses, IsInstructionLine;
    if i > 0 {
      CountIsAddress(lines, src, i - 1);
      CountSplits(lines[..i], i - 1);
      assert lines[..i][..i - 1] == lines[..i - 1] && lines[..i][i - 1..] == [lines[i - 1]];
      CountOne(lines[i - 1]);
      StatementsAreInstructions(lines[i - 1], src[i - 1]);
    } else {
      assert lines[..0] == [];
    }
  }

  lemma CountOne(l: Line)
    ensures CountInstructions([l]) == if IsInstructionLine(l) then 1 else 0
  {
    assert [l][1..] == [];
  }

  lemma {:induction false} FirstDeclaration(src: Source, name: string, i: nat, at: nat)
    requires at <= i < |src| && src[i] == Declaration(name)
    requires forall j | at <= j < i :: src[j] != Declaration(name)
    ensures DeclarationLine(src, name, at) == i
    decreases i - at
  {
    if at < i { FirstDeclaration(src, name, i, at + 1); }
  }

  /** The label table gives a name the address of the line its first declaration stands on. */
  lemma {:induction false} LabelAddress(lines: seq<Line>, src: Source, name: string)
    requires IsSourceOf(lines, src)
    ensures match Lookup(DeclaredLabels(lines, 0), name)
            case Some(a) => Declaration(name) in src && a == Address(src, DeclarationLine(src, name, 0))
            case None => Declaration(name) !in src
  {
    hide Expresses, Declares, Address, CountInstructions, DeclarationLine;
    LookupDeclared(lines, 0, name);
    match Lookup(DeclaredLabels(lines, 0), name)
    case None =>
      forall i | 0 <= i < |src| ensures src[i] != Declaration(name) {
        StatementsAreInstructions(lines[i], src[i]);
      }
    case Some(a) =>
      var i: nat :| IsFirstDeclaration(lines, i, name) && a == CountInstructions(lines[..i]);
      CountIsAddress(lines, src, i);
      forall j | 0 <= j <= i ensures Declares(lines[j], name) <==> src[j] == Declaration(name) {
        StatementsAreInstructions(lines[j], src[j]);
      }
      FirstDeclaration(src, name, i, 0);
  }

  // ----- lines -----

  /** How a line with the right number of words assembles. */
  lemma {:induction false} AssembleByOperands(line: seq<Token>, labels: seq<Label>, op: Op)
    requires line != [] && line[0] == Word(Name(op)) && |line| == OperandCount(op) + 1 <= 4
    ensures AssembleLine(line, labels) == match TakeOperands(line, 1, NO_OPERANDS, op, labels)
                                          case Aborted(e) => Aborted(e)
                                          case Emitted(o) => Emitted(Build(op, o.regs, o.fvalue, o.dvalue))
  {
    hide Name, Build, TakeOperands, OperandCount;
    KeywordOfName(op);
  }

  lemma TakeNone(line: seq<Token>, o: Operands, op: Op, labels: seq<Label>)
    requires |o.regs| == 4 && 1 <= |line| <= 4
    ensures TakeOperands(line, |line|, o, op, labels) == Emitted(o)
  {
  }

  lemma ToI32Small(n: nat)
    requires FitsInt(n)
    ensures ToI32(n) == n
  {
  }

  lemma RegisterLineCompiles(line: Line, st: Statement, src: Source, labels: seq<Label>)
    requires Reads(line, st) && IsSupported(st) && (st.Bare? || st.Unary? || st.Copy? || st.Arith?)
    ensures Compile(src, st).Some? && AssembleLine(line, labels) == Emitted(Compile(src, st).value)
  {
    hide Name, TakeOperands, AssembleLine, IsRegisterWord;
    var o := NO_OPERANDS;
    match st
    case Bare(op) =>
      AssembleByOperands(line, labels, op);
      TakeNone(line, o, op, labels);
    case Unary(op, r) =>
      AssembleByOperands(line, labels, op);
      TakeRegister(line, 1, o, op, labels, r);
      TakeNone(line, o.(regs := [r, 0, 0, 0]), op, labels);
      assert o.regs[0 := r] == [r, 0, 0, 0];
    case Copy(op, rd, rs) =>
      AssembleByOperands(line, labels, op);
      TakeRegister(line, 1, o, op, labels, rd);
      TakeRegister(line, 2, o.(regs := [rd, 0, 0, 0]), op, labels, rs);
      TakeNone(line, o.(regs := [rd, rs, 0, 0]), op, labels);
      assert o.regs[0 := rd] == [rd, 0, 0, 0] && [rd, 0, 0, 0][1 := rs] == [rd, rs, 0, 0];
    case Arith(op, rd, ra, rb) => ArithLineCompiles(line, op, rd, ra, rb, labels);
  }

  lemma ArithLineCompiles(line: Line, op: Op, rd: i8, ra: i8, rb: i8, labels: seq<Label>)
    requires IsBinary(op) && Reads(line, Arith(op, rd, ra, rb))
    ensures AssembleLine(line, labels) == Emitted(Instruction(op, rd, ra, rb, 0))
  {
    hide Name, TakeOperands, AssembleLine, IsRegisterWord;
    var o := NO_OPERANDS;
    AssembleByOperands(line, labels, op);
    TakeRegister(line, 1, o, op, labels, rd);
    TakeRegister(line, 2, o.(regs := [rd, 0, 0, 0]), op, labels, ra);
    TakeRegister(line, 3, o.(regs := [rd, ra, 0, 0]), op, labels, rb);
    TakeNone(line, o.(regs := [rd, ra, rb, 0]), op, labels);
    assert o.regs[0 := rd] == [rd, 0, 0, 0] && [rd, 0, 0, 0][1 := ra] == [rd, ra, 0, 0];
    assert [rd, ra, 0, 0][2 := rb] == [rd, ra, rb, 0];
  }

  lemma LoadLineCompiles(line: Line, rd: i8, n: nat, labels: seq<Label>)
    requires Reads(line, Load(rd, n))
    ensures FitsInt(n) && AssembleLine(line, labels) == Emitted(Instruction(SET, rd, 0, 0, n))
  {
    hide Name, TakeOperands, AssembleLine, IsRegisterWord, Atoi, IsDigits;
    var o := NO_OPERANDS;
    AssembleByOperands(line, labels, SET);
    TakeRegister(line, 1, o, SET, labels, rd);
    TakeValue(line, 2, o.(regs := [rd, 0, 0, 0]), SET, labels, n);
    TakeNone(line, o.(regs := [rd, 0, 0, 0], dvalue := n), SET, labels);
    assert o.regs[0 := rd] == [rd, 0, 0, 0];
    ToI32Small(n);
  }

  lemma JumpLineCompiles(line: Line, op: Op, t: Target, lines: seq<Line>, src: Source)
    requires op in {JMP, CALL} && |line| == 2 && line[0] == Word(Name(op)) && IsTargetWord(line[1], t)
    requires IsSourceOf(lines, src) && FitsInt(TargetAddress(src, t))
    ensures AssembleLine(line, DeclaredLabels(lines, 0))
            == if IsDeclared(src, t) then Emitted(Instruction(op, 0, 0, 0, TargetAddress(src, t)))
               else Aborted(LabelNotFound)
  {
    hide Name, TakeOperands, AssembleLine, IsTargetWord, IsSourceOf, TargetAddress, DeclaredLabels, IsDeclared;
    var o, labels := NO_OPERANDS, DeclaredLabels(lines, 0);
    AssembleByOperands(line, labels, op);
    TakeTarget(line, 1, o, op, lines, src, t);
    TakeNone(line, o.(dvalue := TargetAddress(src, t)), op, labels);
    ToI32Small(TargetAddress(src, t));
  }

  lemma BranchLineCompiles(line: Line, op: Op, t: Target, ra: i8, rb: i8, lines: seq<Line>,
                                              src: Source)
    requires op in {EJMP, NEJMP} && |line| == 4 && line[0] == Word(Name(op)) && IsTargetWord(line[1], t)
    requires IsRegisterWord(line[2], ra) && IsRegisterWord(line[3], rb)
    requires IsSourceOf(lines, src) && FitsInt(TargetAddress(src, t))
    ensures AssembleLine(line, DeclaredLabels(lines, 0))
            == if IsDeclared(src, t) then Emitted(Instruction(op, ra, rb, 0, TargetAddress(src, t)))
               else Aborted(LabelNotFound)
  {
    hide Name, TakeOperands, AssembleLine, IsTargetWord, IsRegisterWord, IsSourceOf, TargetAddress, DeclaredLabels,
         IsDeclared;
    var labels, a := DeclaredLabels(lines, 0), TargetAddress(src, t);
    var o := NO_OPERANDS.(dvalue := a);
    AssembleByOperands(line, labels, op);
    TakeTarget(line, 1, NO_OPERANDS, op, lines, src, t);
    TakeRegister(line, 2, o, op, labels, ra);
    TakeRegister(line, 3, o.(regs := [0, ra, 0, 0]), op, labels, rb);
    TakeNone(line, o.(regs := [0, ra, rb, 0]), op, labels);
    assert o.regs[1 := ra] == [0, ra, 0, 0] && [0, ra, 0, 0][2 := rb] == [0, ra, rb, 0];
    ToI32Small(a);
  }

  lemma TargetFits(l: Token, t: Target, src: Source)
    requires IsTargetWord(l, t) && FitsInt(Address(src, |src|))
    ensures FitsInt(TargetAddress(src, t))
  {
    if t.ToLabel? { AddressMonotone(src, DeclarationLine(src, t.name, 0), |src|); }
  }

  /** The target of a statement, if it has one, is declared. */
  predicate TargetDeclared(src: Source, s: Statement)
  {
    match s
    case Jump(t) => IsDeclared(src, t)
    case CallTo(t) => IsDeclared(src, t)
    case JumpIf(_, t, _, _) => IsDeclared(src, t)
    case _ => true
  }

  /** Every statement line assembles to the instruction of its statement, or aborts because it names a
      label that is not declared. */
  lemma LineCompiles(line: Line, st: Statement, lines: seq<Line>, src: Source)
    requires Reads(line, st) && IsSupported(st) && IsSourceOf(lines, src) && FitsInt(Address(src, |src|))
    ensures Compile(src, st).Some?
    ensures AssembleLine(line, DeclaredLabels(lines, 0))
            == if TargetDeclared(src, st) then Emitted(Compile(src, st).value) else Aborted(LabelNotFound)
  {
    hide Name, AssembleLine, IsTargetWord, IsRegisterWord, IsValueWord, IsSourceOf, TargetAddress, DeclaredLabels,
         IsDeclared;
    match st
    case Load(rd, n) => LoadLineCompiles(line, rd, n, DeclaredLabels(lines, 0));
    case Jump(t) =>
      TargetFits(line[1], t, src);
      JumpLineCompiles(line, JMP, t, lines, src);
    case CallTo(t) =>
      TargetFits(line[1], t, src);
      JumpLineCompiles(line, CALL, t, lines, src);
    case JumpIf(onEqual, t, ra, rb) =>
      TargetFits(line[1], t, src);
      BranchLineCompiles(line, if onEqual then EJMP else NEJMP, t, ra, rb, lines, src);
    case _ => RegisterLineCompiles(line, st, src, DeclaredLabels(lines, 0));
  }

  // ----- programs -----

  lemma {:induction false} EmittedExtends(s: Emission, lines: seq<Line>, labels: seq<Label>)
    requires EmitLines(s, lines, labels).Emitted?
    ensures s.program <= EmitLines(s, lines, labels).value.program
    decreases |lines|
  {
    hide AssembleLine;
    if lines != [] {
      EmittedExtends(EmitLineEnd(s.(line := s.line + lines[0]), labels).value, lines[1..], labels);
    }
  }

  /** On a clean list the instruction of line k lands at the number of instruction lines before it. */
  lemma {:induction false} EmittedAt(s: Emission, lines: seq<Line>, labels: seq<Label>, k: nat)
    requires s.line == [] && WellLexed(lines) && Clean(lines, s.staleColon)
    requires EmitLines(s, lines, labels).Emitted? && k < |lines| && IsInstructionLine(lines[k])
    ensures var p, a := EmitLines(s, lines, labels).value.program, |s.program| + CountInstructions(lines[..k]);
            a < |p| && AssembleLine(lines[k], labels) == Emitted(p[a])
    decreases |lines|
  {
    hide AssembleLine, IsLexed;
    var l := lines[0];
    assert s.line + l == l;
    if l != [] { AssembledLineStartsWithWord(l, labels); }
    var next := EmitLineEnd(s.(line := l), labels).value;
    if k == 0 {
      assert lines[..0] == [];
      EmittedExtends(next, lines[1..], labels);
    } else {
      assert lines[..k][1..] == lines[1..][..k - 1];
      EmittedAt(next, lines[1..], labels, k - 1);
    }
  }

  lemma EmittedIsCompiled(lines: seq<Line>, src: Source)
    requires WellLexed(lines) && Clean(lines, false) && IsSourceOf(lines, src)
    requires CountInstructions(lines) < 0x8000_0000
    requires EmitLines(START_EMISSION, lines, DeclaredLabels(lines, 0)).Emitted?
    ensures IsCompiled(src, EmitLines(START_EMISSION, lines, DeclaredLabels(lines, 0)).value.program)
  {
    hide AssembleLine, Reads, EmitLines, DeclaredLabels, CountInstructions, Address, Compile, IsSupported;
    var labels := DeclaredLabels(lines, 0);
    var p := EmitLines(START_EMISSION, lines, labels).value.program;
    EmittedCount(START_EMISSION, lines, labels);
    CountIsAddress(lines, src, |lines|);
    assert lines[..|lines|] == lines;
    forall i | 0 <= i < |src| && src[i].Do?
      ensures && IsSupported(src[i].statement)
              && Address(src, i) < |p| && Compile(src, src[i].statement) == Some(p[Address(src, i)])
    {
      StatementsAreInstructions(lines[i], src[i]);
      EmittedAt(START_EMISSION, lines, labels, i);
      CountIsAddress(lines, src, i);
      assert Expresses(lines[i], src[i]);
      LineCompiles(lines[i], src[i].statement, lines, src);
    }
  }

  /** On a clean list pass 2 goes through exactly when every instruction line assembles. */
  lemma {:induction false} EmitsIffLinesAssemble(s: Emission, lines: seq<Line>, labels: seq<Label>)
    requires s.line == [] && WellLexed(lines) && Clean(lines, s.staleColon)
    ensures EmitLines(s, lines, labels).Emitted? <==>
              forall k | 0 <= k < |lines| && IsInstructionLine(lines[k]) :: AssembleLine(lines[k], labels).Emitted?
    decreases |lines|
  {
    hide AssembleLine, IsLexed;
    if lines != [] {
      var l, rest := lines[0], lines[1..];
      assert s.line + l == l;
      if l != [] { AssembledLineStartsWithWord(l, labels); }
      var next := EmitLineEnd(s.(line := l), labels);
      assert IsInstructionLine(l) ==> (next.Emitted? <==> AssembleLine(l, labels).Emitted?);
      if next.Emitted? {
        EmitsIffLinesAssemble(next.value, rest, labels);
        forall k | 0 <= k < |rest| ensures rest[k] == lines[k + 1] {}
        if forall k | 0 <= k < |rest| && IsInstructionLine(rest[k]) :: AssembleLine(rest[k], labels).Emitted? {
          forall k | 0 <= k < |lines| && IsInstructionLine(lines[k]) ensures AssembleLine(lines[k], labels).Emitted? {
            if k > 0 { assert lines[k] == rest[k - 1]; }
          }
        }
      }
    }
  }

  lemma SourceHasNoStrayColon(lines: seq<Line>, src: Source)
    requires IsSourceOf(lines, src)
    ensures NoStrayColon(lines)
  {
    hide Reads, IsSupported;
    forall i | 0 <= i < |lines| && |lines[i]| >= 2 && lines[i][1] == COLON ensures lines[i][0].Word? {
      assert Expresses(lines[i], src[i]);
      StatementsAreInstructions(lines[i], src[i]);
    }
  }

  /** The terminated lines of a list, cut off behind their labels: what both passes go by. */
  function CutLines(ts: seq<Token>): seq<Line> { CutAll(LinesOf(ts)) }

  /** Both passes over the cut lines. */
  lemma PassesSeeCutLines(ts: seq<Token>, labels: seq<Label>)
    requires Lexed(ts) && Clean(LinesOf(ts), false)
    ensures var lines, index := CutLines(ts), IndexLines(START_INDEX, CutLines(ts));
            && WellLexed(lines) && Clean(lines, false) && CountInstructions(lines) == CountInstructions(LinesOf(ts))
            && IndexFrom(START_INDEX, ts).labels == index.labels
            && ProgramOf(EmitFrom(START_EMISSION, ts, labels)) == ProgramOf(EmitLines(START_EMISSION, lines, labels))
  {
    hide LinesOf, CutAll, WellLexed, Clean, CountInstructions, IndexFrom, EmitFrom, IndexLines, EmitLines, Lexed;
    LinesOfWellLexed(ts);
    CutAllWellLexed(LinesOf(ts));
    CutAllKeeps(LinesOf(ts), false);
    BehindLabelsIsLost(ts, labels);
  }

  /** Pass 1 records the declared labels of a clean source. */
  lemma LabelsOfSource(ts: seq<Token>, src: Source)
    requires Lexed(ts) && Clean(LinesOf(ts), false) && IsSourceOf(CutLines(ts), src)
    ensures IndexFrom(START_INDEX, ts).labels == DeclaredLabels(CutLines(ts), 0)
  {
    hide Clean, LinesOf, CutLines, IndexFrom, IndexLines, DeclaredLabels, IsSourceOf, NoStrayColon, Lexed, WellLexed;
    PassesSeeCutLines(ts, []);
    SourceHasNoStrayColon(CutLines(ts), src);
    IndexedTable(START_INDEX, CutLines(ts));
    assert [] + DeclaredLabels(CutLines(ts), 0) == DeclaredLabels(CutLines(ts), 0);
  }

  ghost predicate AllDeclared(src: Source)
  {
    forall i | 0 <= i < |src| && src[i].Do? :: TargetDeclared(src, src[i].statement)
  }

  /** Take a clean token list whose lines, cut off behind their labels, express a source of the fragment. The
      assembler accepts it exactly when every label the source names is declared. */
  lemma AcceptedIffDeclared(ts: seq<Token>, src: Source)
    requires Lexed(ts) && Clean(LinesOf(ts), false) && IsSourceOf(CutLines(ts), src)
    requires CountInstructions(LinesOf(ts)) < 0x8000_0000
    ensures EmitFrom(START_EMISSION, ts, IndexFrom(START_INDEX, ts).labels).Emitted? <==> AllDeclared(src)
  {
    hide AssembleLine, Reads, EmitLines, EmitFrom, DeclaredLabels, CountInstructions, Address, Compile, IsSupported,
         Clean, Lexed, LinesOf, CutLines, TargetDeclared, Declares, IsInstructionLine, IndexFrom, WellLexed;
    var lines, labels := CutLines(ts), DeclaredLabels(CutLines(ts), 0);
    LabelsOfSource(ts, src);
    PassesSeeCutLines(ts, labels);
    EmitsIffLinesAssemble(START_EMISSION, lines, labels);
    CountIsAddress(lines, src, |lines|);
    assert lines[..|lines|] == lines;
    forall i | 0 <= i < |src|
      ensures IsInstructionLine(lines[i]) <==> src[i].Do?
      ensures src[i].Do? ==> lines[i] != []
      ensures src[i].Do? ==> (AssembleLine(lines[i], labels).Emitted? <==> TargetDeclared(src, src[i].statement))
    {
      assert Expresses(lines[i], src[i]);
      StatementsAreInstructions(lines[i], src[i]);
      if src[i].Do? { LineCompiles(lines[i], src[i].statement, lines, src); }
    }
  }

  function SourceStart(d: Data, limit: nat): SourceState { SourceState(0, d, [], limit, true) }

  /** Assembling preserves meaning. Take a clean token list whose lines, cut off behind their labels, express
      a source and which the assembler does not abort on. From any registers, stack and frame array, n steps of the
      assembled program are n steps of the source: same data, same depth, same halting, same
      faults. The only difference is a REC with all frames in use, which the source does not have. */
  lemma {:induction false} AssemblyPreservesMeaning(ts: seq<Token>, src: Source, s: State, n: nat)
    requires Lexed(ts) && Clean(LinesOf(ts), false) && IsSourceOf(CutLines(ts), src)
    requires CountInstructions(LinesOf(ts)) < 0x8000_0000
    requires EmitFrom(START_EMISSION, ts, IndexFrom(START_INDEX, ts).labels).Emitted?
    requires s.pc == 0 && s.frames == 0 && s.running
    ensures var p := EmitFrom(START_EMISSION, ts, IndexFrom(START_INDEX, ts).labels).value.program;
            var source := SourceExec(src, SourceStart(s.data, |s.mem|), n);
            match Exec(p, s, n)
            case Ok(t) => && source.Ok? && t.data == source.state.data && t.running == source.state.running
                          && t.frames == |source.state.pending|
                          && (Halted(p, t) <==> SourceHalted(src, source.state))
            case Stopped => source == Stopped
            case Fault(e) => source == Fault(e) || (e == FrameBounds && MeetsFullRec(p, s, n))
  {
    hide AssembleLine, IndexLineEnd, EmitLineEnd, EmitLines, Step, ListStep, SourceStep, IsCompiled, Clean,
         IsSourceOf, CountInstructions, DeclaredLabels, LinesOf, CutLines, WellLexed, Lexed, Address, EmitToken,
         IndexToken, MeetsFullRec,
         Matches, Returns, NextStatement;
    var lines, labels := CutLines(ts), IndexFrom(START_INDEX, ts).labels;
    LabelsOfSource(ts, src);
    PassesSeeCutLines(ts, labels);
    EmittedIsCompiled(lines, src);
    var p := EmitFrom(START_EMISSION, ts, labels).value.program;
    var start, l := SourceStart(s.data, |s.mem|), Abstract(s);
    StartMatches(src, p, s);
    ProgramSimulatesSource(src, p, start, l, n);
    ExecRefines(p, s, n);
    match Exec(p, s, n)
    case Ok(t) =>
      var u := SourceExec(src, start, n).state;
      MatchesData(src, u, Abstract(t));
      SameStatement(src, p, u, Abstract(t));
      MatchesRunning(src, u, Abstract(t));
    case _ =>
  }

  lemma StartMatches(src: Source, p: Program, s: State)
    requires s.pc == 0 && s.frames == 0 && s.running
    ensures Matches(src, SourceStart(s.data, |s.mem|), Abstract(s))
  {
  }

  lemma MatchesRunning(src: Source, s: SourceState, l: ListState)
    requires Matches(src, s, l)
    ensures s.running == l.running
  {
  }
}
