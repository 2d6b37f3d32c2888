/** From instructions to lines and back: an instruction as its keyword and the words of its operands, in
    the order of src/assembler/disassembler.c, assembles to itself. */
module RoundTrip {
  import opened Words
  import opened Semantics
  import opened Tokenizer
  import opened Keywords
  import opened Assembler
  import opened Passes
  import opened PassTheorems
  import opened SourceLanguage
  import opened Simulation
  import opened Meaning

  // ----- printing -----

  function Digit(d: nat): char
    requires d < 10
  {
    ('0' as int + d) as char
  }

  function Digits(n: nat): (s: string)
    ensures s != "" && forall i | 0 <= i < |s| :: IsNumber(s[i])
  {
    if n < 10 then [Digit(n)] else Digits(n / 10) + [Digit(n % 10)]
  }

  function RegisterWord(r: nat): Token { Word("r" + Digits(r)) }

  function ValueWord(n: nat): Token { Number(Digits(n)) }

  predicate IsUnary(op: Op) { op in {INC, DEC, PUSH, POP, RET, REG_DUMP} }

  predicate IsCopy(op: Op) { op in {CU2I, CI2U} }

  predicate IsBare(op: Op) { op in {HALT, REC, PRINT} }

  /** Instructions of the integer fragment whose unused slots are zero, as every macro leaves them. */
  predicate IsCanonical(i: Instruction)
  {
    && i.r0 >= 0 && i.r1 >= 0 && i.r2 >= 0 && i.imm >= 0
    && if IsBinary(i.op) then i.imm == 0
       else if IsBare(i.op) then i.r0 == i.r1 == i.r2 == 0 && i.imm == 0
       else if IsUnary(i.op) then i.r1 == i.r2 == 0 && i.imm == 0
       else if IsCopy(i.op) then i.r2 == 0 && i.imm == 0
       else if i.op == SET then i.r1 == i.r2 == 0
       else if i.op == JMP || i.op == CALL then i.r0 == i.r1 == i.r2 == 0
       else (i.op == EJMP || i.op == NEJMP) && i.r2 == 0
  }

  function OperandWords(i: Instruction): seq<Token>
    requires IsCanonical(i)
  {
    if IsBinary(i.op) then [RegisterWord(i.r0), RegisterWord(i.r1), RegisterWord(i.r2)]
    else if IsBare(i.op) then []
    else if IsUnary(i.op) then [RegisterWord(i.r0)]
    else if IsCopy(i.op) then [RegisterWord(i.r0), RegisterWord(i.r1)]
    else if i.op == SET then [RegisterWord(i.r0), ValueWord(i.imm)]
    else if i.op == JMP || i.op == CALL then [ValueWord(i.imm)]
    else [ValueWord(i.imm), RegisterWord(i.r0), RegisterWord(i.r1)]
  }

  function LineWords(i: Instruction): seq<Token>
    requires IsCanonical(i)
  {
    [Word(Name(i.op))] + OperandWords(i)
  }

  predicate IsCanonicalProgram(p: Program) { forall i | 0 <= i < |p| :: IsCanonical(p[i]) }

  // ----- numbers come back -----

  lemma {:induction false} AtoiAppend(s: string, c: char, n: nat)
    requires IsDigits(s) && IsNumber(c)
    ensures DigitsValue(s + [c], n) == 10 * DigitsValue(s, n) + DigitValue(c)
    decreases |s|
  {
    if s == "" {
      assert s + [c] == [c] && [c][1..] == "";
    } else {
      assert (s + [c])[1..] == s[1..] + [c];
      AtoiAppend(s[1..], c, 10 * n + DigitValue(s[0]));
    }
  }

  /** Printing a number in decimal and reading it with atoi gives the number. */
  lemma {:induction false} AtoiDigits(n: nat)
    ensures IsDigits(Digits(n)) && Atoi(Digits(n)) == n
    decreases n
  {
    if n < 10 {
      assert Digits(n)[1..] == "";
    } else {
      AtoiDigits(n / 10);
      AtoiOfDigits(Digits(n / 10));
      AtoiAppend(Digits(n / 10), Digit(n % 10), 0);
    }
    AtoiOfDigits(Digits(n));
  }

  const DECIMAL := "0123456789"

  /** Numbers are written with the ten digits, the highest first. */
  lemma DigitsLaw(n: nat)
    ensures n < 10 ==> Digits(n) == [DECIMAL[n]]
    ensures n >= 10 ==> Digits(n) == Digits(n / 10) + [DECIMAL[n % 10]]
  {
  }

  /** atoi: a blank in front is skipped, a sign counts, each digit behind makes ten of the number before,
      and anything else ends it. */
  lemma AtoiLaw(s: string, c: char, n: nat)
    requires IsDigits(s)
    ensures Atoi("") == 0 && (n < 10 ==> Atoi([DECIMAL[n]]) == n)
    ensures n < 10 ==> Atoi(s + [DECIMAL[n]]) == 10 * Atoi(s) + n
    ensures Atoi("-" + s) == 0 - Atoi(s) && Atoi("+" + s) == Atoi(s)
    ensures c in {' ', '\t', '\n', '\U{B}', '\U{C}', '\r'} ==> Atoi([c] + s) == Atoi(s)
  {
    assert ("-" + s)[1..] == s && ("+" + s)[1..] == s && ([c] + s)[1..] == s;
    AtoiOfDigits(s);
    if n < 10 {
      var d := DECIMAL[n];
      assert IsNumber(d) && DigitValue(d) == n;
      assert [d][1..] == "" && DigitsValue([d], 0) == n;
      AtoiAppend(s, d, 0);
      AtoiOfDigits(s + [d]);
      AtoiOfDigits([d]);
    }
  }

  lemma {:induction false} AtoiStops(s: string, c: char, rest: string)
    requires IsDigits(s) && !IsNumber(c) && s != ""
    ensures Atoi(s + ([c] + rest)) == Atoi(s)
  {
    DigitsStop(s, c, rest, 0);
    AtoiOfDigits(s);
    assert (s + ([c] + rest))[0] == s[0];
  }

  lemma {:induction false} DigitsStop(s: string, c: char, rest: string, n: nat)
    requires IsDigits(s) && !IsNumber(c)
    ensures DigitsValue(s + ([c] + rest), n) == DigitsValue(s, n)
    decreases |s|
  {
    var t := s + ([c] + rest);
    if s == "" {
      assert t[0] == c;
    } else {
      assert t[0] == s[0] && t[1..] == s[1..] + ([c] + rest);
      DigitsStop(s[1..], c, rest, 10 * n + DigitValue(s[0]));
    }
  }

  predicate FitsC(n: int) { -0x8000_0000 <= n <= 0x7FFF_FFFF }

  predicate IsDecimalWord(s: string) { forall k | 0 <= k < |s| :: s[k] in "0123456789-" }

  /** parse_reg: which words are registers and which refer to labels. The number of a register is kept in a
      signed byte. */
  lemma ParseRegLaw(s: string)
    requires s != "" && (s == "fr" || s[0] in "rL")
    ensures s == "fr" ==> ParseReg(s) == Emitted(Register(0))
    ensures s[0] == 'r' ==> ParseReg(s) == if FitsC(Atoi(s[1..])) then Emitted(Register(ByteOf(Atoi(s[1..]))))
                                           else Aborted(NumberTooBig)
    ensures s[0] == 'L' ==> ParseReg(s) == if s == "L" then Aborted(EmptyLabel) else Emitted(Reference(s[1..]))
  {
    hide Atoi;
    assert |s| == 1 ==> s == [s[0]];
    assert "fr"[0] == 'f';
  }

  /** All other words are values, kept in 32 bits: decimals what atoi reads, the rest zero. */
  lemma ParseValueLaw(s: string)
    requires s != "fr" && (s == "" || s[0] !in "rL")
    ensures ParseReg(s) == if !IsDecimalWord(s) then Emitted(Value(0))
                           else if FitsC(Atoi(s)) then Emitted(Value(WordOf(Atoi(s))))
                           else Aborted(NumberTooBig)
  {
    hide Atoi;
    forall k | 0 <= k < |s| ensures s[k] in "0123456789-" <==> IsNumber(s[k]) || s[k] == '-' {}
  }

  /** The signed byte and the unsigned word a number is kept in. */
  function ByteOf(n: int): i8 { if n % 256 < 128 then n % 256 else n % 256 - 256 }

  function WordOf(n: int): u32
    requires FitsC(n)
  {
    if n >= 0 then n else n + 0x1_0000_0000
  }

  lemma RegisterWordReads(r: i8)
    requires r >= 0
    ensures IsRegisterWord(RegisterWord(r), r) && IsLexeme(RegisterWord(r))
  {
    var text := "r" + Digits(r);
    assert text[1..] == Digits(r);
    AtoiDigits(r);
    forall i | 0 <= i < |text| ensures IsWordPart(text[i]) {
      if i > 0 { assert IsNumber(Digits(r)[i - 1]); }
    }
  }

  lemma ValueWordReads(n: nat)
    requires n <= INT_MAX
    ensures IsValueWord(ValueWord(n), n) && IsLexeme(ValueWord(n))
  {
    AtoiDigits(n);
  }

  // ----- one line -----

  /** Every keyword of the fragment is a word of letters and digits. */
  lemma NameIsLexeme(op: Op)
    requires IsBinary(op) || IsBare(op) || IsUnary(op) || IsCopy(op) || op in {SET, JMP, CALL, EJMP, NEJMP}
    ensures IsLexeme(Word(Name(op)))
  {
    hide IsLexeme, Name;
    if IsBinary(op) { BinaryNameIsLexeme(op); } else { OtherNameIsLexeme(op); }
  }

  lemma BinaryNameIsLexeme(op: Op)
    requires IsBinary(op)
    ensures IsLexeme(Word(Name(op)))
  {
  }

  lemma OtherNameIsLexeme(op: Op)
    requires op in {HALT, REC, PRINT, INC, DEC, PUSH, POP, RET, REG_DUMP, CU2I, CI2U, SET, JMP, CALL, EJMP, NEJMP}
    ensures IsLexeme(Word(Name(op)))
  {
  }

  predicate AreWords(words: seq<Token>) { forall i | 0 <= i < |words| :: IsPlain(words[i]) && IsLexeme(words[i]) }

  lemma LineWordsAreWords(i: Instruction)
    requires IsCanonical(i)
    ensures AreWords(LineWords(i))
  {
    hide Name, Digits, IsLexeme;
    NameIsLexeme(i.op);
    RegisterWordReads(i.r0);
    RegisterWordReads(i.r1);
    RegisterWordReads(i.r2);
    ValueWordReads(i.imm);
  }

  /** The statement an instruction is the code of. */
  function StatementOf(i: Instruction): Statement
    requires IsCanonical(i)
  {
    if IsBinary(i.op) then Arith(i.op, i.r0, i.r1, i.r2)
    else if IsBare(i.op) then Bare(i.op)
    else if IsUnary(i.op) then Unary(i.op, i.r0)
    else if IsCopy(i.op) then Copy(i.op, i.r0, i.r1)
    else if i.op == SET then Load(i.r0, i.imm)
    else if i.op == JMP then Jump(ToAddress(i.imm))
    else if i.op == CALL then CallTo(ToAddress(i.imm))
    else JumpIf(i.op == EJMP, ToAddress(i.imm), i.r0, i.r1)
  }

  lemma LineWordsRead(i: Instruction)
    requires IsCanonical(i)
    ensures Reads(LineWords(i), StatementOf(i))
    ensures Compile([], StatementOf(i)) == Some(i)
  {
    hide Name, Digits, IsRegisterWord, IsValueWord, RegisterWord, ValueWord;
    RegisterWordReads(i.r0);
    RegisterWordReads(i.r1);
    RegisterWordReads(i.r2);
    ValueWordReads(i.imm);
  }

  /** Every canonical instruction, printed and assembled again, is itself, whatever labels there are; ejmp
      and nejmp with any registers. */
  lemma LineRoundTrip(i: Instruction, labels: seq<Label>)
    requires IsCanonical(i)
    ensures AssembleLine(LineWords(i), labels) == Emitted(i)
  {
    hide AssembleLine, LineWords, IsSourceOf, Lookup, IsTargetWord, IsRegisterWord, IsValueWord;
    LineWordsRead(i);
    var st := StatementOf(i);
    match st
    case Load(rd, n) => LoadLineCompiles(LineWords(i), rd, n, labels);
    case Jump(t) => NumericLineCompiles(LineWords(i), i, labels);
    case CallTo(t) => NumericLineCompiles(LineWords(i), i, labels);
    case JumpIf(_, _, _, _) => NumericLineCompiles(LineWords(i), i, labels);
    case _ => RegisterLineCompiles(LineWords(i), st, [], labels);
  }

  /** Lines with a number for a target need no label table. */
  lemma NumericLineCompiles(line: Line, i: Instruction, labels: seq<Label>)
    requires IsCanonical(i) && i.op in {JMP, CALL, EJMP, NEJMP} && Reads(line, StatementOf(i))
    ensures AssembleLine(line, labels) == Emitted(i)
  {
    hide Name, TakeOperands, AssembleLine, IsRegisterWord, IsValueWord;
    var o := NO_OPERANDS.(dvalue := i.imm);
    AssembleByOperands(line, labels, i.op);
    TakeValue(line, 1, NO_OPERANDS, i.op, labels, i.imm);
    ToI32Small(i.imm);
    if i.op == JMP || i.op == CALL {
      TakeNone(line, o, i.op, labels);
    } else {
      TakeRegister(line, 2, o, i.op, labels, i.r0);
      TakeRegister(line, 3, o.(regs := [0, i.r0, 0, 0]), i.op, labels, i.r1);
      TakeNone(line, o.(regs := [0, i.r0, i.r1, 0]), i.op, labels);
      assert o.regs[1 := i.r0] == [0, i.r0, 0, 0] && [0, i.r0, 0, 0][2 := i.r1] == [0, i.r0, i.r1, 0];
    }
  }

  // ----- which mnemonics keep their opcode -----

  /** A line that assembles carries the opcode its keyword names, except for six keywords: entry and nop
      become halt, getac becomes call, and the register jumps become literal jumps. */
  lemma KeywordKeepsOpcodeIff(line: Line, op: Op, labels: seq<Label>)
    requires line != [] && line[0] == Word(Name(op)) && AssembleLine(line, labels).Emitted?
    ensures AssembleLine(line, labels).value.op == op <==> op !in {ENTRY, NOP, GETAC, RJMP, ERJMP, NERJMP}
  {
    hide Name, TakeOperands, OperandCount, Build, ToI32, ToI8;
    KeywordOfName(op);
    var r := AssembleLine(line, labels).value;
    OperandCountAtMostThree(op);
    if |line| == OperandCount(op) + 1 {
      var o := TakeOperands(line, 1, NO_OPERANDS, op, labels).value;
      BuildKeepsOpcodeIff(op, o.regs, o.fvalue, o.dvalue);
    } else {
      BuildKeepsOpcodeIff(op, NO_OPERANDS.regs, 0, 0);
    }
  }

  lemma BuildKeepsOpcodeIff(op: Op, a: seq<i8>, fvalue: nat, dvalue: nat)
    requires |a| == 4
    ensures Build(op, a, fvalue, dvalue).op == op <==> op !in {ENTRY, NOP, GETAC, RJMP, ERJMP, NERJMP}
  {
    hide ToI32, ToI8;
  }

  // ----- what an unclean list loses -----

  /** A label line, a bare instruction and another instruction: lines like `Lreccon:`, `rec`, `push r0` of
      the recursive example. The colon of the label is still in the token buffer when the bare line
      ends, so pass 1 counts the two instructions as one and pass 2 drops the bare one. */
  lemma BareLineAfterLabelIsLost(name: string, op: Op, i: Instruction)
    requires IsBare(op) && IsCanonical(i) && !IsBare(i.op)
    ensures var lines := [[Word(name), COLON], [Word(Name(op))], LineWords(i)];
            && CountInstructions(lines) == 2
            && IndexLines(START_INDEX, lines).lc == 1
            && EmitLines(START_EMISSION, lines, []) == Emitted(START_EMISSION.(program := [i]))
  {
    hide Name, AssembleLine, OperandWords, IsCanonical, IndexLineEnd, EmitLineEnd;
    var lines := [[Word(name), COLON], [Word(Name(op))], LineWords(i)];
    var last, two := [lines[2]], [lines[1], lines[2]];
    assert last[1..] == [] && two[1..] == last && lines[1..] == two;
    WordsBehindKeyword(i);
    LineRoundTrip(i, []);
    assert CountInstructions(last) == 1 && CountInstructions(two) == 2;
    IndexedThree(name, Name(op), lines[2]);
    var labelled := Index([], true, [Label(name, 0)], 0, false);
    assert IndexLines(labelled.(line := [Word(Name(op))]), last).lc == 1;
    assert IndexLines(labelled, two).lc == 1;
    EmittedThree(name, Name(op), lines[2], i);
    var after := START_EMISSION.(staleColon := true);
    assert EmitLines(after, last, []) == Emitted(START_EMISSION.(program := [i]));
    assert EmitLines(after, two, []) == EmitLines(after, last, []);
  }

  lemma WordsBehindKeyword(i: Instruction)
    requires IsCanonical(i) && !IsBare(i.op)
    ensures var l := LineWords(i); |l| >= 2 && l[1] != COLON && l[0].Word?
  {
    hide Name, Digits;
  }

  lemma IndexedThree(name: string, bare: string, l: Line)
    requires |l| >= 2 && l[0].Word?
    ensures var kept := Index([Word(bare)], true, [Label(name, 0)], 0, false);
            var labelled := kept.(line := []);
            && IndexLineEnd(START_INDEX.(line := [] + [Word(name), COLON])) == labelled
            && IndexLineEnd(labelled.(line := [] + [Word(bare)])) == kept
            && IndexLineEnd(kept.(line := kept.line + l)).lc == 1
  {
    assert [] + [Word(name), COLON] == [Word(name), COLON] && [] + [Word(bare)] == [Word(bare)];
    assert ([Word(bare)] + l)[1] == l[0];
  }

  lemma EmittedThree(name: string, bare: string, l: Line, i: Instruction)
    requires |l| >= 2 && l[1] != COLON && AssembleLine(l, []) == Emitted(i)
    ensures var labelled := START_EMISSION.(staleColon := true);
            && EmitLineEnd(START_EMISSION.(line := [] + [Word(name), COLON]), []) == Emitted(labelled)
            && EmitLineEnd(labelled.(line := [] + [Word(bare)]), []) == Emitted(labelled)
            && EmitLineEnd(labelled.(line := [] + l), []) == Emitted(START_EMISSION.(program := [i]))
  {
    hide AssembleLine;
    assert [] + [Word(name), COLON] == [Word(name), COLON] && [] + [Word(bare)] == [Word(bare)] && [] + l == l;
    assert START_EMISSION.program + [i] == [i];
  }
}
