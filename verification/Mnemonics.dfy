/** Every line of assembly the assembler accepts, as text: the words of the keyword table with their
    operands written out, and the instruction each of them becomes. */
module Mnemonics {
  import opened Words
  import opened Semantics
  import opened Tokenizer
  import opened Keywords
  import opened Assembler
  import opened Passes
  import opened PassTheorems
  import opened Meaning
  import opened Caasm
  import opened RoundTrip
  import opened PrintedText
  import opened SourceText

  // ----- the table -----

  /** The operands behind a keyword: registers (R), numbers (N), in this order. */
  datatype Shape = Bare | R | RR | RRR | RN | N | NRR

  /** A keyword, its operands and the opcode it becomes. */
  datatype Mnemonic = Mnemonic(word: string, shape: Shape, made: Op)

  /** The rows stand in the order of the keyword list. The loads and saves and rjmp take no operands; "fadd "
      is in the list with its space. */
  const TABLE: seq<Mnemonic> :=
    [Mnemonic("halt", Bare, HALT), Mnemonic("entry", Bare, HALT),
     Mnemonic("dload", Bare, DLOAD), Mnemonic("fload", Bare, FLOAD),
     Mnemonic("dsave", Bare, DSAVE), Mnemonic("fsave", Bare, FSAVE),
     Mnemonic("set", RN, SET), Mnemonic("fset", RN, FSET), Mnemonic("push", R, PUSH), Mnemonic("pop", R, POP),
     Mnemonic("rec", Bare, REC), Mnemonic("call", N, CALL), Mnemonic("getac", R, CALL),
     Mnemonic("inc", R, INC), Mnemonic("dec", R, DEC),
     Mnemonic("add", RRR, ADD), Mnemonic("sub", RRR, SUB), Mnemonic("div", RRR, DIV), Mnemonic("mul", RRR, MUL),
     Mnemonic("fadd ", RRR, FADD), Mnemonic("fsub", RRR, FSUB),
     Mnemonic("fdiv", RRR, FDIV), Mnemonic("fmul", RRR, FMUL),
     Mnemonic("and", RRR, AND), Mnemonic("or", RRR, OR)]
    +
    [Mnemonic("cu2i", RR, CU2I), Mnemonic("ci2u", RR, CI2U), Mnemonic("cf2i", RR, CF2I),
     Mnemonic("ci2f", RR, CI2F), Mnemonic("cu2f", RR, CU2F), Mnemonic("cf2u", RR, CF2U),
     Mnemonic("cmpe", RRR, CMPE), Mnemonic("cmpeg", RRR, CMPEG), Mnemonic("cmpel", RRR, CMPEL),
     Mnemonic("cmpg", RRR, CMPG), Mnemonic("cmpl", RRR, CMPL),
     Mnemonic("fcmpe", RRR, FCMPE), Mnemonic("fcmpeg", RRR, FCMPEG), Mnemonic("fcmpel", RRR, FCMPEL),
     Mnemonic("fcmpg", RRR, FCMPG), Mnemonic("fcmpl", RRR, FCMPL),
     Mnemonic("jmp", N, JMP), Mnemonic("ejmp", NRR, EJMP), Mnemonic("nejmp", NRR, NEJMP),
     Mnemonic("rjmp", Bare, JMP), Mnemonic("erjmp", RRR, EJMP), Mnemonic("nerjmp", RRR, NEJMP),
     Mnemonic("print", Bare, PRINT), Mnemonic("regdump", R, REG_DUMP), Mnemonic("ret", R, RET),
     Mnemonic("nop", Bare, HALT)]

  /** Operands to fill in. */
  datatype Values = Values(a: nat, b: nat, c: nat, n: nat)

  predicate AreValues(v: Values) { v.a < 128 && v.b < 128 && v.c < 128 && v.n <= 0x7FFF_FFFF }

  function RegisterText(r: nat): string { "r" + Digits(r) }

  function LineText(m: Mnemonic, v: Values): string
  {
    match m.shape
    case Bare => m.word
    case R => m.word + " " + RegisterText(v.a)
    case RR => m.word + " " + RegisterText(v.a) + " " + RegisterText(v.b)
    case RRR => m.word + " " + RegisterText(v.a) + " " + RegisterText(v.b) + " " + RegisterText(v.c)
    case RN => m.word + " " + RegisterText(v.a) + " " + Digits(v.n)
    case N => m.word + " " + Digits(v.n)
    case NRR => m.word + " " + Digits(v.n) + " " + RegisterText(v.a) + " " + RegisterText(v.b)
  }

  function Made(m: Mnemonic, v: Values): Instruction
    requires AreValues(v)
  {
    match m.shape
    case Bare => Instruction(m.made, 0, 0, 0, 0)
    case R => Instruction(m.made, v.a, 0, 0, 0)
    case RR => Instruction(m.made, v.a, v.b, 0, 0)
    case RRR => Instruction(m.made, v.a, v.b, v.c, 0)
    case RN => Instruction(m.made, v.a, 0, 0, v.n)
    case N => Instruction(m.made, 0, 0, 0, v.n)
    case NRR => Instruction(m.made, v.a, v.b, 0, v.n)
  }

  function Arity(s: Shape): nat
  {
    match s
    case Bare => 0
    case R => 1
    case RR => 2
    case RRR => 3
    case RN => 2
    case N => 1
    case NRR => 3
  }

  // ----- the rows against the assembler -----

  /** What the operand loop leaves behind for operands of a shape. */
  function Taken(s: Shape, isFloat: bool, v: Values): (o: Operands)
    requires AreValues(v)
    ensures |o.regs| == 4
  {
    match s
    case Bare => NO_OPERANDS
    case R => Operands([v.a, 0, 0, 0], 0, 0)
    case RR => Operands([v.a, v.b, 0, 0], 0, 0)
    case RRR => Operands([v.a, v.b, v.c, 0], 0, 0)
    case RN => if isFloat then Operands([v.a, 0, 0, 0], v.n, 0) else Operands([v.a, 0, 0, 0], 0, v.n)
    case N => Operands([0, 0, 0, 0], 0, v.n)
    case NRR => Operands([0, v.a, v.b, 0], 0, v.n)
  }

  function BuildOf(op: Op, o: Operands): Instruction
    requires |o.regs| == 4
  {
    Build(op, o.regs, o.fvalue, o.dvalue)
  }

  predicate RowHolds(op: Op, m: Mnemonic, v: Values)
    requires AreValues(v)
  {
    && m.word == Name(op) && OperandCount(op) == Arity(m.shape)
    && (m.shape in {N, NRR} ==> !IsFloatInstruction(op))
    && Build(op, [0, 0, 0, 0], 0, 0) == Instruction(m.made, 0, 0, 0, 0)
    && BuildOf(op, Taken(m.shape, IsFloatInstruction(op), v)) == Made(m, v)
  }

  lemma SmallNumbers(v: Values)
    requires AreValues(v)
    ensures ToI32(v.n) == v.n && ToI32(0) == 0 && ToI8(0) == 0
  {
  }

  // The rows are checked three at a time.

  lemma Row0(op: Op, v: Values)
    requires 0 <= Keywords.Number(op) < 3 && AreValues(v)
    ensures Keywords.Number(op) < |TABLE| && RowHolds(op, TABLE[Keywords.Number(op)], v)
  {
    hide ToI32, ToI8;
    assert op == HALT || op == ENTRY || op == DLOAD;
    SmallNumbers(v);
  }

  lemma Row1(op: Op, v: Values)
    requires 3 <= Keywords.Number(op) < 6 && AreValues(v)
    ensures Keywords.Number(op) < |TABLE| && RowHolds(op, TABLE[Keywords.Number(op)], v)
  {
    hide ToI32, ToI8;
    assert op == FLOAD || op == DSAVE || op == FSAVE;
    SmallNumbers(v);
  }

  lemma Row2(op: Op, v: Values)
    requires 6 <= Keywords.Number(op) < 9 && AreValues(v)
    ensures Keywords.Number(op) < |TABLE| && RowHolds(op, TABLE[Keywords.Number(op)], v)
  {
    hide ToI32, ToI8;
    assert op == SET || op == FSET || op == PUSH;
    SmallNumbers(v);
  }

  lemma Row3(op: Op, v: Values)
    requires 9 <= Keywords.Number(op) < 12 && AreValues(v)
    ensures Keywords.Number(op) < |TABLE| && RowHolds(op, TABLE[Keywords.Number(op)], v)
  {
    hide ToI32, ToI8;
    assert op == POP || op == REC || op == CALL;
    SmallNumbers(v);
  }

  lemma Row4(op: Op, v: Values)
    requires 12 <= Keywords.Number(op) < 15 && AreValues(v)
    ensures Keywords.Number(op) < |TABLE| && RowHolds(op, TABLE[Keywords.Number(op)], v)
  {
    hide ToI32, ToI8;
    assert op == GETAC || op == INC || op == DEC;
    SmallNumbers(v);
  }

  lemma Row5(op: Op, v: Values)
    requires 15 <= Keywords.Number(op) < 18 && AreValues(v)
    ensures Keywords.Number(op) < |TABLE| && RowHolds(op, TABLE[Keywords.Number(op)], v)
  {
    hide ToI32, ToI8;
    assert op == ADD || op == SUB || op == DIV;
    SmallNumbers(v);
  }

  lemma Row6(op: Op, v: Values)
    requires 18 <= Keywords.Number(op) < 21 && AreValues(v)
    ensures Keywords.Number(op) < |TABLE| && RowHolds(op, TABLE[Keywords.Number(op)], v)
  {
    hide ToI32, ToI8;
    assert op == MUL || op == FADD || op == FSUB;
    SmallNumbers(v);
  }

  lemma Row7(op: Op, v: Values)
    requires 21 <= Keywords.Number(op) < 24 && AreValues(v)
    ensures Keywords.Number(op) < |TABLE| && RowHolds(op, TABLE[Keywords.Number(op)], v)
  {
    hide ToI32, ToI8;
    assert op == FDIV || op == FMUL || op == AND;
    SmallNumbers(v);
  }

  lemma Row8(op: Op, v: Values)
    requires 24 <= Keywords.Number(op) < 27 && AreValues(v)
    ensures Keywords.Number(op) < |TABLE| && RowHolds(op, TABLE[Keywords.Number(op)], v)
  {
    hide ToI32, ToI8;
    assert op == OR || op == CU2I || op == CI2U;
    SmallNumbers(v);
  }

  lemma Row9(op: Op, v: Values)
    requires 27 <= Keywords.Number(op) < 30 && AreValues(v)
    ensures Keywords.Number(op) < |TABLE| && RowHolds(op, TABLE[Keywords.Number(op)], v)
  {
    hide ToI32, ToI8;
    assert op == CF2I || op == CI2F || op == CU2F;
    SmallNumbers(v);
  }

  lemma Row10(op: Op, v: Values)
    requires 30 <= Keywords.Number(op) < 33 && AreValues(v)
    ensures Keywords.Number(op) < |TABLE| && RowHolds(op, TABLE[Keywords.Number(op)], v)
  {
    hide ToI32, ToI8;
    assert op == CF2U || op == CMPE || op == CMPEG;
    SmallNumbers(v);
  }

  lemma Row11(op: Op, v: Values)
    requires 33 <= Keywords.Number(op) < 36 && AreValues(v)
    ensures Keywords.Number(op) < |TABLE| && RowHolds(op, TABLE[Keywords.Number(op)], v)
  {
    hide ToI32, ToI8;
    assert op == CMPEL || op == CMPG || op == CMPL;
    SmallNumbers(v);
  }

  lemma Row12(op: Op, v: Values)
    requires 36 <= Keywords.Number(op) < 39 && AreValues(v)
    ensures Keywords.Number(op) < |TABLE| && RowHolds(op, TABLE[Keywords.Number(op)], v)
  {
    hide ToI32, ToI8;
    assert op == FCMPE || op == FCMPEG || op == FCMPEL;
    SmallNumbers(v);
  }

  lemma Row13(op: Op, v: Values)
    requires 39 <= Keywords.Number(op) < 42 && AreValues(v)
    ensures Keywords.Number(op) < |TABLE| && RowHolds(op, TABLE[Keywords.Number(op)], v)
  {
    hide ToI32, ToI8;
    assert op == FCMPG || op == FCMPL || op == JMP;
    SmallNumbers(v);
  }

  lemma Row14(op: Op, v: Values)
    requires 42 <= Keywords.Number(op) < 45 && AreValues(v)
    ensures Keywords.Number(op) < |TABLE| && RowHolds(op, TABLE[Keywords.Number(op)], v)
  {
    hide ToI32, ToI8;
    assert op == EJMP || op == NEJMP || op == RJMP;
    SmallNumbers(v);
  }

  lemma Row15(op: Op, v: Values)
    requires 45 <= Keywords.Number(op) < 48 && AreValues(v)
    ensures Keywords.Number(op) < |TABLE| && RowHolds(op, TABLE[Keywords.Number(op)], v)
  {
    hide ToI32, ToI8;
    assert op == ERJMP || op == NERJMP || op == PRINT;
    SmallNumbers(v);
  }

  lemma Row16(op: Op, v: Values)
    requires 48 <= Keywords.Number(op) < 51 && AreValues(v)
    ensures Keywords.Number(op) < |TABLE| && RowHolds(op, TABLE[Keywords.Number(op)], v)
  {
    hide ToI32, ToI8;
    assert op == REG_DUMP || op == RET || op == NOP;
    SmallNumbers(v);
  }

  lemma RowOf(op: Op, v: Values)
    requires AreValues(v)
    ensures Keywords.Number(op) < |TABLE| && RowHolds(op, TABLE[Keywords.Number(op)], v)
  {
    hide TABLE, RowHolds, Keywords.Number;
    var n := Keywords.Number(op);
    if n < 3 {
      Row0(op, v);
    } else if n < 6 {
      Row1(op, v);
    } else if n < 9 {
      Row2(op, v);
    } else if n < 12 {
      Row3(op, v);
    } else if n < 15 {
      Row4(op, v);
    } else if n < 18 {
      Row5(op, v);
    } else if n < 21 {
      Row6(op, v);
    } else if n < 24 {
      Row7(op, v);
    } else if n < 27 {
      Row8(op, v);
    } else if n < 30 {
      Row9(op, v);
    } else if n < 33 {
      Row10(op, v);
    } else if n < 36 {
      Row11(op, v);
    } else if n < 39 {
      Row12(op, v);
    } else if n < 42 {
      Row13(op, v);
    } else if n < 45 {
      Row14(op, v);
    } else if n < 48 {
      Row15(op, v);
    } else {
      Row16(op, v);
    }
  }

  lemma AllRows()
    ensures |TABLE| == KEYWORDS_COUNT
  {
  }

  /** The words of the table are those of the keyword list. */
  lemma RowAt(n: nat, v: Values)
    requires n < |TABLE| && AreValues(v)
    ensures n < KEYWORDS_COUNT && RowHolds(OpAt(n), TABLE[n], v) && TABLE[n].word == Name(OpAt(n))
  {
    hide TABLE, OpAt, Keywords.Number, OperandCount, Build, Name;
    AllRows();
    NumberOfOp(n);
    RowOf(OpAt(n), v);
  }

  // ----- lines -----

  /** The words of a line of the table. */
  function LineOf(m: Mnemonic, v: Values): (l: Line)
    ensures l != []
  {
    var ra, rb, rc, n := RegisterWord(v.a), RegisterWord(v.b), RegisterWord(v.c), ValueWord(v.n);
    match m.shape
    case Bare => [Word(m.word)]
    case R => [Word(m.word), ra]
    case RR => [Word(m.word), ra, rb]
    case RRR => [Word(m.word), ra, rb, rc]
    case RN => [Word(m.word), ra, n]
    case N => [Word(m.word), n]
    case NRR => [Word(m.word), n, ra, rb]
  }

  lemma {:induction false} TakeNumber(line: Line, t: nat, o: Operands, op: Op, labels: seq<Label>, n: nat)
    requires |o.regs| == 4 && 1 <= t < |line| <= 4 && IsValueWord(line[t], n)
    ensures TakeOperands(line, t, o, op, labels)
            == TakeOperands(line, t + 1, if IsFloatInstruction(op) then o.(fvalue := n) else o.(dvalue := n), op,
                            labels)
  {
    hide TakeOperands;
    ParseValue(line[t], n);
    TakeWord(line, t, o, op, labels, Value(n));
  }

  lemma OperandWordsRead(v: Values)
    requires AreValues(v)
    ensures IsRegisterWord(RegisterWord(v.a), v.a) && IsLexeme(RegisterWord(v.a)) && IsPlain(RegisterWord(v.a))
    ensures IsRegisterWord(RegisterWord(v.b), v.b) && IsLexeme(RegisterWord(v.b)) && IsPlain(RegisterWord(v.b))
    ensures IsRegisterWord(RegisterWord(v.c), v.c) && IsLexeme(RegisterWord(v.c)) && IsPlain(RegisterWord(v.c))
    ensures IsValueWord(ValueWord(v.n), v.n) && IsLexeme(ValueWord(v.n)) && IsPlain(ValueWord(v.n))
  {
    hide Digits, IsRegisterWord, IsValueWord, IsLexeme;
    RegisterWordReads(v.a);
    RegisterWordReads(v.b);
    RegisterWordReads(v.c);
    ValueWordReads(v.n);
  }

  /** The operand loop over the words of a line of the table. */
  lemma {:induction false} TakesOperands(m: Mnemonic, v: Values, op: Op, labels: seq<Label>)
    requires AreValues(v) && (m.shape in {N, NRR} ==> !IsFloatInstruction(op))
    ensures |LineOf(m, v)| == Arity(m.shape) + 1
    ensures TakeOperands(LineOf(m, v), 1, NO_OPERANDS, op, labels)
            == Emitted(Taken(m.shape, IsFloatInstruction(op), v))
  {
    hide TakeOperands, IsRegisterWord, IsValueWord, IsFloatInstruction, RegisterWord, ValueWord, IsLexeme, IsPlain;
    OperandWordsRead(v);
    var line, o, isFloat := LineOf(m, v), NO_OPERANDS, IsFloatInstruction(op);
    var a, ab := [v.a, 0, 0, 0], [v.a, v.b, 0, 0];
    assert o.regs[0 := v.a] == a && a[1 := v.b] == ab && ab[2 := v.c] == [v.a, v.b, v.c, 0];
    assert o.regs[1 := v.a] == [0, v.a, 0, 0] && [0, v.a, 0, 0][2 := v.b] == [0, v.a, v.b, 0];
    TakeNone(line, Taken(m.shape, isFloat, v), op, labels);
    match m.shape
    case Bare =>
    case R => TakeRegister(line, 1, o, op, labels, v.a);
    case RR =>
      TakeRegister(line, 1, o, op, labels, v.a);
      TakeRegister(line, 2, o.(regs := a), op, labels, v.b);
    case RRR =>
      TakeRegister(line, 1, o, op, labels, v.a);
      TakeRegister(line, 2, o.(regs := a), op, labels, v.b);
      TakeRegister(line, 3, o.(regs := ab), op, labels, v.c);
    case RN =>
      TakeRegister(line, 1, o, op, labels, v.a);
      TakeNumber(line, 2, o.(regs := a), op, labels, v.n);
    case N => TakeNumber(line, 1, o, op, labels, v.n);
    case NRR =>
      TakeNumber(line, 1, o, op, labels, v.n);
      TakeRegister(line, 2, o.(dvalue := v.n), op, labels, v.a);
      TakeRegister(line, 3, o.(regs := [0, v.a, 0, 0], dvalue := v.n), op, labels, v.b);
  }

  /** Every line of the table assembles to its instruction, whatever labels there are. */
  lemma TableLineAssembles(n: nat, v: Values, labels: seq<Label>)
    requires n < |TABLE| && AreValues(v)
    ensures AssembleLine(LineOf(TABLE[n], v), labels) == Emitted(Made(TABLE[n], v))
  {
    hide TABLE, OpAt, Name, Build, OperandCount, TakeOperands, AssembleLine, Taken, IsFloatInstruction;
    RowAt(n, v);
    var m, op, line := TABLE[n], OpAt(n), LineOf(TABLE[n], v);
    TakesOperands(m, v, op, labels);
    ArityAtMostThree(m.shape);
    AssembleByOperands(line, labels, op);
  }

  lemma ArityAtMostThree(s: Shape)
    ensures Arity(s) <= 3
  {
  }

  /** With any other number of words, fewer or more, all operands are zero. */
  lemma WrongCountZeroes(n: nat, line: Line, labels: seq<Label>)
    requires n < |TABLE| && line != [] && line[0] == Word(TABLE[n].word)
    requires |line| != Arity(TABLE[n].shape) + 1
    ensures AssembleLine(line, labels) == Emitted(Instruction(TABLE[n].made, 0, 0, 0, 0))
  {
    hide TABLE, OpAt, Name, Build, OperandCount, TakeOperands, Taken, IsFloatInstruction;
    RowAt(n, Values(0, 0, 0, 0));
    KeywordOfName(OpAt(n));
  }

  /** A line that starts with no word of the table aborts. */
  lemma OtherWordAborts(line: Line, labels: seq<Label>)
    requires line != [] && !line[0].Symbol? && line[0].text !in KEYWORDS
    ensures AssembleLine(line, labels) == Aborted(NotAnInstruction)
  {
    hide Name, KEYWORDS, Build, OperandCount, TakeOperands;
    if KeywordOp(line[0].text).Some? {
      var op :| Name(op) == line[0].text;
      TableLists(op);
      RowKeyword(Keywords.Number(op), op);
    }
  }

  /** A line that starts with a sign aborts, and so does one with a sign for its first operand. */
  lemma SignAborts(n: nat, line: Line, labels: seq<Label>)
    requires line != []
    requires line[0].Symbol? || (n < |TABLE| && line[0] == Word(TABLE[n].word)
                                 && |line| == Arity(TABLE[n].shape) + 1 >= 2 && line[1].Symbol?)
    ensures AssembleLine(line, labels) == Aborted(MissingLiteral)
  {
    hide TABLE, OpAt, Name, Build, OperandCount, Taken, IsFloatInstruction;
    if !line[0].Symbol? {
      RowAt(n, Values(0, 0, 0, 0));
      KeywordOfName(OpAt(n));
      ArityAtMostThree(TABLE[n].shape);
    }
  }

  /** A jump or call to a label that is not declared aborts, to a declared one takes its first address. */
  lemma ReferenceLaw(n: nat, name: string, labels: seq<Label>)
    requires n < |TABLE| && TABLE[n].shape == N && name != ""
    requires forall k | 0 <= k < |labels| && labels[k].name == name :: labels[k].address <= 0x7FFF_FFFF
    ensures var r := AssembleLine([Word(TABLE[n].word), Word("L" + name)], labels);
            if forall k | 0 <= k < |labels| :: labels[k].name != name then r == Aborted(LabelNotFound)
            else exists k | 0 <= k < |labels| ::
                   && labels[k].name == name && (forall j | 0 <= j < k :: labels[j].name != name)
                   && r == Emitted(Instruction(TABLE[n].made, 0, 0, 0, labels[k].address))
  {
    hide TABLE, OpAt, Name, Build, OperandCount, TakeOperands, Taken, IsFloatInstruction, AssembleLine, Lookup,
         ParseReg;
    RowAt(n, Values(0, 0, 0, 0));
    var line, op := [Word(TABLE[n].word), Word("L" + name)], OpAt(n);
    AssembleByOperands(line, labels, op);
    ParseReference(name);
    TakeWord(line, 1, NO_OPERANDS, op, labels, Reference(name));
    LookupFindsEarliest(labels, name);
    match Lookup(labels, name)
    case None =>
    case Some(a) =>
      var k :| 0 <= k < |labels| && labels[k] == Label(name, a) && forall j | 0 <= j < k :: labels[j].name != name;
      TakeNone(line, NO_OPERANDS.(dvalue := a), op, labels);
      RowAt(n, Values(0, 0, 0, a));
      BuildTarget(op, TABLE[n], a);
  }

  lemma BuildTarget(op: Op, m: Mnemonic, a: nat)
    requires a <= 0x7FFF_FFFF && m.shape == N && RowHolds(op, m, Values(0, 0, 0, a))
    ensures Build(op, [0, 0, 0, 0], 0, a) == Instruction(m.made, 0, 0, 0, a)
  {
    hide Build, IsFloatInstruction, Name, OperandCount;
  }

  /** The loads and saves would take their second slot from the number of the line, and the literal form of
      rjmp its first; no line hands them one. */
  lemma LoadMacros(op: Op, a: seq<i8>, fvalue: nat, dvalue: nat)
    requires |a| == 4 && op in {DLOAD, FLOAD, DSAVE, FSAVE, RJMP}
    ensures var i, byte := Build(op, a, fvalue, dvalue), ByteOf(dvalue);
            if op == RJMP then i == Instruction(JMP, byte, 0, 0, 0) else i == Instruction(op, a[0], byte, 0, 0)
  {
  }

  const FLOAT_WORDS: seq<string> := ["fadd ", "fsub", "fmul", "fdiv", "fset", "fload", "fsave"]

  /** The keywords whose numbers are taken for floats. */
  lemma FloatKeywords(op: Op)
    ensures IsFloatInstruction(op) <==> Name(op) in FLOAT_WORDS
  {
    hide Name;
    FloatNames();
    if Name(op) in FLOAT_WORDS {
      var k :| 0 <= k < |FLOAT_WORDS| && FLOAT_WORDS[k] == Name(op);
      NamesDiffer(op, FLOAT_OPS[k]);
    }
  }

  const FLOAT_OPS: seq<Op> := [FADD, FSUB, FMUL, FDIV, FSET, FLOAD, FSAVE]

  lemma FloatNames()
    ensures |FLOAT_OPS| == |FLOAT_WORDS|
    ensures forall k | 0 <= k < |FLOAT_OPS| ::
              Name(FLOAT_OPS[k]) == FLOAT_WORDS[k] && IsFloatInstruction(FLOAT_OPS[k])
    ensures forall op | IsFloatInstruction(op) :: Name(op) in FLOAT_WORDS
  {
    assert FLOAT_WORDS[0] == "fadd " && FLOAT_WORDS[1] == "fsub" && FLOAT_WORDS[2] == "fmul";
    assert FLOAT_WORDS[3] == "fdiv";
    assert FLOAT_WORDS[4] == "fset" && FLOAT_WORDS[5] == "fload" && FLOAT_WORDS[6] == "fsave";
  }

  /** Every instruction of the integer fragment is canonical. */
  lemma FragmentIsCanonical(v: Values, op: Op)
    requires AreValues(v)
    ensures op in {HALT, REC, PRINT} ==> IsCanonical(Instruction(op, 0, 0, 0, 0))
    ensures op in {INC, DEC, PUSH, POP, RET, REG_DUMP} ==> IsCanonical(Instruction(op, v.a, 0, 0, 0))
    ensures op in {CU2I, CI2U} ==> IsCanonical(Instruction(op, v.a, v.b, 0, 0))
    ensures op in {ADD, SUB, MUL, DIV, AND, OR, CMPE, CMPEG, CMPEL, CMPG, CMPL} ==>
              IsCanonical(Instruction(op, v.a, v.b, v.c, 0))
    ensures op == SET ==> IsCanonical(Instruction(op, v.a, 0, 0, v.n))
    ensures op in {JMP, CALL} ==> IsCanonical(Instruction(op, 0, 0, 0, v.n))
    ensures op in {EJMP, NEJMP} ==> IsCanonical(Instruction(op, v.a, v.b, 0, v.n))
  {
  }

  /** The storage of an instruction is the number as a signed word. */
  lemma StorageLaw(n: nat)
    ensures -0x8000_0000 <= ToI32(n) <= 0x7FFF_FFFF && (ToI32(n) - n) % 0x1_0000_0000 == 0
  {
  }

  // ----- text -----

  lemma WordsFit(words: seq<Token>)
    requires AreWords(words)
    ensures Fits(PlainParts(words)) && TokensOf(PlainParts(words)) == words
  {
    hide IsLexeme;
    forall t | IsPlain(t) && IsLexeme(t) ensures Text(t) != "" { PlainText(t); }
  }

  lemma TextOfWords(words: seq<Token>)
    requires words != []
    ensures TextOf(PlainParts(words))
            == Text(words[0]) + if |words| == 1 then "" else " " + TextOf(PlainParts(words[1..]))
  {
    hide Text;
    var ps := PlainParts(words);
    assert ps[1..] == PlainParts(words[1..]);
  }

  lemma PlainWordsHaveNoSigns(words: seq<Token>)
    requires AreWords(words)
    ensures END !in words && HASH !in words && COLON !in words
  {
    hide IsLexeme;
    forall t | t in words ensures t != END && t != HASH && t != COLON { assert IsPlain(t); }
  }

  lemma EndOfText()
    ensures Lex("") == [] && LinesOf(Lex("")) == [] && EndsToken("")
  {
  }

  /** What the assembler makes of one line of plain words and its line end. */
  lemma {:induction false} OneLineAssembles(words: seq<Token>)
    requires AreWords(words) && words != []
    ensures var labels := IndexFrom(START_INDEX, Lex(TextOf(PlainParts(words)) + "\n")).labels;
            AssembleText(TextOf(PlainParts(words)) + "\n") == match AssembleLine(words, labels)
                                                              case Emitted(i) => Emitted([i])
                                                              case Aborted(e) => Aborted(e)
  {
    hide AssembleLine, Lex, IndexFrom, EmitFrom, LinesOf, PlainParts, TextOf, AreWords, TokensOf, Fits, EndsToken;
    var text := TextOf(PlainParts(words));
    WordsFit(words);
    EndOfText();
    LexParts(PlainParts(words), "");
    assert text + "" == text && words + [] == words;
    PlainWordsHaveNoSigns(words);
    StripWords(words);
    TextByLines(text, '\n', "");
    assert text + (['\n'] + "") == text + "\n";
    var ts := Lex(text + "\n");
    assert LinesOf(ts) == [words];
    PassesSeeLines(ts, IndexFrom(START_INDEX, ts).labels);
    EmitOne(words, IndexFrom(START_INDEX, ts).labels);
  }

  lemma StripWords(words: seq<Token>)
    requires HASH !in words
    ensures Strip(words, false) == words
  {
    hide Strip;
    StripBehind(words, []);
    assert words + [] == words && Strip([], false) == [] by { StripEmpty(); }
  }

  lemma StripEmpty()
    ensures Strip([], false) == []
  {
  }

  lemma {:induction false} EmitOne(l: Line, labels: seq<Label>)
    requires l != [] && COLON !in l
    ensures ProgramOf(EmitLines(START_EMISSION, [l], labels)) == match AssembleLine(l, labels)
                                                                 case Emitted(i) => Emitted([i])
                                                                 case Aborted(e) => Aborted(e)
  {
    hide AssembleLine;
    assert START_EMISSION.line + l == l && [l][1..] == [];
    match AssembleLine(l, labels)
    case Emitted(i) => assert START_EMISSION.program + [i] == [i];
    case Aborted(e) =>
  }

  /** The words of the table are words to the lexer, but for "fadd " with its space. */
  lemma TableWordIsLexeme(n: nat)
    requires n < |TABLE| && TABLE[n].word != "fadd "
    ensures IsLexeme(Word(TABLE[n].word))
  {
    hide IsLexeme, TABLE, Name, OpAt, RowHolds;
    RowAt(n, Values(0, 0, 0, 0));
    NameIsWord(OpAt(n));
  }

  lemma NameIsWord(op: Op)
    requires Name(op) != "fadd "
    ensures IsLexeme(Word(Name(op)))
  {
    hide Name, IsLexeme, Keywords.Number;
    var n := Keywords.Number(op);
    if n < 13 {
      NameIsWord0(op);
    } else if n < 26 {
      NameIsWord1(op);
    } else if n < 39 {
      NameIsWord2(op);
    } else {
      NameIsWord3(op);
    }
  }

  lemma NameIsWord0(op: Op)
    requires 0 <= Keywords.Number(op) < 13 && Name(op) != "fadd "
    ensures IsLexeme(Word(Name(op)))
  {
  }

  lemma NameIsWord1(op: Op)
    requires 13 <= Keywords.Number(op) < 26 && Name(op) != "fadd "
    ensures IsLexeme(Word(Name(op)))
  {
  }

  lemma NameIsWord2(op: Op)
    requires 26 <= Keywords.Number(op) < 39 && Name(op) != "fadd "
    ensures IsLexeme(Word(Name(op)))
  {
  }

  lemma NameIsWord3(op: Op)
    requires 39 <= Keywords.Number(op) < 51 && Name(op) != "fadd "
    ensures IsLexeme(Word(Name(op)))
  {
  }

  lemma LineOfIsWords(m: Mnemonic, v: Values)
    requires AreValues(v) && IsLexeme(Word(m.word))
    ensures AreWords(LineOf(m, v))
  {
    hide IsLexeme, Digits, IsRegisterWord, IsValueWord;
    OperandWordsRead(v);
  }

  lemma TextOfOne(a: Token)
    ensures TextOf(PlainParts([a])) == Text(a)
  {
    hide PlainParts, TextOf, Text;
    TextOfWords([a]);
    assert Text(a) + "" == Text(a);
  }

  lemma TextOfTwo(a: Token, b: Token)
    ensures TextOf(PlainParts([a, b])) == Text(a) + " " + Text(b)
  {
    hide PlainParts, TextOf, Text;
    TextOfWords([a, b]);
    TextOfOne(b);
    assert [a, b][1..] == [b];
    assert Text(a) + (" " + Text(b)) == Text(a) + " " + Text(b);
  }

  lemma TextOfThree(a: Token, b: Token, c: Token)
    ensures TextOf(PlainParts([a, b, c])) == Text(a) + " " + Text(b) + " " + Text(c)
  {
    hide PlainParts, TextOf, Text;
    TextOfWords([a, b, c]);
    TextOfTwo(b, c);
    assert [a, b, c][1..] == [b, c];
    assert Text(a) + (" " + (Text(b) + " " + Text(c))) == Text(a) + " " + Text(b) + " " + Text(c);
  }

  lemma TextOfFour(a: Token, b: Token, c: Token, d: Token)
    ensures TextOf(PlainParts([a, b, c, d])) == Text(a) + " " + Text(b) + " " + Text(c) + " " + Text(d)
  {
    hide PlainParts, TextOf, Text;
    TextOfWords([a, b, c, d]);
    TextOfThree(b, c, d);
    assert [a, b, c, d][1..] == [b, c, d];
    assert Text(a) + (" " + (Text(b) + " " + Text(c) + " " + Text(d)))
        == Text(a) + " " + Text(b) + " " + Text(c) + " " + Text(d);
  }

  lemma LineTextIsPlain(m: Mnemonic, v: Values)
    ensures TextOf(PlainParts(LineOf(m, v))) == LineText(m, v)
  {
    hide PlainParts, TextOf, Digits;
    var w, ra, rb, rc, n := Word(m.word), RegisterWord(v.a), RegisterWord(v.b), RegisterWord(v.c), ValueWord(v.n);
    match m.shape
    case Bare => TextOfOne(w);
    case R => TextOfTwo(w, ra);
    case RR => TextOfThree(w, ra, rb);
    case RRR => TextOfFour(w, ra, rb, rc);
    case RN => TextOfThree(w, ra, n);
    case N => TextOfTwo(w, n);
    case NRR => TextOfFour(w, n, ra, rb);
  }

  /** Every row of the table but "fadd ", written with any registers and numbers and assembled as a text of
      its own, is the one instruction the row says. */
  lemma TableTextAssembles(n: nat, v: Values)
    requires n < |TABLE| && AreValues(v) && TABLE[n].word != "fadd "
    ensures AssembleText(LineText(TABLE[n], v) + "\n") == Emitted([Made(TABLE[n], v)])
  {
    hide TABLE, AssembleText, AssembleLine, LineOf, LineText, PlainParts, TextOf, IsLexeme, AreWords, IndexFrom, Lex;
    var m := TABLE[n];
    TableWordIsLexeme(n);
    LineOfIsWords(m, v);
    LineTextIsPlain(m, v);
    OneLineAssembles(LineOf(m, v));
    TableLineAssembles(n, v, IndexFrom(START_INDEX, Lex(LineText(m, v) + "\n")).labels);
  }

  /** With another number of words behind the keyword the text assembles to the opcode without operands. */
  lemma WrongCountText(n: nat, operands: seq<Token>)
    requires n < |TABLE| && TABLE[n].word != "fadd " && AreWords(operands) && |operands| != Arity(TABLE[n].shape)
    ensures AssembleText(TextOf(PlainParts([Word(TABLE[n].word)] + operands)) + "\n")
            == Emitted([Instruction(TABLE[n].made, 0, 0, 0, 0)])
  {
    hide TABLE, AssembleText, AssembleLine, PlainParts, TextOf, IsLexeme, IndexFrom, Lex;
    var line := [Word(TABLE[n].word)] + operands;
    TableWordIsLexeme(n);
    assert AreWords(line);
    OneLineAssembles(line);
    WrongCountZeroes(n, line, IndexFrom(START_INDEX, Lex(TextOf(PlainParts(line)) + "\n")).labels);
  }

  /** A text that starts with another word aborts the assembler, "fadd" without its space among them. */
  lemma OtherWordText(words: seq<Token>)
    requires AreWords(words) && words != [] && words[0].text !in KEYWORDS
    ensures AssembleText(TextOf(PlainParts(words)) + "\n") == Aborted(NotAnInstruction)
  {
    hide AssembleText, AssembleLine, PlainParts, TextOf, IsLexeme, IndexFrom, Lex, KEYWORDS;
    OneLineAssembles(words);
    OtherWordAborts(words, IndexFrom(START_INDEX, Lex(TextOf(PlainParts(words)) + "\n")).labels);
  }

  lemma FaddIsNoKeyword()
    ensures "fadd" !in KEYWORDS
  {
    hide Name, KEYWORDS, OpAt, OpOfFingerprint;
    if "fadd" in KEYWORDS {
      AllKeywords();
      var n :| 0 <= n < |KEYWORDS| && KEYWORDS[n] == "fadd";
      KeywordAt(n);
      NotFadd(OpAt(n));
    }
  }

  lemma NotFadd(op: Op)
    ensures Name(op) != "fadd"
  {
    hide Name, OpOfFingerprint;
    TableLists(op);
    LikelyName();
  }

  lemma LikelyName()
    ensures var likely := OpOfFingerprint(Fingerprint("fadd")); Name(likely) != "fadd"
  {
  }
}
