/** One line of assembly: operands, labels and the instruction built from them
    (parse_reg, find_label, assemble and assemble_line of src/assembler/basic_assembler.c). */
module Assembler {
  import opened Words
  import opened Semantics
  import opened Keywords
  import opened Tokenizer

  datatype Label = Label(name: string, address: nat)

  /** The assembler's own asserts, and numbers an int cannot hold. */
  datatype AsmError = MissingLiteral | NotAnInstruction | EmptyLabel | LabelNotFound | NumberTooBig

  datatype Assembled<+T> = Emitted(value: T) | Aborted(error: AsmError)

  const INT_MAX: int := 0x7FFF_FFFF

  function ToI32(x: int): i32 { (x + 0x8000_0000) % TWO_32 - 0x8000_0000 }

  // ----- numbers -----

  function DigitValue(c: char): int { c as int - '0' as int }

  /** The value of the digits a text starts with, continuing from `n`. */
  function DigitsValue(s: string, n: nat): nat
    decreases |s|
  {
    if s == "" || !IsNumber(s[0]) then n else DigitsValue(s[1..], 10 * n + DigitValue(s[0]))
  }

  predicate IsBlank(c: char) { c == ' ' || '\t' <= c <= '\r' }

  /** What atoi reads: blanks, a sign and digits, each as far as present. */
  function Atoi(s: string): int
    decreases |s|
  {
    if s == "" then 0
    else if IsBlank(s[0]) then Atoi(s[1..])
    else if s[0] == '-' then 0 - DigitsValue(s[1..], 0)
    else if s[0] == '+' then DigitsValue(s[1..], 0)
    else DigitsValue(s, 0)
  }

  predicate IsInt(x: int) { -0x8000_0000 <= x <= INT_MAX }

  predicate IsDigits(s: string) { forall i | 0 <= i < |s| :: IsNumber(s[i]) }

  /** Without a sign there is only the value of the digits. */
  lemma AtoiOfDigits(s: string)
    requires IsDigits(s)
    ensures Atoi(s) == DigitsValue(s, 0)
  {
  }

  /** is_decimal lets a minus sign stand anywhere. */
  predicate IsDecimal(s: string) { forall i | 0 <= i < |s| :: IsNumber(s[i]) || s[i] == '-' }

  method IsDecimalText(s: string) returns (decimal: bool)
    ensures decimal == IsDecimal(s)
  {
    for i := 0 to |s|
      invariant forall j | 0 <= j < i :: IsNumber(s[j]) || s[j] == '-'
    {
      if !IsNumber(s[i]) && s[i] != '-' { return false; }
    }
    return true;
  }

  /** atoi, before the conversion to an unsigned number. */
  method DecimalValue(s: string) returns (value: int)
    ensures value == Atoi(s)
  {
    var i := 0;
    while i < |s| && IsBlank(s[i])
      invariant 0 <= i <= |s| && Atoi(s[i..]) == Atoi(s)
    {
      assert s[i..][1..] == s[i + 1..];
      i := i + 1;
    }
    var negative := i < |s| && s[i] == '-';
    ghost var rest := s[i..];
    if i < |s| && (s[i] == '-' || s[i] == '+') {
      assert s[i..][1..] == s[i + 1..];
      i := i + 1;
    }
    ghost var digits := s[i..];
    assert Atoi(s) == if negative then 0 - DigitsValue(digits, 0) else DigitsValue(digits, 0);
    var n: nat := 0;
    while i < |s| && IsNumber(s[i])
      invariant 0 <= i <= |s| && DigitsValue(s[i..], n) == DigitsValue(digits, 0)
    {
      assert s[i..][1..] == s[i + 1..];
      n := 10 * n + DigitValue(s[i]);
      i := i + 1;
    }
    value := if negative then 0 - n else n;
  }

  // ----- parse_reg -----

  /** What a word of a line denotes: a register, a literal value, or a reference to a label. */
  datatype Operand = Register(reg: i8) | Value(number: u32) | Reference(name: string)

  /** `r` and a number name a register and `L` and a name refer to a label; a decimal is a value, and
      so is any other word, with value 0. The bare word `fr` counts as register 0. */
  function ParseReg(s: string): Assembled<Operand>
  {
    if s == "fr" then Emitted(Register(0))
    else if s != "" && s[0] == 'r' then
      if IsInt(Atoi(s[1..])) then Emitted(Register(ToI8(Atoi(s[1..])))) else Aborted(NumberTooBig)
    else if s != "" && s[0] == 'L' then
      if |s| == 1 then Aborted(EmptyLabel) else Emitted(Reference(s[1..]))
    else if IsDecimal(s) then
      if IsInt(Atoi(s)) then Emitted(Value(Wrap32(Atoi(s)))) else Aborted(NumberTooBig)
    else Emitted(Value(0))
  }

  method ParseRegText(s: string) returns (r: Assembled<Operand>)
    ensures r == ParseReg(s)
  {
    if s == "fr" { return Emitted(Register(0)); }
    if s != "" && s[0] == 'r' {
      var value := DecimalValue(s[1..]);
      return if IsInt(value) then Emitted(Register(ToI8(value))) else Aborted(NumberTooBig);
    }
    if s != "" && s[0] == 'L' {
      return if |s| == 1 then Aborted(EmptyLabel) else Emitted(Reference(s[1..]));
    }
    var decimal := IsDecimalText(s);
    if decimal {
      var value := DecimalValue(s);
      return if IsInt(value) then Emitted(Value(Wrap32(value))) else Aborted(NumberTooBig);
    }
    return Emitted(Value(0));
  }

  // ----- find_label -----

  /** The address of the first label of that name. */
  function Lookup(labels: seq<Label>, name: string): Option<nat>
    decreases |labels|
  {
    if labels == [] then None
    else if labels[0].name == name then Some(labels[0].address)
    else Lookup(labels[1..], name)
  }

  method FindLabel(labels: seq<Label>, name: string) returns (address: Option<nat>)
    ensures address == Lookup(labels, name)
  {
    for i := 0 to |labels|
      invariant Lookup(labels[i..], name) == Lookup(labels, name)
    {
      if labels[i].name == name { return Some(labels[i].address); }
      assert labels[i..][1..] == labels[i + 1..];
    }
    return None;
  }

  /** find_label gives the earliest label of the name, and nothing only when there is none. */
  lemma {:induction false} LookupFindsEarliest(labels: seq<Label>, name: string)
    ensures match Lookup(labels, name)
            case Some(a) => exists i | 0 <= i < |labels| ::
                              labels[i] == Label(name, a) && forall j | 0 <= j < i :: labels[j].name != name
            case None => forall i | 0 <= i < |labels| :: labels[i].name != name
    decreases |labels|
  {
    if labels != [] && labels[0].name != name {
      LookupFindsEarliest(labels[1..], name);
      match Lookup(labels, name)
      case Some(a) =>
        var i :| 0 <= i < |labels[1..]| && labels[1..][i] == Label(name, a)
                 && forall j | 0 <= j < i :: labels[1..][j].name != name;
        assert labels[i + 1] == Label(name, a);
        forall j | 0 <= j < i + 1 ensures labels[j].name != name {
          if j > 0 { assert labels[1..][j - 1].name != name; }
        }
      case None =>
        forall i | 0 <= i < |labels| ensures labels[i].name != name {
          if i > 0 { assert labels[1..][i - 1].name != name; }
        }
    }
  }

  // ----- get_instuction_count, is_float_instr, assemble -----

  function OperandCount(op: Op): nat
  {
    match op
    case HALT => 0 case ENTRY => 0 case REC => 0
    case INC => 1 case DEC => 1 case REG_DUMP => 1 case JMP => 1 case RET => 1
    case POP => 1 case PUSH => 1 case CALL => 1 case GETAC => 1
    case SET => 2 case FSET => 2
    case CU2I => 2 case CI2U => 2 case CF2I => 2 case CI2F => 2 case CU2F => 2 case CF2U => 2
    case ADD => 3 case FADD => 3 case SUB => 3 case FSUB => 3 case MUL => 3 case FMUL => 3
    case DIV => 3 case FDIV => 3 case AND => 3 case OR => 3
    case EJMP => 3 case NEJMP => 3 case ERJMP => 3 case NERJMP => 3
    case CMPG => 3 case CMPL => 3 case CMPEG => 3 case CMPEL => 3 case CMPE => 3
    case FCMPG => 3 case FCMPL => 3 case FCMPEG => 3 case FCMPEL => 3 case FCMPE => 3
    case _ => 0
  }

  predicate IsFloatInstruction(op: Op)
  {
    op in {FADD, FSUB, FMUL, FDIV, FSET, FLOAD, FSAVE}
  }

  /** The instruction the macros of src/vm/set.h build. GETAC, RJMP, ERJMP and NERJMP carry other
      opcodes than their names, NOP falls through to HALT, and the storage of FSET is recorded
      as the whole number it is converted from. */
  function Build(op: Op, a: seq<i8>, fvalue: nat, dvalue: nat): Instruction
    requires |a| == 4
  {
    match op
    case SET => Instruction(SET, a[0], 0, 0, ToI32(dvalue))
    case FSET => Instruction(FSET, a[0], 0, 0, ToI32(fvalue))
    case PUSH => Instruction(PUSH, a[0], 0, 0, 0)
    case POP => Instruction(POP, a[0], 0, 0, 0)
    case REC => Instruction(REC, 0, 0, 0, 0)
    case CALL => Instruction(CALL, 0, 0, 0, ToI32(dvalue))
    case GETAC => Instruction(CALL, a[0], 0, 0, 0)
    case DLOAD => Instruction(DLOAD, a[0], ToI8(dvalue), 0, 0)
    case FLOAD => Instruction(FLOAD, a[0], ToI8(dvalue), 0, 0)
    case DSAVE => Instruction(DSAVE, a[0], ToI8(dvalue), 0, 0)
    case FSAVE => Instruction(FSAVE, a[0], ToI8(dvalue), 0, 0)
    case INC => Instruction(INC, a[0], 0, 0, 0)
    case DEC => Instruction(DEC, a[0], 0, 0, 0)
    case CU2I => Instruction(CU2I, a[0], a[1], 0, 0)
    case CI2U => Instruction(CI2U, a[0], a[1], 0, 0)
    case CF2I => Instruction(CF2I, a[0], a[1], 0, 0)
    case CI2F => Instruction(CI2F, a[0], a[1], 0, 0)
    case CU2F => Instruction(CU2F, a[0], a[1], 0, 0)
    case CF2U => Instruction(CF2U, a[0], a[1], 0, 0)
    case RJMP => Instruction(JMP, ToI8(dvalue), 0, 0, 0)
    case ERJMP => Instruction(EJMP, a[0], a[1], a[2], 0)
    case NERJMP => Instruction(NEJMP, a[0], a[1], a[2], 0)
    case JMP => Instruction(JMP, 0, 0, 0, ToI32(dvalue))
    case EJMP => Instruction(EJMP, a[1], a[2], 0, ToI32(dvalue))
    case NEJMP => Instruction(NEJMP, a[1], a[2], 0, ToI32(dvalue))
    case PRINT => Instruction(PRINT, 0, 0, 0, 0)
    case REG_DUMP => Instruction(REG_DUMP, a[0], 0, 0, 0)
    case HALT => Instruction(HALT, 0, 0, 0, 0)
    case ENTRY => Instruction(HALT, 0, 0, 0, 0)
    case RET => Instruction(RET, a[0], 0, 0, 0)
    case NOP => Instruction(HALT, 0, 0, 0, 0)
    case _ => Instruction(op, a[0], a[1], a[2], 0)
  }

  // ----- assemble_line -----

  /** The locals regs, fvalue and dvalue of assemble_line. */
  datatype Operands = Operands(regs: seq<i8>, fvalue: nat, dvalue: nat)

  const NO_OPERANDS := Operands([0, 0, 0, 0], 0, 0)

  /** The literal of a token; symbols have none. */
  function Literal(t: Token): Assembled<string>
  {
    match t
    case Word(text) => Emitted(text)
    case Number(text) => Emitted(text)
    case Symbol(_) => Aborted(MissingLiteral)
  }

  function TakeOperand(o: Operands, t: nat, operand: Operand, op: Op, labels: seq<Label>): Assembled<Operands>
    requires |o.regs| == 4 && 1 <= t <= 4
  {
    match operand
    case Register(n) => Emitted(o.(regs := o.regs[t - 1 := n]))
    case Value(n) => Emitted(if IsFloatInstruction(op) then o.(fvalue := n) else o.(dvalue := n))
    case Reference(name) =>
      match Lookup(labels, name)
      case Some(a) => Emitted(o.(dvalue := a))
      case None => Aborted(LabelNotFound)
  }

  /** The operand loop from word `t` on, for a line with the right number of words. */
  function TakeOperands(line: seq<Token>, t: nat, o: Operands, op: Op, labels: seq<Label>): Assembled<Operands>
    requires |o.regs| == 4 && 1 <= t <= |line| <= 5
    ensures var r := TakeOperands(line, t, o, op, labels); r.Emitted? ==> |r.value.regs| == 4
    decreases |line| - t
  {
    if t == |line| then Emitted(o)
    else
      match Literal(line[t])
      case Aborted(e) => Aborted(e)
      case Emitted(text) =>
        match ParseReg(text)
        case Aborted(e) => Aborted(e)
        case Emitted(operand) =>
          match TakeOperand(o, t, operand, op, labels)
          case Aborted(e) => Aborted(e)
          case Emitted(next) => TakeOperands(line, t + 1, next, op, labels)
  }

  /** A line whose first word is a keyword. With a wrong number of words the source complains and
      leaves all operands zero. */
  ghost function AssembleLine(line: seq<Token>, labels: seq<Label>): Assembled<Instruction>
    requires line != []
  {
    match Literal(line[0])
    case Aborted(e) => Aborted(e)
    case Emitted(word) =>
      match KeywordOp(word)
      case None => Aborted(NotAnInstruction)
      case Some(op) =>
        if |line| != OperandCount(op) + 1 then Emitted(Build(op, NO_OPERANDS.regs, 0, 0))
        else
          match TakeOperands(line, 1, NO_OPERANDS, op, labels)
          case Aborted(e) => Aborted(e)
          case Emitted(o) => Emitted(Build(op, o.regs, o.fvalue, o.dvalue))
  }

  lemma OperandCountAtMostThree(op: Op)
    ensures OperandCount(op) <= 3
  {
  }

  /** assemble_line as written: one loop over the words of the line. */
  method AssembleLineTokens(line: seq<Token>, labels: seq<Label>) returns (r: Assembled<Instruction>)
    requires line != []
    ensures r == AssembleLine(line, labels)
  {
    hide Build, OperandCount, ParseReg, KeywordOp, OpAt, Lookup, IsFloatInstruction;
    if line[0].Symbol? { return Aborted(MissingLiteral); }
    var index := IsKeyword(line[0].text);
    if index < 0 { return Aborted(NotAnInstruction); }
    var op := OpAt(index);
    var count := OperandCount(op);
    OperandCountAtMostThree(op);
    var o := NO_OPERANDS;
    for t := 1 to |line|
      invariant |o.regs| == 4
      invariant if |line| == count + 1
                then TakeOperands(line, t, o, op, labels) == TakeOperands(line, 1, NO_OPERANDS, op, labels)
                else o == NO_OPERANDS
    {
      if |line| == count + 1 {
        if line[t].Symbol? { return Aborted(MissingLiteral); }
        var operand := ParseRegText(line[t].text);
        if operand.Aborted? { return Aborted(operand.error); }
        match operand.value {
          case Register(n) => o := o.(regs := o.regs[t - 1 := n]);
          case Value(n) => o := if IsFloatInstruction(op) then o.(fvalue := n) else o.(dvalue := n);
          case Reference(name) =>
            var address := FindLabel(labels, name);
            if address.None? { return Aborted(LabelNotFound); }
            o := o.(dvalue := address.value);
        }
      }
    }
    return Emitted(Build(op, o.regs, o.fvalue, o.dvalue));
  }
}
