/** The SETVM machine of src/vm/set.c as a step function on values. The class in SetVm.dfy
    updates the same state in place and is proved to take exactly these steps. */
module Semantics {
  import opened Words

  /** The opcodes, in the order of the enum Inst. */
  datatype Op =
    | HALT | ENTRY | DLOAD | FLOAD | DSAVE | FSAVE | SET | FSET | PUSH | POP | REC | CALL | GETAC
    | INC | DEC | ADD | SUB | DIV | MUL | FADD | FSUB | FDIV | FMUL | AND | OR
    | CU2I | CI2U | CF2I | CI2F | CU2F | CF2U
    | CMPE | CMPEG | CMPEL | CMPG | CMPL | FCMPE | FCMPEG | FCMPEL | FCMPG | FCMPL
    | JMP | EJMP | NEJMP | RJMP | ERJMP | NERJMP | PRINT | REG_DUMP | RET | NOP

  /** r0, r1, r2 are the slots of argument_reg; imm is the storage read as a 32-bit integer. */
  datatype Instruction = Instruction(op: Op, r0: i8, r1: i8, r2: i8, imm: i32)

  type Program = seq<Instruction>

  datatype Frame = Frame(rip: nat, bfp: u32, lvp: u32)

  const EMPTY_FRAME := Frame(0, 0, 0)

  /** One write system call: the stream and the bytes handed over. */
  datatype Output = Output(stream: u32, bytes: seq<u8>)

  const REG_COUNT := 16

  type Registers = r: seq<u32> | |r| == REG_COUNT witness seq(REG_COUNT, _ => 0)

  /** Everything an instruction can touch besides the flow of control. */
  datatype Data = Data(regs: Registers, stack: seq<u8>, top: u64, accum: u32, output: seq<Output>)

  datatype State = State(pc: nat, data: Data, frames: nat, mem: seq<Frame>, running: bool)

  /** Where the C code leaves its own arrays, divides by zero or trips an assert. */
  datatype Error = BadRegister | StackBounds | FrameBounds | DivideByZero | EntryTrap | WriteFailed | FloatUnit

  datatype Option<+T> = None | Some(value: T)

  datatype Result<+T> = Success(value: T) | Failure(error: Error)

  // ----- data part of an instruction -----

  predicate IsReg(r: i8) { 0 <= r < REG_COUNT }

  /** Register `r` receives `v`, or the index is outside the register file. */
  function SetReg(d: Data, r: i8, v: u32): Result<Data>
  {
    if IsReg(r) then Success(d.(regs := d.regs[r := v])) else Failure(BadRegister)
  }

  function Bool(b: bool): u32 { if b then 1 else 0 }

  predicate IsBinary(op: Op)
  {
    op in {ADD, SUB, MUL, DIV, AND, OR, CMPE, CMPEG, CMPEL, CMPG, CMPL}
  }

  predicate IsFloat(op: Op)
  {
    op in {FLOAD, FSAVE, FSET, FADD, FSUB, FDIV, FMUL, CF2I, CI2F, CU2F, CF2U,
           FCMPE, FCMPEG, FCMPEL, FCMPG, FCMPL}
  }

  /** The value of a three-register instruction on unsigned 32-bit operands. */
  function Binary(op: Op, x: u32, y: u32): Result<u32>
    requires IsBinary(op)
  {
    match op
    case ADD => Success(Wrap32(x + y))
    case SUB => Success(Wrap32(x - y))
    case MUL => Success(Wrap32(x * y))
    case DIV => if y == 0 then Failure(DivideByZero) else Success(x / y)
    case AND => Success(Bool(x != 0 && y != 0))
    case OR => Success(Bool(x != 0 || y != 0))
    case CMPE => Success(Bool(x == y))
    case CMPEG => Success(Bool(x >= y))
    case CMPEL => Success(Bool(x <= y))
    case CMPG => Success(Bool(x > y))
    case CMPL => Success(Bool(x < y))
  }

  function LoadWord(stack: seq<u8>, address: nat): Result<u32>
  {
    if address + 4 <= |stack| then Success(Decode(stack[address..address + 4])) else Failure(StackBounds)
  }

  function SaveWord(stack: seq<u8>, address: nat, v: u32): Result<seq<u8>>
  {
    if address + 4 <= |stack|
    then Success(stack[..address] + Encode(v) + stack[address + 4..])
    else Failure(StackBounds)
  }

  /** The push moves the top first, so the word k of the stack lies at bytes 4k..4k+3 with k >= 1. */
  function Push(d: Data, v: u32): Result<Data>
  {
    var top := Wrap64(d.top + 4);
    match SaveWord(d.stack, top, v)
    case Failure(e) => Failure(e)
    case Success(stack) => Success(d.(stack := stack, top := top))
  }

  function Pop(d: Data, r: i8): Result<Data>
  {
    match LoadWord(d.stack, d.top)
    case Failure(e) => Failure(e)
    case Success(v) => SetReg(d.(top := Wrap64(d.top - 4)), r, v)
  }

  predicate InRange(stack: seq<u8>, from: nat, len: nat) { from + len <= |stack| }

  function Slice(stack: seq<u8>, from: nat, len: nat): (bytes: seq<u8>)
    requires InRange(stack, from, len)
    ensures |bytes| == len
  {
    stack[from..from + len]
  }

  /** write(r0, &STACK[r1], r2), assumed complete; the source asserts that it wrote something. */
  function Print(d: Data): Result<Data>
  {
    var stream, from, len := d.regs[0], d.regs[1], d.regs[2];
    if !InRange(d.stack, from, len) then Failure(StackBounds)
    else if len == 0 then Failure(WriteFailed)
    else Success(d.(output := d.output + [Output(stream, Slice(d.stack, from, len))]))
  }

  /** What an instruction does to registers, stack, accumulator and output. */
  function DataStep(i: Instruction, d: Data): Result<Data>
  {
    if IsBinary(i.op) then
      if IsReg(i.r1) && IsReg(i.r2) then
        match Binary(i.op, d.regs[i.r1], d.regs[i.r2])
        case Failure(e) => Failure(e)
        case Success(v) => SetReg(d, i.r0, v)
      else Failure(BadRegister)
    else if IsFloat(i.op) then Failure(FloatUnit)
    else
      match i.op
      case ENTRY => Failure(EntryTrap)
      case PUSH => if IsReg(i.r0) then Push(d, d.regs[i.r0]) else Failure(BadRegister)
      case POP => Pop(d, i.r0)
      case GETAC => SetReg(d, i.r0, d.accum)
      case INC => if IsReg(i.r0) then SetReg(d, i.r0, Plus(d.regs[i.r0], 1)) else Failure(BadRegister)
      case DEC => if IsReg(i.r0) then SetReg(d, i.r0, Plus(d.regs[i.r0], -1)) else Failure(BadRegister)
      case DLOAD =>
        if !IsReg(i.r1) then Failure(BadRegister) else
        (match LoadWord(d.stack, d.regs[i.r1])
         case Failure(e) => Failure(e)
         case Success(v) => SetReg(d, i.r0, v))
      case DSAVE =>
        if !IsReg(i.r0) || !IsReg(i.r1) then Failure(BadRegister) else
        (match SaveWord(d.stack, d.regs[i.r1], d.regs[i.r0])
         case Failure(e) => Failure(e)
         case Success(stack) => Success(d.(stack := stack)))
      case SET => SetReg(d, i.r0, Wrap32(i.imm))
      case CU2I => if IsReg(i.r1) then SetReg(d, i.r0, d.regs[i.r1]) else Failure(BadRegister)
      case CI2U => if IsReg(i.r1) then SetReg(d, i.r0, d.regs[i.r1]) else Failure(BadRegister)
      case PRINT => Print(d)
      case RET => if IsReg(i.r0) then Success(d.(accum := d.regs[i.r0])) else Failure(BadRegister)
      case _ => Success(d)
  }

  // ----- control part of an instruction -----

  datatype Flow = Next | Stop | Goto(target: nat) | Record | Enter(target: nat) | Leave

  function Branch(taken: bool, target: nat): Flow { if taken then Goto(target) else Next }

  /** Where control goes. A literal jump target is read as unsigned 32 bits, a call target is
      sign-extended to a 64-bit address. */
  function Control(i: Instruction, regs: Registers): Result<Flow>
  {
    match i.op
    case HALT => Success(Stop)
    case REC => Success(Record)
    case CALL => Success(Enter(Wrap64(i.imm)))
    case RET => Success(Leave)
    case JMP => Success(Goto(Wrap32(i.imm)))
    case EJMP =>
      if IsReg(i.r1) && IsReg(i.r2) then Success(Branch(regs[i.r1] == regs[i.r2], Wrap32(i.imm)))
      else Failure(BadRegister)
    case NEJMP =>
      if IsReg(i.r1) && IsReg(i.r2) then Success(Branch(regs[i.r1] != regs[i.r2], Wrap32(i.imm)))
      else Failure(BadRegister)
    case RJMP => if IsReg(i.r0) then Success(Goto(regs[i.r0])) else Failure(BadRegister)
    case ERJMP =>
      if !IsReg(i.r1) || !IsReg(i.r2) then Failure(BadRegister)
      else if regs[i.r1] != regs[i.r2] then Success(Next)
      else if IsReg(i.r0) then Success(Goto(regs[i.r0])) else Failure(BadRegister)
    case NERJMP =>
      if !IsReg(i.r1) || !IsReg(i.r2) then Failure(BadRegister)
      else if regs[i.r1] == regs[i.r2] then Success(Next)
      else if IsReg(i.r0) then Success(Goto(regs[i.r0])) else Failure(BadRegister)
    case _ => Success(Next)
  }

  /** RET resumes one before the stored instruction pointer, on an unsigned 64-bit counter. */
  function ResumeAt(rip: nat): nat { if rip == 0 then TWO_64 - 1 else rip - 1 }

  // ----- one step, and runs of the fetch loop -----

  datatype Outcome<+S> = Ok(state: S) | Stopped | Fault(error: Error)

  predicate Halted(p: Program, s: State) { s.pc >= |p| || !s.running }

  /** The next instruction has opcode `op`. */
  predicate Fetches(p: Program, s: State, op: Op) { s.pc < |p| && p[s.pc].op == op }

  /** The frame array part of a step that has reached flow `f`. */
  function Move(f: Flow, s: State, d: Data): Outcome<State>
  {
    match f
    case Next => Ok(s.(pc := s.pc + 1, data := d))
    case Stop => Ok(s.(pc := s.pc + 1, data := d, running := false))
    case Goto(a) => Ok(s.(pc := a, data := d))
    case Record =>
      if s.frames < |s.mem|
      then Ok(s.(pc := s.pc + 1, data := d, mem := s.mem[s.frames := Frame(0, Wrap32(d.top), 0)]))
      else Fault(FrameBounds)
    case Enter(a) =>
      if s.frames < |s.mem|
      then Ok(s.(pc := a, data := d, frames := s.frames + 1,
                 mem := s.mem[s.frames := Frame(s.pc + 2, 0, Wrap32(d.top))]))
      else Fault(FrameBounds)
    case Leave =>
      if s.frames == 0 then Ok(s.(pc := s.pc + 1, data := d, running := false))
      else if s.frames <= |s.mem|
      then Ok(s.(pc := ResumeAt(s.mem[s.frames - 1].rip), data := d, frames := s.frames - 1,
                 mem := s.mem[s.frames - 1 := EMPTY_FRAME]))
      else Fault(FrameBounds)
  }

  function Step(p: Program, s: State): Outcome<State>
    requires s.pc < |p|
  {
    var i := p[s.pc];
    match DataStep(i, s.data)
    case Failure(e) => Fault(e)
    case Success(d) =>
      match Control(i, s.data.regs)
      case Failure(e) => Fault(e)
      case Success(f) => Move(f, s, d)
  }

  /** Exactly `n` steps of execute_program's loop: Ok when all n were taken, Stopped when the loop
      condition failed before, Fault when a step left the defined behaviour of the C code. */
  function Exec(p: Program, s: State, n: nat): Outcome<State>
    decreases n
  {
    if n == 0 then Ok(s)
    else if Halted(p, s) then Stopped
    else
      match Step(p, s)
      case Ok(t) => Exec(p, t, n - 1)
      case Fault(e) => Fault(e)
      case Stopped => Stopped
  }

  /** Runs compose. */
  lemma {:induction false} ExecAdd(p: Program, s: State, m: nat, n: nat)
    ensures Exec(p, s, m + n) == match Exec(p, s, m)
                                 case Ok(t) => Exec(p, t, n)
                                 case Stopped => Stopped
                                 case Fault(e) => Fault(e)
    decreases m
  {
    if m == 0 {
    } else if Halted(p, s) {
    } else {
      match Step(p, s)
      case Ok(t) => ExecAdd(p, t, m - 1, n);
      case _ =>
    }
  }

  /** A run that reached n steps went through every shorter one. */
  lemma ExecPrefix(p: Program, s: State, k: nat, n: nat)
    requires k <= n && Exec(p, s, n).Ok?
    ensures Exec(p, s, k).Ok?
  {
    ExecAdd(p, s, k, n - k);
  }

  /** The last step of a run of n + 1 steps. */
  lemma ExecLast(p: Program, s: State, n: nat)
    requires Exec(p, s, n).Ok?
    ensures var t := Exec(p, s, n).state;
            Exec(p, s, n + 1) == if Halted(p, t) then Stopped else Step(p, t)
  {
    ExecAdd(p, s, n, 1);
    var t := Exec(p, s, n).state;
    if !Halted(p, t) {
      match Step(p, t)
      case Ok(u) => assert Exec(p, u, 0) == Ok(u);
      case _ =>
    }
  }

  /** init_machine: counters at zero and a cleared frame array; registers and stack bytes are
      whatever the shared arrays hold. */
  predicate Initial(s: State)
  {
    s.pc == 0 && s.frames == 0 && s.data.top == 0 && s.running && s.data.accum == 0
    && s.mem == seq(|s.mem|, _ => EMPTY_FRAME)
  }

  lemma InitialFacts(s: State)
    requires Initial(s)
    ensures s.pc == 0 && s.frames == 0 && s.data.top == 0 && s.running && s.data.accum == 0
  {
  }
}
