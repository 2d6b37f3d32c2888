/** The machine as the source writes it: one object whose arrays and counters are updated in place.
    Every method is proved to do to the object what the functions of module Semantics do to its value. */
module SetVm {
  import opened Words
  import opened Semantics
  import opened NativePrograms

  // ----- byte memory -----

  /** memcpy of a word to `memory[address..]`. */
  method SaveDecimal(memory: array<u8>, address: nat, value: u32) returns (fault: Option<Error>)
    modifies memory
    ensures match SaveWord(old(memory[..]), address, value)
            case Success(bytes) => fault == None && memory[..] == bytes
            case Failure(e) => fault == Some(e) && memory[..] == old(memory[..])
  {
    if address + 4 > memory.Length { return Some(StackBounds); }
    var bytes := Encode(value);
    memory[address] := bytes[0];
    memory[address + 1] := bytes[1];
    memory[address + 2] := bytes[2];
    memory[address + 3] := bytes[3];
    return None;
  }

  method LoadDecimal(memory: array<u8>, address: nat) returns (value: u32, fault: Option<Error>)
    ensures match LoadWord(memory[..], address)
            case Success(v) => fault == None && value == v
            case Failure(e) => fault == Some(e)
  {
    if address + 4 > memory.Length { return 0, Some(StackBounds); }
    assert memory[address..address + 4] == memory[..][address..address + 4];
    return Decode(memory[address..address + 4]), None;
  }

  class Machine {
    const program: Program
    var pc: nat
    const iregisters: array<u32>
    var accumRegister: u32
    var frames: nat
    var stackTop: u64
    const frameMemory: array<Frame>
    const stackMemory: array<u8>
    var isRunning: bool
    /** Stands for the streams behind the write system call. */
    var output: seq<Output>

    ghost predicate Valid()
    {
      && iregisters.Length == REG_COUNT
      && (iregisters as object) != (stackMemory as object)
      && (iregisters as object) != (frameMemory as object)
      && (stackMemory as object) != (frameMemory as object)
    }

    ghost function DataValue(): Data
      requires Valid()
      reads this, iregisters, stackMemory
    {
      Data(iregisters[..], stackMemory[..], stackTop, accumRegister, output)
    }

    ghost function Value(): State
      requires Valid()
      reads this, iregisters, stackMemory, frameMemory
    {
      State(pc, DataValue(), frames, frameMemory[..], isRunning)
    }

    /** init_machine: the register and stack arrays are shared and keep what they hold. */
    constructor (program: Program, registers: array<u32>, stack: array<u8>, frameCount: nat)
      requires registers.Length == REG_COUNT && (registers as object) != (stack as object)
      ensures Valid() && this.program == program && iregisters == registers && stackMemory == stack
      ensures fresh(frameMemory)
      ensures Value() == Fresh(registers[..], stack[..], frameCount)
    {
      this.program := program;
      pc, accumRegister, frames, stackTop, isRunning, output := 0, 0, 0, 0, true, [];
      iregisters, stackMemory := registers, stack;
      frameMemory := new Frame[frameCount](_ => EMPTY_FRAME);
    }

    // ----- registers -----

    method WriteRegister(r: i8, value: u32) returns (fault: Option<Error>)
      requires Valid()
      modifies iregisters
      ensures match SetReg(old(DataValue()), r, value)
              case Success(d) => fault == None && DataValue() == d
              case Failure(e) => fault == Some(e)
    {
      if !IsReg(r) { return Some(BadRegister); }
      iregisters[r] := value;
      return None;
    }

    // ----- stack -----

    method PushDecimal(value: u32) returns (fault: Option<Error>)
      requires Valid()
      modifies this`stackTop, stackMemory
      ensures match Push(old(DataValue()), value)
              case Success(d) => fault == None && DataValue() == d
              case Failure(e) => fault == Some(e)
    {
      stackTop := Wrap64(stackTop + 4);
      fault := SaveDecimal(stackMemory, stackTop, value);
    }

    method PopDecimal(r: i8) returns (fault: Option<Error>)
      requires Valid()
      modifies this`stackTop, iregisters
      ensures match Pop(old(DataValue()), r)
              case Success(d) => fault == None && DataValue() == d
              case Failure(e) => fault == Some(e)
    {
      var value;
      value, fault := LoadDecimal(stackMemory, stackTop);
      if fault.None? {
        stackTop := Wrap64(stackTop - 4);
        fault := WriteRegister(r, value);
      }
    }

    method WriteBytes() returns (fault: Option<Error>)
      requires Valid()
      modifies this`output
      ensures match Print(old(DataValue()))
              case Success(d) => fault == None && DataValue() == d
              case Failure(e) => fault == Some(e)
    {
      var stream, from, len := iregisters[0], iregisters[1], iregisters[2];
      if from as int + len as int > stackMemory.Length { return Some(StackBounds); }
      if len == 0 { return Some(WriteFailed); }
      assert stackMemory[from..from as int + len as int] == Slice(stackMemory[..], from, len);
      output := output + [Output(stream, stackMemory[from..from as int + len as int])];
      return None;
    }

    // ----- frames -----

    /** Writes the slot above the live frames and leaves the counter alone. */
    method RecordFrame(address: u64) returns (fault: Option<Error>)
      modifies frameMemory
      ensures if frames < frameMemory.Length
              then fault == None && frameMemory[..] == old(frameMemory[..])[frames := Frame(0, Wrap32(address), 0)]
              else fault == Some(FrameBounds)
    {
      if frames >= frameMemory.Length { return Some(FrameBounds); }
      frameMemory[frames] := Frame(0, Wrap32(address), 0);
      return None;
    }

    method CallFrame(address: u64, target: nat) returns (fault: Option<Error>)
      modifies this`pc, this`frames, frameMemory
      ensures if old(frames) < frameMemory.Length
              then && fault == None && pc == target && frames == old(frames) + 1
                   && frameMemory[..] == old(frameMemory[..])[old(frames) := Frame(old(pc), 0, Wrap32(address))]
              else fault == Some(FrameBounds)
    {
      if frames >= frameMemory.Length { return Some(FrameBounds); }
      frameMemory[frames] := Frame(pc, 0, Wrap32(address));
      pc := target;
      frames := frames + 1;
      return None;
    }

    method LeaveFrame() returns (fault: Option<Error>)
      modifies this`pc, this`frames, this`isRunning, frameMemory
      ensures if old(frames) == 0 then
                && fault == None && pc == old(pc) && frames == 0 && !isRunning
                && frameMemory[..] == old(frameMemory[..])
              else if old(frames) <= frameMemory.Length then
                && fault == None && pc == ResumeAt(old(frameMemory[frames - 1]).rip) && frames == old(frames) - 1
                && isRunning == old(isRunning)
                && frameMemory[..] == old(frameMemory[..])[old(frames) - 1 := EMPTY_FRAME]
              else fault == Some(FrameBounds)
    {
      if frames == 0 {
        isRunning := false;
        return None;
      }
      if frames > frameMemory.Length { return Some(FrameBounds); }
      pc := ResumeAt(frameMemory[frames - 1].rip);
      frameMemory[frames - 1] := EMPTY_FRAME;
      frames := frames - 1;
      return None;
    }

    // ----- execute_op -----

    /** The cases of the switch that work on registers, stack, accumulator and output. */
    method ExecuteData(i: Instruction) returns (fault: Option<Error>)
      requires Valid()
      modifies this`stackTop, this`accumRegister, this`output, iregisters, stackMemory
      ensures match DataStep(i, old(DataValue()))
              case Success(d) => fault == None && DataValue() == d
              case Failure(e) => fault == Some(e)
    {
      fault := None;
      if IsBinary(i.op) {
        if !IsReg(i.r1) || !IsReg(i.r2) { return Some(BadRegister); }
        match Binary(i.op, iregisters[i.r1], iregisters[i.r2])
        case Failure(e) => fault := Some(e);
        case Success(v) => fault := WriteRegister(i.r0, v);
      } else if IsFloat(i.op) {
        fault := Some(FloatUnit);
      } else {
        match i.op
        case ENTRY => fault := Some(EntryTrap);
        case PUSH =>
          if !IsReg(i.r0) { return Some(BadRegister); }
          fault := PushDecimal(iregisters[i.r0]);
        case POP => fault := PopDecimal(i.r0);
        case GETAC => fault := WriteRegister(i.r0, accumRegister);
        case INC =>
          if !IsReg(i.r0) { return Some(BadRegister); }
          fault := WriteRegister(i.r0, Plus(iregisters[i.r0], 1));
        case DEC =>
          if !IsReg(i.r0) { return Some(BadRegister); }
          fault := WriteRegister(i.r0, Plus(iregisters[i.r0], -1));
        case DLOAD =>
          if !IsReg(i.r1) { return Some(BadRegister); }
          var value;
          value, fault := LoadDecimal(stackMemory, iregisters[i.r1]);
          if fault.None? { fault := WriteRegister(i.r0, value); }
        case DSAVE =>
          if !IsReg(i.r0) || !IsReg(i.r1) { return Some(BadRegister); }
          fault := SaveDecimal(stackMemory, iregisters[i.r1], iregisters[i.r0]);
        case SET => fault := WriteRegister(i.r0, Wrap32(i.imm));
        case CU2I =>
          if !IsReg(i.r1) { return Some(BadRegister); }
          fault := WriteRegister(i.r0, iregisters[i.r1]);
        case CI2U =>
          if !IsReg(i.r1) { return Some(BadRegister); }
          fault := WriteRegister(i.r0, iregisters[i.r1]);
        case PRINT => fault := WriteBytes();
        case RET =>
          if !IsReg(i.r0) { return Some(BadRegister); }
          accumRegister := iregisters[i.r0];
        case _ =>
      }
    }

    /** Jumps to a literal address or to the address in a register. */
    method ExecuteJump(i: Instruction) returns (fault: Option<Error>)
      requires Valid() && i.op in {JMP, EJMP, NEJMP, RJMP, ERJMP, NERJMP}
      modifies this`pc
      ensures match Control(i, DataValue().regs)
              case Failure(e) => fault == Some(e)
              case Success(f) => fault == None && pc == if f.Goto? then f.target else old(pc)
    {
      if i.op == RJMP {
        if !IsReg(i.r0) { return Some(BadRegister); }
        pc := iregisters[i.r0];
      } else if i.op == JMP {
        pc := Wrap32(i.imm);
      } else {
        if !IsReg(i.r1) || !IsReg(i.r2) { return Some(BadRegister); }
        var equal := iregisters[i.r1] == iregisters[i.r2];
        if equal == (i.op == EJMP || i.op == ERJMP) {
          if i.op == EJMP || i.op == NEJMP {
            pc := Wrap32(i.imm);
          } else {
            if !IsReg(i.r0) { return Some(BadRegister); }
            pc := iregisters[i.r0];
          }
        }
      }
      return None;
    }

    /** The cases that move the program counter or the frames; the fetch has already advanced it. */
    method ExecuteControl(i: Instruction, ghost at: nat) returns (fault: Option<Error>)
      requires Valid() && pc == at + 1
      modifies this`pc, this`frames, this`isRunning, frameMemory
      ensures match Control(i, DataValue().regs)
              case Failure(e) => fault == Some(e)
              case Success(f) =>
                match Move(f, old(Value()).(pc := at), old(DataValue()))
                case Ok(t) => fault == None && Value() == t
                case Fault(e) => fault == Some(e)
                case Stopped => false
    {
      hide Wrap32, Wrap64, ResumeAt, IsReg;
      fault := None;
      if i.op in {JMP, EJMP, NEJMP, RJMP, ERJMP, NERJMP} {
        FlowOfJump(i, DataValue().regs);
        fault := ExecuteJump(i);
      } else {
        match i.op
        case HALT => isRunning := false;
        case REC => fault := RecordFrame(stackTop);
        case CALL =>
          pc := pc + 1;
          fault := CallFrame(stackTop, Wrap64(i.imm));
        case RET => fault := LeaveFrame();
        case _ =>
      }
    }

    /** One instruction, fetched and executed in place, is one Step; `fault` tells where the C code
        would have left its arrays, divided by zero or failed an assert. */
    method ExecuteOp() returns (fault: Option<Error>)
      requires Valid() && pc < |program|
      modifies this, iregisters, stackMemory, frameMemory
      ensures match Step(program, old(Value()))
              case Ok(t) => fault == None && Value() == t
              case Fault(e) => fault == Some(e)
              case Stopped => false
    {
      ghost var at := pc;
      ghost var regs := DataValue().regs;
      var i := program[pc];
      pc := pc + 1;
      fault := ExecuteData(i);
      if fault.None? {
        ControlIgnoresData(i, regs, DataValue().regs);
        fault := ExecuteControl(i, at);
      }
    }

    /** The fetch loop. `steps` counts the instructions executed without fault. It is asked of a
        caller that the loop ends at all, by `bound` steps at the latest. */
    method ExecuteProgram(ghost bound: nat) returns (fault: Option<Error>, ghost steps: nat)
      requires Valid()
      requires !Exec(program, Value(), bound).Ok? || Halted(program, Exec(program, Value(), bound).state)
      modifies this, iregisters, stackMemory, frameMemory
      ensures steps <= bound
      ensures match fault
              case None => Exec(program, old(Value()), steps) == Ok(Value()) && Halted(program, Value())
              case Some(e) => Exec(program, old(Value()), steps + 1) == Fault(e)
    {
      ghost var start := Value();
      fault, steps := None, 0;
      while pc < |program| && isRunning
        invariant fault == None && steps <= bound && Exec(program, start, steps) == Ok(Value())
        decreases bound - steps
      {
        NotYetEnded(program, start, steps, bound);
        ExecLast(program, start, steps);
        fault := ExecuteOp();
        if fault.Some? { return; }
        steps := steps + 1;
      }
    }
  }

  /** Instructions that look at registers to decide where to go leave the registers alone. */
  lemma ControlIgnoresData(i: Instruction, before: Registers, after: Registers)
    requires i.op in {EJMP, NEJMP, RJMP, ERJMP, NERJMP} ==> before == after
    ensures Control(i, before) == Control(i, after)
  {
  }

  lemma FlowOfJump(i: Instruction, regs: Registers)
    requires i.op in {JMP, EJMP, NEJMP, RJMP, ERJMP, NERJMP}
    ensures Control(i, regs).Success? ==> Control(i, regs).value.Goto? || Control(i, regs).value == Next
  {
  }

  lemma NotYetEnded(p: Program, s: State, steps: nat, bound: nat)
    requires steps <= bound && Exec(p, s, steps).Ok? && !Halted(p, Exec(p, s, steps).state)
    requires !Exec(p, s, bound).Ok? || Halted(p, Exec(p, s, bound).state)
    ensures steps < bound
  {
  }
}
