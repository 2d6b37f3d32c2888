/** What one step of each instruction does, in terms of registers, bytes and frames alone, and what runs
    of them add up to. */
module StepLaws {
  import opened Words
  import opened Semantics

  /** The next instruction has opcode `op`. */
  predicate Executes(p: Program, s: State, op: Op) { s.running && s.pc < |p| && p[s.pc].op == op }

  predicate InFile(r: i8) { 0 <= r <= 15 }

  /** Register `r` may change and the pc moves on; everything else stays. */
  predicate OnlyRegister(s: State, t: State, r: i8)
  {
    && t == s.(pc := s.pc + 1, data := s.data.(regs := t.data.regs))
    && forall k | 0 <= k < 16 && k != r :: t.data.regs[k] == s.data.regs[k]
  }

  /** Equal modulo 2^32. */
  predicate Same32(x: int, y: int) { (x - y) % 0x1_0000_0000 == 0 }

  // ----- arithmetic -----

  predicate ThreeInFile(i: Instruction) { InFile(i.r0) && InFile(i.r1) && InFile(i.r2) }

  /** The instruction computes z from x in slot 1 and y in slot 2. */
  predicate Computes(p: Program, s: State, x: u32, y: u32, z: u32)
  {
    && s.pc < |p| && ThreeInFile(p[s.pc]) && x == s.data.regs[p[s.pc].r1] && y == s.data.regs[p[s.pc].r2]
    && Step(p, s).Ok? && OnlyRegister(s, Step(p, s).state, p[s.pc].r0)
    && z == Step(p, s).state.data.regs[p[s.pc].r0]
  }

  /** Sum, difference and product are those of the integers modulo 2^32. */
  lemma SumLaw(p: Program, s: State) returns (x: u32, y: u32, z: u32)
    requires Executes(p, s, ADD) && ThreeInFile(p[s.pc])
    ensures Computes(p, s, x, y, z) && Same32(z, x + y)
  {
    x, y := s.data.regs[p[s.pc].r1], s.data.regs[p[s.pc].r2];
    z := Step(p, s).state.data.regs[p[s.pc].r0];
  }

  lemma DifferenceLaw(p: Program, s: State) returns (x: u32, y: u32, z: u32)
    requires Executes(p, s, SUB) && ThreeInFile(p[s.pc])
    ensures Computes(p, s, x, y, z) && Same32(z + y, x)
  {
    x, y := s.data.regs[p[s.pc].r1], s.data.regs[p[s.pc].r2];
    z := Step(p, s).state.data.regs[p[s.pc].r0];
  }

  lemma ProductLaw(p: Program, s: State) returns (x: u32, y: u32, z: u32)
    requires Executes(p, s, MUL) && ThreeInFile(p[s.pc])
    ensures Computes(p, s, x, y, z) && Same32(z, x * y)
  {
    x, y := s.data.regs[p[s.pc].r1], s.data.regs[p[s.pc].r2];
    z := Step(p, s).state.data.regs[p[s.pc].r0];
    var xy: int := x * y;
    assert z == xy % 0x1_0000_0000;
  }

  /** Division with remainder, and a fault exactly on zero. */
  lemma QuotientLaw(p: Program, s: State) returns (x: u32, y: u32, z: u32)
    requires Executes(p, s, DIV) && ThreeInFile(p[s.pc])
    ensures x == s.data.regs[p[s.pc].r1] && y == s.data.regs[p[s.pc].r2]
    ensures if y == 0 then Step(p, s) == Fault(DivideByZero)
            else Computes(p, s, x, y, z) && 0 <= x as int - z as int * y as int < y as int
  {
    x, y, z := s.data.regs[p[s.pc].r1], s.data.regs[p[s.pc].r2], 0;
    if y != 0 {
      z := Step(p, s).state.data.regs[p[s.pc].r0];
      var a: int, b: int := x, y;
      assert z == a / b && a == a / b * b + a % b;
    }
  }

  /** The answers of comparisons and logic are 1 for yes and 0 for no. */
  lemma AnswerLaw(p: Program, s: State) returns (x: u32, y: u32, z: u32)
    requires !Halted(p, s) && p[s.pc].op in {CMPE, CMPEG, CMPEL, CMPG, CMPL, AND, OR} && ThreeInFile(p[s.pc])
    ensures Computes(p, s, x, y, z) && (z == 0 || z == 1)
    ensures Executes(p, s, CMPE) ==> (z == 1 <==> x == y)
    ensures Executes(p, s, CMPG) ==> (z == 1 <==> x > y)
    ensures Executes(p, s, CMPL) ==> (z == 1 <==> x < y)
    ensures Executes(p, s, CMPEG) ==> (z == 0 <==> x < y)
    ensures Executes(p, s, CMPEL) ==> (z == 0 <==> x > y)
    ensures Executes(p, s, AND) ==> (z == 0 <==> x == 0 || y == 0)
    ensures Executes(p, s, OR) ==> (z == 0 <==> x == 0 && y == 0)
  {
    x, y := s.data.regs[p[s.pc].r1], s.data.regs[p[s.pc].r2];
    z := Step(p, s).state.data.regs[p[s.pc].r0];
  }

  /** ADD and SUB of one register undo each other. */
  lemma SubUndoesAdd(p: Program, s: State)
    requires Executes(p, s, ADD) && Executes(p, s.(pc := s.pc + 1), SUB) && ThreeInFile(p[s.pc])
    requires p[s.pc].r0 == p[s.pc].r1 != p[s.pc].r2
    requires p[s.pc + 1].r0 == p[s.pc].r0 && p[s.pc + 1].r1 == p[s.pc].r1 && p[s.pc + 1].r2 == p[s.pc].r2
    ensures Exec(p, s, 2) == Ok(s.(pc := s.pc + 2))
  {
    hide Step;
    var x, y, z := SumLaw(p, s);
    var t := Step(p, s).state;
    var x', y', z' := DifferenceLaw(p, t);
    var u := Step(p, t).state;
    assert z' == x;
    assert u.data.regs == s.data.regs;
    assert Exec(p, t, 1) == Ok(u) by { assert Exec(p, u, 0) == Ok(u); }
  }

  /** `k` instructions that all add register b to register a. */
  predicate Adds(p: Program, at: nat, k: nat, a: i8, b: i8)
  {
    at + k <= |p| && forall j | at <= j < at + k :: p[j] == Instruction(ADD, a, a, b, 0)
  }

  /** A row of k additions adds k times the register, modulo 2^32. */
  lemma {:induction false} AddsAddUp(p: Program, s: State, k: nat, a: i8, b: i8)
    requires InFile(a) && InFile(b) && a != b && s.running && Adds(p, s.pc, k, a, b)
    ensures Exec(p, s, k).Ok?
    ensures var t := Exec(p, s, k).state;
            && t.running && t.pc == s.pc + k && t.data.regs[b] == s.data.regs[b]
            && Same32(t.data.regs[a], s.data.regs[a] + k * s.data.regs[b])
    decreases k
  {
    hide Step, Same32;
    if k == 0 {
      SameSelf(s.data.regs[a]);
    } else {
      assert p[s.pc] == Instruction(ADD, a, a, b, 0);
      var x, y, z := SumLaw(p, s);
      var t := Step(p, s).state;
      AddsAddUp(p, t, k - 1, a, b);
      SameSteps(Exec(p, s, k).state.data.regs[a], z, x, y, k);
    }
  }

  lemma SameSelf(x: int)
    ensures Same32(x, x)
  {
  }

  lemma SameSteps(w: int, z: int, x: int, y: int, k: nat)
    requires k > 0 && Same32(w, z + (k - 1) * y) && Same32(z, x + y)
    ensures Same32(w, x + k * y)
  {
    assert (k - 1) * y + y == k * y;
  }

  /** So MUL is what that many additions to zero give. */
  lemma MulIsRepeatedAdd(p: Program, s: State, q: Program, u: State, a: i8, b: i8)
    requires Executes(p, s, MUL) && ThreeInFile(p[s.pc])
    requires InFile(a) && InFile(b) && a != b && u.running && u.data.regs[a] == 0
    requires u.data.regs[b] == s.data.regs[p[s.pc].r1] && Adds(q, u.pc, s.data.regs[p[s.pc].r2], a, b)
    ensures Step(p, s).Ok? && Exec(q, u, s.data.regs[p[s.pc].r2]).Ok?
    ensures Exec(q, u, s.data.regs[p[s.pc].r2]).state.data.regs[a] == Step(p, s).state.data.regs[p[s.pc].r0]
  {
    hide Step, Exec;
    var x, y, z := ProductLaw(p, s);
    AddsAddUp(q, u, y, a, b);
    SameIsEqual(z, Exec(q, u, y).state.data.regs[a], x, y);
  }

  lemma SameIsEqual(z: u32, w: u32, x: int, y: int)
    requires Same32(z, x * y) && Same32(w, 0 + y * x)
    ensures z == w
  {
    assert x * y == y * x;
  }

  // ----- one register -----

  /** The instruction gives register r0 the value z and changes nothing else. */
  predicate Gives(p: Program, s: State, z: u32)
  {
    && s.pc < |p| && InFile(p[s.pc].r0) && Step(p, s).Ok? && OnlyRegister(s, Step(p, s).state, p[s.pc].r0)
    && z == Step(p, s).state.data.regs[p[s.pc].r0]
  }

  /** Loading, counting and copying. */
  lemma SetLaw(p: Program, s: State) returns (z: u32)
    requires Executes(p, s, SET) && InFile(p[s.pc].r0)
    ensures Gives(p, s, z) && Same32(z, p[s.pc].imm)
  {
    z := Step(p, s).state.data.regs[p[s.pc].r0];
  }

  lemma CountLaw(p: Program, s: State) returns (z: u32)
    requires (Executes(p, s, INC) || Executes(p, s, DEC)) && InFile(p[s.pc].r0)
    ensures Gives(p, s, z)
    ensures Same32(z as int - s.data.regs[p[s.pc].r0] as int, if p[s.pc].op == INC then 1 else -1)
  {
    z := Step(p, s).state.data.regs[p[s.pc].r0];
  }

  lemma CopyLaw(p: Program, s: State)
    requires (Executes(p, s, CU2I) || Executes(p, s, CI2U)) && InFile(p[s.pc].r0) && InFile(p[s.pc].r1)
    ensures Gives(p, s, s.data.regs[p[s.pc].r1])
  {
  }

  lemma GetacLaw(p: Program, s: State)
    requires Executes(p, s, GETAC) && InFile(p[s.pc].r0)
    ensures Gives(p, s, s.data.accum)
  {
  }

  // ----- bytes -----

  /** Four bytes from `a` on hold `v`, the lowest first. */
  predicate BytesAt(stack: seq<u8>, a: nat, v: u32)
  {
    && a + 4 <= |stack|
    && v as int == stack[a] as int + 0x100 * (stack[a + 1] as int) + 0x1_0000 * (stack[a + 2] as int)
                   + 0x100_0000 * (stack[a + 3] as int)
  }

  /** The bytes from `a` on now hold `v` and no other byte has changed. */
  predicate BytesStored(before: seq<u8>, after: seq<u8>, a: nat, v: u32)
  {
    && |after| == |before| && BytesAt(after, a, v)
    && forall k | 0 <= k < |before| && !(a <= k < a + 4) :: after[k] == before[k]
  }

  lemma SavedBytes(stack: seq<u8>, a: nat, v: u32)
    requires a + 4 <= |stack|
    ensures SaveWord(stack, a, v).Success? && BytesStored(stack, SaveWord(stack, a, v).value, a, v)
  {
    var saved := SaveWord(stack, a, v).value;
    var b := Encode(v);
    assert saved[a] == b[0] && saved[a + 1] == b[1] && saved[a + 2] == b[2] && saved[a + 3] == b[3];
    DecodeEncode(v);
  }

  lemma LoadedBytes(stack: seq<u8>, a: nat)
    requires a + 4 <= |stack|
    ensures LoadWord(stack, a).Success? && BytesAt(stack, a, LoadWord(stack, a).value)
  {
  }

  /** DLOAD reads at the address in slot 1, DSAVE stores the register in slot 0 there. */
  lemma DloadLaw(p: Program, s: State)
    requires Executes(p, s, DLOAD) && InFile(p[s.pc].r0) && InFile(p[s.pc].r1)
    ensures var i := p[s.pc];
            if s.data.regs[i.r1] as int + 4 <= |s.data.stack|
            then && Step(p, s).Ok? && OnlyRegister(s, Step(p, s).state, i.r0)
                 && BytesAt(s.data.stack, s.data.regs[i.r1], Step(p, s).state.data.regs[i.r0])
            else Step(p, s) == Fault(StackBounds)
  {
    hide Decode, BytesAt;
    var a := s.data.regs[p[s.pc].r1];
    if a as int + 4 <= |s.data.stack| { LoadedBytes(s.data.stack, a); }
  }

  lemma DsaveLaw(p: Program, s: State)
    requires Executes(p, s, DSAVE) && InFile(p[s.pc].r0) && InFile(p[s.pc].r1)
    ensures var i := p[s.pc];
            if s.data.regs[i.r1] as int + 4 <= |s.data.stack|
            then && Step(p, s).Ok?
                 && var t := Step(p, s).state;
                    && t == s.(pc := s.pc + 1, data := s.data.(stack := t.data.stack))
                    && BytesStored(s.data.stack, t.data.stack, s.data.regs[i.r1], s.data.regs[i.r0])
            else Step(p, s) == Fault(StackBounds)
  {
    hide Encode, BytesStored;
    var a := s.data.regs[p[s.pc].r1];
    if a as int + 4 <= |s.data.stack| { SavedBytes(s.data.stack, a, s.data.regs[p[s.pc].r0]); }
  }

  /** The stack counter, four up or down on 64 bits. */
  function Up(top: u64): u64 { if top < 0xFFFF_FFFF_FFFF_FFFC then top + 4 else top - 0xFFFF_FFFF_FFFF_FFFC }

  function Down(top: u64): u64 { if top >= 4 then top - 4 else top + 0xFFFF_FFFF_FFFF_FFFC }

  /** PUSH moves the counter first, POP reads first. */
  lemma PushLaw(p: Program, s: State)
    requires Executes(p, s, PUSH) && InFile(p[s.pc].r0)
    ensures var a := Up(s.data.top);
            if a as int + 4 <= |s.data.stack|
            then && Step(p, s).Ok?
                 && var t := Step(p, s).state;
                    && t == s.(pc := s.pc + 1, data := s.data.(stack := t.data.stack, top := a))
                    && BytesStored(s.data.stack, t.data.stack, a, s.data.regs[p[s.pc].r0])
            else Step(p, s) == Fault(StackBounds)
  {
    hide Encode, BytesStored;
    var a := Up(s.data.top);
    if a as int + 4 <= |s.data.stack| { SavedBytes(s.data.stack, a, s.data.regs[p[s.pc].r0]); }
  }

  lemma PopLaw(p: Program, s: State)
    requires Executes(p, s, POP) && InFile(p[s.pc].r0)
    ensures if s.data.top as int + 4 <= |s.data.stack|
            then && Step(p, s).Ok?
                 && var t, r := Step(p, s).state, p[s.pc].r0;
                    && t.data.top == Down(s.data.top) && BytesAt(s.data.stack, s.data.top, t.data.regs[r])
                    && OnlyRegister(s.(data := s.data.(top := t.data.top)), t, r)
            else Step(p, s) == Fault(StackBounds)
  {
    hide Decode, BytesAt;
    if s.data.top as int + 4 <= |s.data.stack| { LoadedBytes(s.data.stack, s.data.top); }
  }

  /** PRINT hands one output to stream r0: the r2 bytes of the stack from r1 on. */
  lemma PrintLaw(p: Program, s: State)
    requires Executes(p, s, PRINT)
    ensures var stream, from, len := s.data.regs[0], s.data.regs[1], s.data.regs[2];
            if from as int + len as int > |s.data.stack| then Step(p, s) == Fault(StackBounds)
            else if len == 0 then Step(p, s) == Fault(WriteFailed)
            else
              && Step(p, s).Ok?
              && var t := Step(p, s).state;
                 && t == s.(pc := s.pc + 1, data := s.data.(output := t.data.output))
                 && |t.data.output| == |s.data.output| + 1 && t.data.output[..|s.data.output|] == s.data.output
                 && var o := t.data.output[|s.data.output|];
                    && o.stream == stream && |o.bytes| == len
                    && forall k | 0 <= k < len :: o.bytes[k] == s.data.stack[from + k]
  {
  }

  // ----- control -----

  /** The next state when control goes to `a` and nothing else changes. */
  predicate GoesTo(p: Program, s: State, a: nat) { s.pc < |p| && Step(p, s) == Ok(s.(pc := a)) }

  function Unsigned32(x: i32): nat { if x >= 0 then x else x + 0x1_0000_0000 }

  function Unsigned64(x: i32): nat { if x >= 0 then x else x + 0x1_0000_0000_0000_0000 }

  /** Literal jumps read their target on 32 bits; the machine compares slots 1 and 2. */
  lemma JumpLaw(p: Program, s: State)
    requires !Halted(p, s) && p[s.pc].op in {JMP, EJMP, NEJMP}
    requires p[s.pc].op == JMP || (InFile(p[s.pc].r1) && InFile(p[s.pc].r2))
    ensures var i := p[s.pc];
            var taken := || i.op == JMP
                         || (i.op == EJMP && s.data.regs[i.r1] == s.data.regs[i.r2])
                         || (i.op == NEJMP && s.data.regs[i.r1] != s.data.regs[i.r2]);
            GoesTo(p, s, if taken then Unsigned32(i.imm) else s.pc + 1)
  {
  }

  /** Register jumps go to the address in slot 0. */
  lemma RegisterJumpLaw(p: Program, s: State)
    requires !Halted(p, s) && p[s.pc].op in {RJMP, ERJMP, NERJMP} && InFile(p[s.pc].r0)
    requires p[s.pc].op == RJMP || (InFile(p[s.pc].r1) && InFile(p[s.pc].r2))
    ensures var i := p[s.pc];
            var taken := || i.op == RJMP
                         || (i.op == ERJMP && s.data.regs[i.r1] == s.data.regs[i.r2])
                         || (i.op == NERJMP && s.data.regs[i.r1] != s.data.regs[i.r2]);
            GoesTo(p, s, if taken then s.data.regs[i.r0] else s.pc + 1)
  {
  }

  /** HALT stops, NOP and REG_DUMP do nothing, ENTRY traps; the float opcodes fault. */
  lemma PlainLaw(p: Program, s: State)
    requires !Halted(p, s)
    ensures Executes(p, s, HALT) ==> Step(p, s) == Ok(s.(pc := s.pc + 1, running := false))
    ensures Executes(p, s, NOP) || Executes(p, s, REG_DUMP) ==> GoesTo(p, s, s.pc + 1)
    ensures Executes(p, s, ENTRY) ==> Step(p, s) == Fault(EntryTrap)
  {
    hide Binary, Push, Pop, Print, SetReg;
  }

  lemma FloatLaw(p: Program, s: State)
    requires !Halted(p, s)
    requires p[s.pc].op in {FLOAD, FSAVE, FSET, FADD, FSUB, FDIV, FMUL, CF2I, CI2F, CU2F, CF2U,
                            FCMPE, FCMPEG, FCMPEL, FCMPG, FCMPL}
    ensures Step(p, s) == Fault(FloatUnit)
  {
    hide Binary, Push, Pop, Print, SetReg;
  }

  // ----- frames -----

  /** Slot n holds the frame, the others stay. */
  predicate FrameStored(before: seq<Frame>, after: seq<Frame>, n: nat, f: Frame)
  {
    && |after| == |before| && n < |after| && after[n] == f
    && forall k | 0 <= k < |before| && k != n :: after[k] == before[k]
  }

  /** REC stores the low 32 bits of the stack counter as base pointer of the slot above the live frames. */
  lemma RecLaw(p: Program, s: State)
    requires Executes(p, s, REC)
    ensures if s.frames < |s.mem|
            then && Step(p, s).Ok?
                 && var t := Step(p, s).state;
                    && t == s.(pc := s.pc + 1, mem := t.mem)
                    && FrameStored(s.mem, t.mem, s.frames, Frame(0, s.data.top % 0x1_0000_0000, 0))
            else Step(p, s) == Fault(FrameBounds)
  {
  }

  /** CALL stores where to resume and the low 32 bits of the stack counter, and counts the frame. */
  lemma CallLaw(p: Program, s: State)
    requires Executes(p, s, CALL)
    ensures if s.frames < |s.mem|
            then && Step(p, s).Ok?
                 && var t := Step(p, s).state;
                    && t == s.(pc := Unsigned64(p[s.pc].imm), frames := s.frames + 1, mem := t.mem)
                    && FrameStored(s.mem, t.mem, s.frames, Frame(s.pc + 2, 0, s.data.top % 0x1_0000_0000))
            else Step(p, s) == Fault(FrameBounds)
  {
  }

  /** RET saves its register, resumes one before the stored pointer and clears the slot; at the root it stops. */
  lemma RetLaw(p: Program, s: State)
    requires Executes(p, s, RET) && InFile(p[s.pc].r0)
    ensures var d := s.data.(accum := s.data.regs[p[s.pc].r0]);
            if s.frames == 0 then Step(p, s) == Ok(s.(pc := s.pc + 1, data := d, running := false))
            else if s.frames <= |s.mem|
            then && Step(p, s).Ok?
                 && var t, rip := Step(p, s).state, s.mem[s.frames - 1].rip;
                    && t == s.(pc := if rip == 0 then 0xFFFF_FFFF_FFFF_FFFF else rip - 1, data := d,
                               frames := s.frames - 1, mem := t.mem)
                    && FrameStored(s.mem, t.mem, s.frames - 1, Frame(0, 0, 0))
            else Step(p, s) == Fault(FrameBounds)
  {
  }

  // ----- registers outside the file -----

  /** The slots the C code uses as indices, besides slot 0 of a conditional register jump. */
  predicate SlotsInFile(i: Instruction)
  {
    match i.op
    case PUSH => InFile(i.r0) case POP => InFile(i.r0) case RET => InFile(i.r0)
    case GETAC => InFile(i.r0) case INC => InFile(i.r0) case DEC => InFile(i.r0)
    case SET => InFile(i.r0) case RJMP => InFile(i.r0)
    case CU2I => InFile(i.r0) && InFile(i.r1) case CI2U => InFile(i.r0) && InFile(i.r1)
    case DLOAD => InFile(i.r0) && InFile(i.r1) case DSAVE => InFile(i.r0) && InFile(i.r1)
    case EJMP => InFile(i.r1) && InFile(i.r2) case NEJMP => InFile(i.r1) && InFile(i.r2)
    case ERJMP => InFile(i.r1) && InFile(i.r2) case NERJMP => InFile(i.r1) && InFile(i.r2)
    case ADD => ThreeInFile(i) case SUB => ThreeInFile(i) case MUL => ThreeInFile(i) case DIV => ThreeInFile(i)
    case AND => ThreeInFile(i) case OR => ThreeInFile(i) case CMPE => ThreeInFile(i) case CMPEG => ThreeInFile(i)
    case CMPEL => ThreeInFile(i) case CMPG => ThreeInFile(i) case CMPL => ThreeInFile(i)
    case _ => true
  }

  /** An index outside the register file is a fault, and only that reports a bad register. */
  lemma OutsideFileFaults(p: Program, s: State)
    requires !Halted(p, s) && !SlotsInFile(p[s.pc])
    ensures Step(p, s).Fault?
  {
    hide Binary, Decode, Encode, Wrap32, Wrap64, LoadWord, SaveWord;
  }

  lemma InFileIsNoBadRegister(p: Program, s: State)
    requires !Halted(p, s) && SlotsInFile(p[s.pc])
    requires p[s.pc].op in {ERJMP, NERJMP} ==> InFile(p[s.pc].r0)
    ensures Step(p, s) != Fault(BadRegister)
  {
    hide Decode, Encode, Wrap32, Wrap64;
  }
}
