/** The programs of src/testing/test_list.c with their constants left open, and the macros of
    src/vm/set.h that build them. */
module NativePrograms {
  import opened Words
  import opened Semantics

  function Set(r: i8, v: i32): Instruction { Instruction(SET, r, 0, 0, v) }
  function One(op: Op, r: i8): Instruction { Instruction(op, r, 0, 0, 0) }
  function Three(op: Op, r0: i8, r1: i8, r2: i8): Instruction { Instruction(op, r0, r1, r2, 0) }
  function Rec(): Instruction { Instruction(REC, 0, 0, 0, 0) }
  function CallTo(a: i32): Instruction { Instruction(CALL, 0, 0, 0, a) }
  /** The macro fills slots 0 and 1; the machine compares slots 1 and 2. */
  function Nejmp(a: i32, r0: i8, r1: i8): Instruction { Instruction(NEJMP, r0, r1, 0, a) }

  function SimpleLoop(start: i32, step: i32, max: i32): Program
  {
    [Set(0, start), Set(1, step), Set(2, max), Set(3, 4),
     One(REG_DUMP, 0), Three(ADD, 0, 0, 1), Nejmp(3, 0, 2),
     One(RET, 0)]
  }

  const AND_OR: Program :=
    [Set(1, 0), Set(2, 1),
     Three(OR, 0, 1, 2), One(REG_DUMP, 0), Three(AND, 0, 1, 2), One(REG_DUMP, 0),
     One(RET, 0)]

  const INC_DEC: Program :=
    [One(INC, 0), One(INC, 0), One(INC, 0), One(INC, 0), One(REG_DUMP, 0),
     One(DEC, 0), One(DEC, 0), One(REG_DUMP, 0),
     One(RET, 0)]

  const PRINT_LOL: Program :=
    [Set(0, 0), Set(1, 0x0A6C6F6C), Three(DSAVE, 1, 0, 0),
     Set(0, 1), Set(1, 0), Set(2, 4), Instruction(PRINT, 0, 0, 0, 0),
     One(RET, 1)]

  /** print with any address and any word. */
  function PrintWord(a: i32, w: i32): Program
  {
    [Set(0, a), Set(1, w), Three(DSAVE, 1, 0, 0),
     Set(0, 1), Set(1, a), Set(2, 4), Instruction(PRINT, 0, 0, 0, 0),
     One(RET, 1)]
  }

  function FunctionCall(x: i32, y: i32): Program
  {
    [Set(0, x), Set(1, y), Rec(), One(PUSH, 0), One(PUSH, 1), CallTo(7), One(RET, 0),
     One(POP, 0), One(POP, 1), Three(ADD, 0, 0, 1), One(REG_DUMP, 0), One(RET, 0)]
  }

  function RecursiveFunctionCall(bound: i32): Program
  {
    [Set(0, 0), Rec(), One(PUSH, 0), CallTo(5), One(RET, 0),
     One(POP, 0), Set(1, 1), Set(2, bound), Three(ADD, 0, 0, 1), One(REG_DUMP, 0), Nejmp(12, 0, 2), One(RET, 0),
     Rec(), One(PUSH, 0), CallTo(5), One(RET, 0)]
  }

  /** The same program without its second REC: what examples/recursive_function_call.caasm assembles to. */
  function RecursionWithoutRec(bound: i32): Program
  {
    [Set(0, 0), Rec(), One(PUSH, 0), CallTo(5), One(RET, 0),
     One(POP, 0), Set(1, 1), Set(2, bound), Three(ADD, 0, 0, 1), One(REG_DUMP, 0), Nejmp(12, 0, 2), One(RET, 0),
     One(PUSH, 0), CallTo(5), One(RET, 0)]
  }

  /** Both of them, with the second REC or without. */
  function Recursion(bound: i32, rec: bool): Program
  {
    if rec then RecursiveFunctionCall(bound) else RecursionWithoutRec(bound)
  }

  lemma RecursionCode(bound: i32, rec: bool)
    ensures var p := Recursion(bound, rec);
            && |p| == (if rec then 16 else 15)
            && p[0] == Set(0, 0) && p[1] == Rec() && p[2] == One(PUSH, 0) && p[3] == CallTo(5) && p[4] == One(RET, 0)
            && p[5] == One(POP, 0) && p[6] == Set(1, 1) && p[7] == Set(2, bound) && p[8] == Three(ADD, 0, 0, 1)
            && p[9] == One(REG_DUMP, 0) && p[10] == Nejmp(12, 0, 2) && p[11] == One(RET, 0)
            && (rec ==> p[12] == Rec() && p[13] == One(PUSH, 0) && p[14] == CallTo(5) && p[15] == One(RET, 0))
            && (!rec ==> p[12] == One(PUSH, 0) && p[13] == CallTo(5) && p[14] == One(RET, 0))
  {
  }

  /** init_machine over register and stack arrays left by whatever ran before. */
  function Fresh(regs: Registers, stack: seq<u8>, frameCount: nat): (s: State)
    ensures Initial(s)
  {
    State(0, Data(regs, stack, 0, 0, []), 0, seq(frameCount, _ => EMPTY_FRAME), true)
  }

  // ----- runs spelled out state by state -----

  ghost predicate IsPath(p: Program, path: seq<State>)
  {
    && path != []
    && forall i | 0 <= i < |path| - 1 :: Edge(p, path[i], path[i + 1])
  }

  predicate Edge(p: Program, s: State, t: State)
  {
    !Halted(p, s) && Step(p, s) == Ok(t)
  }

  /** `n` steps lead from s to t and the call depth stays within `depth` all the way. */
  ghost predicate Runs(p: Program, s: State, n: nat, t: State, depth: nat)
  {
    && Exec(p, s, n) == Ok(t)
    && forall j | 0 <= j <= n :: Exec(p, s, j).Ok? && Exec(p, s, j).state.frames <= depth
  }

  lemma RunsAdd(p: Program, s: State, m: nat, t: State, n: nat, u: State, lower: nat, depth: nat)
    requires lower <= depth && Runs(p, s, m, t, lower) && Runs(p, t, n, u, depth)
    ensures Runs(p, s, m + n, u, depth)
  {
    hide Step;
    ExecAdd(p, s, m, n);
    forall j | 0 <= j <= m + n ensures Exec(p, s, j).Ok? && Exec(p, s, j).state.frames <= depth {
      if j <= m {
        assert Exec(p, s, j).state.frames <= lower;
      } else {
        ExecAdd(p, s, m, j - m);
        assert Exec(p, t, j - m).state.frames <= depth;
      }
    }
  }

  lemma RunsWithin(p: Program, s: State, n: nat, t: State, lower: nat, depth: nat)
    requires Runs(p, s, n, t, lower) && lower <= depth
    ensures Runs(p, s, n, t, depth)
  {
    hide Exec;
    forall j | 0 <= j <= n ensures Exec(p, s, j).Ok? && Exec(p, s, j).state.frames <= depth {
      assert Exec(p, s, j).state.frames <= lower;
    }
  }

  lemma {:induction false} PathRuns(p: Program, path: seq<State>, depth: nat)
    requires IsPath(p, path)
    requires forall i | 0 <= i < |path| :: path[i].frames <= depth
    ensures Runs(p, path[0], |path| - 1, path[|path| - 1], depth)
    decreases |path|
  {
    hide Step;
    if |path| > 1 {
      assert Edge(p, path[0], path[1]);
      var rest := path[1..];
      forall i | 0 <= i < |rest| - 1 ensures Edge(p, rest[i], rest[i + 1]) {
        assert Edge(p, path[i + 1], path[i + 1 + 1]);
      }
      PathRuns(p, rest, depth);
      assert Exec(p, path[0], 1) == Ok(path[1]);
      assert Runs(p, path[0], 1, path[1], depth);
      RunsAdd(p, path[0], 1, path[1], |path| - 2, path[|path| - 1], depth, depth);
    }
  }

  // ----- what the instructions of the native programs do -----

  predicate Ready(p: Program, s: State, op: Op) { !Halted(p, s) && p[s.pc].op == op }

  function Advance(s: State, d: Data): State { s.(pc := s.pc + 1, data := d) }

  lemma DoSet(p: Program, s: State) returns (t: State)
    requires Ready(p, s, SET) && IsReg(p[s.pc].r0)
    ensures Edge(p, s, t)
    ensures t == Advance(s, s.data.(regs := s.data.regs[p[s.pc].r0 := Wrap32(p[s.pc].imm)]))
  {
    t := Step(p, s).state;
  }

  lemma DoBinary(p: Program, s: State) returns (t: State)
    requires !Halted(p, s) && IsBinary(p[s.pc].op)
    requires IsReg(p[s.pc].r0) && IsReg(p[s.pc].r1) && IsReg(p[s.pc].r2)
    requires Binary(p[s.pc].op, s.data.regs[p[s.pc].r1], s.data.regs[p[s.pc].r2]).Success?
    ensures Edge(p, s, t)
    ensures var i, regs := p[s.pc], s.data.regs;
            t == Advance(s, s.data.(regs := regs[i.r0 := Binary(i.op, regs[i.r1], regs[i.r2]).value]))
  {
    t := Step(p, s).state;
  }

  lemma DoCount(p: Program, s: State) returns (t: State)
    requires (Ready(p, s, INC) || Ready(p, s, DEC)) && IsReg(p[s.pc].r0)
    ensures Edge(p, s, t)
    ensures var i, regs := p[s.pc], s.data.regs;
            var change: int := if i.op == INC then 1 else -1;
            t == Advance(s, s.data.(regs := regs[i.r0 := Plus(regs[i.r0], change)]))
  {
    t := Step(p, s).state;
  }

  lemma DoDump(p: Program, s: State) returns (t: State)
    requires Ready(p, s, REG_DUMP)
    ensures Edge(p, s, t) && t == Advance(s, s.data)
  {
    t := Step(p, s).state;
  }

  /** The word at byte `address` is `v`. */
  predicate WordAt(stack: seq<u8>, address: nat, v: u32)
  {
    address + 4 <= |stack| && Decode(stack[address..address + 4]) == v
  }

  lemma DoPush(p: Program, s: State) returns (t: State)
    requires Ready(p, s, PUSH) && IsReg(p[s.pc].r0) && s.data.top + 8 <= |s.data.stack| && s.data.top + 8 < TWO_64
    ensures Edge(p, s, t)
    ensures t == Advance(s, s.data.(top := s.data.top + 4, stack := t.data.stack))
    ensures |t.data.stack| == |s.data.stack|
    ensures WordAt(t.data.stack, s.data.top + 4, s.data.regs[p[s.pc].r0])
    ensures forall a: nat, v | a <= s.data.top && WordAt(s.data.stack, a, v) :: WordAt(t.data.stack, a, v)
  {
    t := Step(p, s).state;
    var v := s.data.regs[p[s.pc].r0];
    DecodeEncode(v);
    assert t.data.stack[s.data.top + 4..s.data.top + 8] == Encode(v);
    forall a: nat, v | a <= s.data.top && WordAt(s.data.stack, a, v) ensures WordAt(t.data.stack, a, v) {
      assert t.data.stack[a..a + 4] == s.data.stack[a..a + 4];
    }
  }

  lemma DoPop(p: Program, s: State, v: u32) returns (t: State)
    requires Ready(p, s, POP) && IsReg(p[s.pc].r0) && 4 <= s.data.top && WordAt(s.data.stack, s.data.top, v)
    ensures Edge(p, s, t)
    ensures t == Advance(s, s.data.(top := s.data.top - 4, regs := s.data.regs[p[s.pc].r0 := v]))
  {
    t := Step(p, s).state;
  }

  lemma DoRec(p: Program, s: State) returns (t: State)
    requires Ready(p, s, REC) && s.frames < |s.mem|
    ensures Edge(p, s, t)
    ensures t == Advance(s, s.data).(mem := s.mem[s.frames := t.mem[s.frames]]) && |t.mem| == |s.mem|
  {
    t := Step(p, s).state;
  }

  lemma DoCall(p: Program, s: State) returns (t: State)
    requires Ready(p, s, CALL) && s.frames < |s.mem| && p[s.pc].imm >= 0
    ensures Edge(p, s, t)
    ensures t == s.(pc := p[s.pc].imm, frames := s.frames + 1, mem := s.mem[s.frames := t.mem[s.frames]])
    ensures |t.mem| == |s.mem| && t.mem[s.frames].rip == s.pc + 2
  {
    t := Step(p, s).state;
  }

  lemma DoRet(p: Program, s: State) returns (t: State)
    requires Ready(p, s, RET) && IsReg(p[s.pc].r0) && s.frames <= |s.mem|
    ensures Edge(p, s, t)
    ensures var d := s.data.(accum := s.data.regs[p[s.pc].r0]);
            t == if s.frames == 0 then Advance(s, d).(running := false)
                 else s.(data := d, pc := ResumeAt(s.mem[s.frames - 1].rip), frames := s.frames - 1,
                         mem := s.mem[s.frames - 1 := EMPTY_FRAME])
  {
    t := Step(p, s).state;
  }

  lemma DoNejmp(p: Program, s: State) returns (t: State)
    requires Ready(p, s, NEJMP) && IsReg(p[s.pc].r1) && IsReg(p[s.pc].r2) && p[s.pc].imm >= 0
    ensures Edge(p, s, t)
    ensures var i, regs := p[s.pc], s.data.regs;
            t == s.(pc := if regs[i.r1] != regs[i.r2] then i.imm else s.pc + 1)
  {
    t := Step(p, s).state;
  }

  lemma DoSave(p: Program, s: State) returns (t: State)
    requires Ready(p, s, DSAVE) && IsReg(p[s.pc].r0) && IsReg(p[s.pc].r1)
    requires s.data.regs[p[s.pc].r1] + 4 <= |s.data.stack|
    ensures Edge(p, s, t)
    ensures t == Advance(s, s.data.(stack := t.data.stack)) && |t.data.stack| == |s.data.stack|
    ensures var a := s.data.regs[p[s.pc].r1];
            t.data.stack[a..a + 4] == Encode(s.data.regs[p[s.pc].r0])
  {
    t := Step(p, s).state;
  }

  lemma DoPrint(p: Program, s: State) returns (t: State)
    requires Ready(p, s, PRINT)
    requires InRange(s.data.stack, s.data.regs[1], s.data.regs[2]) && s.data.regs[2] > 0
    ensures Edge(p, s, t)
    ensures var r := s.data.regs;
            t == Advance(s, s.data.(output := s.data.output + [Output(r[0], Slice(s.data.stack, r[1], r[2]))]))
  {
    t := Step(p, s).state;
  }
}
