/** Register jumps against literal jumps: as long as a register holds an address whenever a jump reads
    it, jumping through the register and jumping to the literal address are the same program. */
module RegisterJumps {
  import opened Words
  import opened Semantics

  predicate JumpsThrough(i: Instruction, r: i8) { i.r0 == r && i.op in {RJMP, ERJMP, NERJMP} }

  /** A jump through register `r` with the address written out; other instructions stay. */
  function LiteralJump(i: Instruction, r: i8, address: i32): Instruction
  {
    if i.r0 != r then i
    else
      match i.op
      case RJMP => i.(op := JMP, imm := address)
      case ERJMP => i.(op := EJMP, imm := address)
      case NERJMP => i.(op := NEJMP, imm := address)
      case _ => i
  }

  function WithLiteralJumps(p: Program, r: i8, address: i32): (q: Program)
    ensures |q| == |p|
  {
    seq(|p|, k requires 0 <= k < |p| => LiteralJump(p[k], r, address))
  }

  lemma LiteralJumpSame(i: Instruction, r: i8, address: i32, d: Data)
    requires IsReg(r) && (JumpsThrough(i, r) ==> d.regs[r] == Wrap32(address))
    ensures DataStep(LiteralJump(i, r, address), d) == DataStep(i, d)
    ensures Control(LiteralJump(i, r, address), d.regs) == Control(i, d.regs)
  {
    hide Wrap32, Binary, Push, Pop, Print, SetReg, LoadWord, SaveWord;
  }

  /** The jump about to read register `r`, if there is one, finds the address there. */
  predicate JumpFinds(p: Program, s: State, r: i8, address: i32)
    requires IsReg(r)
  {
    !Halted(p, s) && JumpsThrough(p[s.pc], r) ==> s.data.regs[r] == Wrap32(address)
  }

  ghost predicate JumpsFind(p: Program, s: State, n: nat, r: i8, address: i32)
    requires IsReg(r)
  {
    forall k | 0 <= k < n && Exec(p, s, k).Ok? :: JumpFinds(p, Exec(p, s, k).state, r, address)
  }

  lemma JumpsFindNow(p: Program, s: State, n: nat, r: i8, address: i32)
    requires IsReg(r) && n > 0 && JumpsFind(p, s, n, r, address)
    ensures JumpFinds(p, s, r, address)
  {
    hide JumpFinds;
    assert Exec(p, s, 0) == Ok(s);
  }

  lemma JumpsFindLater(p: Program, s: State, n: nat, r: i8, address: i32)
    requires IsReg(r) && n > 0 && JumpsFind(p, s, n, r, address) && !Halted(p, s) && Step(p, s).Ok?
    ensures JumpsFind(p, Step(p, s).state, n - 1, r, address)
  {
    hide Step, JumpFinds;
    forall k | 0 <= k < n - 1 ensures Exec(p, s, k + 1) == Exec(p, Step(p, s).state, k) {}
  }

  /** As long as every jump through the register finds the address in it, whatever the register holds in
      between, a run through the register is the run with the literal address, fault for fault. */
  lemma {:induction false} RegisterJumpsAreLiteralJumps(p: Program, s: State, n: nat, r: i8, address: i32)
    requires IsReg(r) && JumpsFind(p, s, n, r, address)
    ensures Exec(WithLiteralJumps(p, r, address), s, n) == Exec(p, s, n)
    decreases n
  {
    hide DataStep, Control, Move, Wrap32, LiteralJump, JumpsFind;
    if n > 0 && !Halted(p, s) {
      JumpsFindNow(p, s, n, r, address);
      LiteralJumpSame(p[s.pc], r, address, s.data);
      if Step(p, s).Ok? {
        JumpsFindLater(p, s, n, r, address);
        RegisterJumpsAreLiteralJumps(p, Step(p, s).state, n - 1, r, address);
      }
    }
  }

  // ----- registers a program never writes -----

  predicate Writes(i: Instruction, r: i8)
  {
    i.r0 == r && (IsBinary(i.op) || i.op in {POP, GETAC, INC, DEC, DLOAD, SET, CU2I, CI2U})
  }

  lemma UnwrittenKept(i: Instruction, d: Data, r: i8)
    requires IsReg(r) && !Writes(i, r) && DataStep(i, d).Success?
    ensures DataStep(i, d).value.regs[r] == d.regs[r]
  {
    hide Wrap32, Wrap64, Binary, Decode, Encode, LoadWord, SaveWord;
  }

  lemma MoveSetsData(f: Flow, s: State, d: Data)
    ensures Move(f, s, d).Ok? ==> Move(f, s, d).state.data == d
  {
  }

  lemma {:induction false} UnwrittenHolds(p: Program, s: State, n: nat, r: i8)
    requires IsReg(r) && Exec(p, s, n).Ok? && forall k | 0 <= k < |p| :: !Writes(p[k], r)
    ensures Exec(p, s, n).state.data.regs[r] == s.data.regs[r]
    decreases n
  {
    hide DataStep, Control, Move, Writes;
    if n > 0 {
      var i := p[s.pc];
      UnwrittenKept(i, s.data, r);
      MoveSetsData(Control(i, s.data.regs).value, s, DataStep(i, s.data).value);
      UnwrittenHolds(p, Step(p, s).state, n - 1, r);
    }
  }

  /** That is every run that starts with the address in the register, if the program never writes it. */
  lemma UnwrittenRegisterJumps(p: Program, s: State, n: nat, r: i8, address: i32)
    requires IsReg(r) && s.data.regs[r] == Wrap32(address) && forall k | 0 <= k < |p| :: !Writes(p[k], r)
    ensures Exec(WithLiteralJumps(p, r, address), s, n) == Exec(p, s, n)
  {
    hide Exec, Wrap32, Writes, WithLiteralJumps;
    forall k | 0 <= k < n && Exec(p, s, k).Ok? ensures JumpFinds(p, Exec(p, s, k).state, r, address) {
      UnwrittenHolds(p, s, k, r);
    }
    RegisterJumpsAreLiteralJumps(p, s, n, r, address);
  }
}
