/** A program whose instructions are the compiled statements of a source runs in step with it. */
module Simulation {
  import opened Words
  import opened Semantics
  import opened CallFrames
  import opened SourceLanguage

  /** The number of statements before a line: the address of what stands there. */
  function Address(src: Source, at: nat): nat
    requires at <= |src|
  {
    if at == 0 then 0 else Address(src, at - 1) + if src[at - 1].Do? then 1 else 0
  }

  function TargetAddress(src: Source, t: Target): nat
  {
    match t
    case ToLabel(name) => Address(src, DeclarationLine(src, name, 0))
    case ToAddress(n) => n
  }

  /** Statements of the fragment whose branches name r0 first, as the machine reads them. */
  predicate IsSupported(s: Statement)
  {
    match s
    case Bare(op) => op in {HALT, REC, PRINT}
    case Unary(op, _) => op in {INC, DEC, PUSH, POP, RET, REG_DUMP}
    case Copy(op, _, _) => op in {CU2I, CI2U}
    case Arith(op, _, _, _) => IsBinary(op)
    case JumpIf(_, _, ra, _) => ra == 0
    case _ => true
  }

  predicate FitsInt(n: nat) { n < 0x8000_0000 }

  /** The instruction of a statement; a target too large for an int has none. */
  function Compile(src: Source, s: Statement): Option<Instruction>
  {
    match s
    case Bare(op) => Some(Instruction(op, 0, 0, 0, 0))
    case Unary(op, r) => Some(Instruction(op, r, 0, 0, 0))
    case Copy(op, rd, rs) => Some(Instruction(op, rd, rs, 0, 0))
    case Load(rd, value) => if FitsInt(value) then Some(Instruction(SET, rd, 0, 0, value)) else None
    case Arith(op, rd, ra, rb) => Some(Instruction(op, rd, ra, rb, 0))
    case Jump(t) =>
      if FitsInt(TargetAddress(src, t)) then Some(Instruction(JMP, 0, 0, 0, TargetAddress(src, t))) else None
    case CallTo(t) =>
      if FitsInt(TargetAddress(src, t)) then Some(Instruction(CALL, 0, 0, 0, TargetAddress(src, t))) else None
    case JumpIf(onEqual, t, ra, rb) =>
      if FitsInt(TargetAddress(src, t))
      then Some(Instruction(if onEqual then EJMP else NEJMP, ra, rb, 0, TargetAddress(src, t))) else None
  }

  /** `p` holds, at the address of every statement line, the instruction of that statement. */
  ghost predicate IsCompiled(src: Source, p: Program)
  {
    && |p| == Address(src, |src|)
    && (forall i | 0 <= i < |src| && src[i].Do? ::
          && IsSupported(src[i].statement)
          && Address(src, i) < |p| && Compile(src, src[i].statement) == Some(p[Address(src, i)]))
  }

  // ----- addresses of positions -----

  lemma {:induction false} AddressMonotone(src: Source, a: nat, b: nat)
    requires a <= b <= |src|
    ensures Address(src, a) <= Address(src, b)
    decreases b
  {
    if a < b { AddressMonotone(src, a, b - 1); }
  }

  lemma {:induction false} NextStatementAddress(src: Source, at: nat)
    requires at <= |src|
    ensures var line := NextStatement(src, at);
            Address(src, line) == Address(src, at) && (line == |src| <==> Address(src, at) == Address(src, |src|))
    decreases |src| - at
  {
    if at < |src| {
      if src[at].Do? {
        AddressMonotone(src, at + 1, |src|);
      } else {
        NextStatementAddress(src, at + 1);
      }
    }
  }

  lemma {:induction false} StatementLineAddress(src: Source, n: nat, at: nat)
    requires at <= |src|
    ensures var a, end := Address(src, at) + n, Address(src, |src|);
            Address(src, StatementLine(src, n, at)) == if a <= end then a else end
    decreases |src| - at
  {
    AddressMonotone(src, at, |src|);
    NextStatementAddress(src, at);
    var line := NextStatement(src, at);
    if n > 0 && line < |src| { StatementLineAddress(src, n - 1, line + 1); }
  }

  function AtMost(n: nat, limit: nat): nat { if n <= limit then n else limit }

  /** A jump target of the machine is the address of the target line, or both lie at the end. */
  lemma TargetLineAddress(src: Source, t: Target)
    ensures Address(src, TargetLine(src, t)) == AtMost(TargetAddress(src, t), Address(src, |src|))
  {
    match t
    case ToLabel(name) => AddressMonotone(src, TargetLine(src, t), |src|);
    case ToAddress(n) => StatementLineAddress(src, n, 0);
  }

  // ----- the relation between the two machines -----

  ghost predicate Matches(src: Source, s: SourceState, l: ListState)
  {
    && s.data == l.data && s.running == l.running && s.limit == l.limit
    && s.at <= |src| && Address(src, s.at) == AtMost(l.pc, Address(src, |src|))
    && |s.pending| == |l.pending|
    && (forall i | 0 <= i < |s.pending| :: s.pending[i] <= |src| && Address(src, s.pending[i]) == l.pending[i])
  }

  /** A compiled statement does to the data what the statement says. */
  lemma {:induction false} CompiledEffect(src: Source, s: Statement, d: Data)
    requires IsSupported(s) && Compile(src, s).Some?
    ensures var i := Compile(src, s).value;
            match Effect(s, d)
            case Success(e) => DataStep(i, d) == Success(e)
            case Failure(e) => DataStep(i, d) == Failure(e) || (s.JumpIf? && DataStep(i, d) == Success(d))
  {
    hide Push, Pop, Print, SetReg, Binary, TargetAddress;
  }

  lemma SmallTarget(a: nat)
    requires FitsInt(a)
    ensures Wrap32(a) == a && Wrap64(a) == a
  {
  }

  /** Where control goes after a statement. */
  function FlowOf(src: Source, s: Statement, regs: Registers): Flow
  {
    match s
    case Bare(op) => if op == HALT then Stop else if op == REC then Record else Next
    case Unary(op, _) => if op == RET then Leave else Next
    case Jump(t) => Goto(TargetAddress(src, t))
    case CallTo(t) => Enter(TargetAddress(src, t))
    case JumpIf(onEqual, t, ra, rb) =>
      if IsReg(ra) && IsReg(rb) then Branch((regs[ra] == regs[rb]) == onEqual, TargetAddress(src, t)) else Next
    case _ => Next
  }

  /** ... and sends control where the statement says. */
  lemma CompiledControl(src: Source, s: Statement, regs: Registers)
    requires IsSupported(s) && Compile(src, s).Some?
    ensures Control(Compile(src, s).value, regs)
            == if s.JumpIf? && !IsReg(s.rb) then Failure(BadRegister) else Success(FlowOf(src, s, regs))
  {
    hide TargetAddress, Wrap32, Wrap64;
    match s
    case Jump(t) => SmallTarget(TargetAddress(src, t));
    case CallTo(t) => SmallTarget(TargetAddress(src, t));
    case JumpIf(_, t, _, _) => SmallTarget(TargetAddress(src, t));
    case _ =>
  }

  /** ejmp and nejmp, as assembled, compare the registers they name exactly when the first of them is
      r0: the macro fills slots 0 and 1 and the machine compares slots 1 and 2. */
  lemma BranchAsNamedIffFirstIsR0(ra: i8, rb: i8, target: nat)
    requires IsReg(ra) && IsReg(rb) && FitsInt(target)
    ensures (forall regs: Registers :: Control(Instruction(EJMP, ra, rb, 0, target), regs)
                                       == Success(Branch(regs[ra] == regs[rb], target))) <==> ra == 0
    ensures (forall regs: Registers :: Control(Instruction(NEJMP, ra, rb, 0, target), regs)
                                       == Success(Branch(regs[ra] != regs[rb], target))) <==> ra == 0
  {
    SmallTarget(target);
    if ra != 0 {
      var regs: Registers := seq(REG_COUNT, i => if i == 0 then 1 else 0);
      var only: Registers := seq(REG_COUNT, i => if i == ra as int then 1 else 0);
      var at := if ra == rb then regs else only;
      assert Control(Instruction(EJMP, ra, rb, 0, target), at) != Success(Branch(at[ra] == at[rb], target));
      assert Control(Instruction(NEJMP, ra, rb, 0, target), at) != Success(Branch(at[ra] != at[rb], target));
    }
  }

  /** The machine stands at the instruction of the statement the source is about to execute. */
  lemma SameStatement(src: Source, p: Program, s: SourceState, l: ListState)
    requires IsCompiled(src, p) && Matches(src, s, l)
    ensures SourceHalted(src, s) <==> ListHalted(p, l)
    ensures !SourceHalted(src, s) ==>
              var line := NextStatement(src, s.at);
              && src[line].Do? && Address(src, line) == l.pc
              && IsSupported(src[line].statement) && Compile(src, src[line].statement) == Some(p[l.pc])
  {
    hide Compile, IsSupported;
    NextStatementAddress(src, s.at);
    AddressMonotone(src, s.at, |src|);
  }

  /** Falling through a statement line is advancing the pc. */
  lemma FallThrough(src: Source, s: SourceState, l: ListState, line: nat, d: Data)
    requires Matches(src, s, l) && line < |src| && src[line].Do? && Address(src, line) == l.pc
    ensures Address(src, line + 1) == l.pc + 1
    ensures Matches(src, s.(at := line + 1, data := d), l.(pc := l.pc + 1, data := d))
  {
    AddressMonotone(src, line + 1, |src|);
  }

  lemma JumpsMatch(src: Source, s: SourceState, l: ListState, t: Target, d: Data)
    requires Matches(src, s, l)
    ensures Matches(src, s.(at := TargetLine(src, t), data := d), l.(pc := TargetAddress(src, t), data := d))
  {
    hide TargetLine, TargetAddress;
    TargetLineAddress(src, t);
  }

  lemma CallsMatch(src: Source, s: SourceState, l: ListState, line: nat, t: Target, d: Data)
    requires Matches(src, s, l) && line < |src| && src[line].Do? && Address(src, line) == l.pc
    ensures Matches(src, s.(at := TargetLine(src, t), data := d, pending := s.pending + [line + 1]),
                    l.(pc := TargetAddress(src, t), data := d, pending := l.pending + [l.pc + 1]))
  {
    hide TargetLine, TargetAddress;
    TargetLineAddress(src, t);
  }

  lemma ReturnsMatch(src: Source, s: SourceState, l: ListState, d: Data)
    requires Matches(src, s, l) && s.pending != []
    ensures var n := |s.pending| - 1;
            Matches(src, s.(at := s.pending[n], data := d, pending := s.pending[..n]),
                    l.(pc := l.pending[n], data := d, pending := l.pending[..n]))
  {
    AddressMonotone(src, s.pending[|s.pending| - 1], |src|);
  }

  lemma StopsMatch(src: Source, s: SourceState, l: ListState)
    requires Matches(src, s, l)
    ensures Matches(src, s.(running := false), l.(running := false))
  {
  }

  lemma MatchesData(src: Source, s: SourceState, l: ListState)
    requires Matches(src, s, l)
    ensures s.data == l.data && |s.pending| == |l.pending| && s.limit == l.limit
  {
  }

  /** After the data effect the two machines move to matching positions. */
  lemma {:induction false} MovesMatch(src: Source, s: SourceState, l: ListState, line: nat, st: Statement, d: Data)
    requires Matches(src, s, l) && line < |src| && src[line] == Do(st) && Address(src, line) == l.pc
    requires st.JumpIf? ==> d == s.data
    ensures match Continue(src, s, line, st, d)
            case Ok(t) => ListMove(FlowOf(src, st, l.data.regs), l, d).Ok?
                          && Matches(src, t, ListMove(FlowOf(src, st, l.data.regs), l, d).state)
            case Fault(e) => ListMove(FlowOf(src, st, l.data.regs), l, d) == Fault(e)
            case Stopped => false
  {
    hide TargetAddress, TargetLine, Address, Matches;
    MatchesData(src, s, l);
    FallThrough(src, s, l, line, d);
    StopsMatch(src, s.(at := line + 1, data := d), l.(pc := l.pc + 1, data := d));
    match st
    case Unary(op, r) => if s.pending != [] { ReturnsMatch(src, s, l, d); }
    case Jump(t) => JumpsMatch(src, s, l, t, d);
    case CallTo(t) => CallsMatch(src, s, l, line, t, d);
    case JumpIf(_, t, _, _) => JumpsMatch(src, s, l, t, d);
    case _ =>
  }

  lemma EffectOfBranch(s: Statement, d: Data)
    requires s.JumpIf? && IsSupported(s)
    ensures Effect(s, d) == if IsReg(s.rb) then Success(d) else Failure(BadRegister)
  {
  }

  lemma {:induction false} StepSimulates(src: Source, p: Program, s: SourceState, l: ListState)
    requires IsCompiled(src, p) && Matches(src, s, l) && !SourceHalted(src, s)
    ensures l.pc < |p| && !ListHalted(p, l)
    ensures match SourceStep(src, s)
            case Ok(t) => ListStep(p, l).Ok? && Matches(src, t, ListStep(p, l).state)
            case Fault(e) => ListStep(p, l) == Fault(e)
            case Stopped => false
  {
    hide Control, Compile, DataStep, ListMove, Continue, Effect, IsCompiled, Matches, IsSupported, FlowOf;
    SameStatement(src, p, s, l);
    MatchesData(src, s, l);
    var line := NextStatement(src, s.at);
    var st := src[line].statement;
    CompiledEffect(src, st, s.data);
    CompiledControl(src, st, l.data.regs);
    if st.JumpIf? { EffectOfBranch(st, s.data); }
    if Effect(st, s.data).Success? { MovesMatch(src, s, l, line, st, Effect(st, s.data).value); }
  }

  /** Every run of the compiled program is, step for step, a run of the source: it halts when the
      source halts, faults when the source faults, and otherwise keeps matching it. */
  lemma {:induction false} ProgramSimulatesSource(src: Source, p: Program, s: SourceState, l: ListState, n: nat)
    requires IsCompiled(src, p) && Matches(src, s, l)
    ensures match SourceExec(src, s, n)
            case Ok(t) => ListExec(p, l, n).Ok? && Matches(src, t, ListExec(p, l, n).state)
            case Stopped => ListExec(p, l, n) == Stopped
            case Fault(e) => ListExec(p, l, n) == Fault(e)
    decreases n
  {
    hide IsCompiled, Matches, SourceStep, ListStep, SourceHalted;
    if n > 0 {
      SameStatement(src, p, s, l);
      if !SourceHalted(src, s) {
        StepSimulates(src, p, s, l);
        match SourceStep(src, s)
        case Ok(t) => ProgramSimulatesSource(src, p, t, ListStep(p, l).state, n - 1);
        case _ =>
      }
    }
  }
}
