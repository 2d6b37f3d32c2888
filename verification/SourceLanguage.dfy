/** The integer fragment of the assembly language as a language of its own: lines, statements and
    label names, with a step-by-step meaning that knows no addresses. */
module SourceLanguage {
  import opened Words
  import opened Semantics

  datatype Target = ToLabel(name: string) | ToAddress(n: nat)

  datatype Statement =
    | Bare(op: Op)                                            // halt, rec, print
    | Unary(op: Op, r: i8)                                    // inc, dec, push, pop, ret, regdump
    | Copy(op: Op, rd: i8, rs: i8)                            // cu2i, ci2u
    | Load(rd: i8, value: nat)                                // set
    | Arith(op: Op, rd: i8, ra: i8, rb: i8)                   // add .. cmpl
    | Jump(target: Target)                                    // jmp
    | CallTo(target: Target)                                  // call
    | JumpIf(onEqual: bool, target: Target, ra: i8, rb: i8)   // ejmp, nejmp

  datatype Item = Blank | Declaration(name: string) | Do(statement: Statement)

  type Source = seq<Item>

  // ----- positions -----

  /** The first statement at or after line `at`, or the end. */
  function NextStatement(src: Source, at: nat): (line: nat)
    requires at <= |src|
    ensures at <= line <= |src| && (line < |src| ==> src[line].Do?)
    decreases |src| - at
  {
    if at == |src| || src[at].Do? then at else NextStatement(src, at + 1)
  }

  /** The first line from `at` on that declares `name`, or the end. */
  function DeclarationLine(src: Source, name: string, at: nat): (line: nat)
    requires at <= |src|
    ensures at <= line <= |src|
    decreases |src| - at
  {
    if at == |src| || src[at] == Declaration(name) then at else DeclarationLine(src, name, at + 1)
  }

  /** The line of the n-th statement from `at` on, or the end. */
  function StatementLine(src: Source, n: nat, at: nat): (line: nat)
    requires at <= |src|
    ensures at <= line <= |src|
    decreases |src| - at
  {
    var line := NextStatement(src, at);
    if n == 0 || line == |src| then line else StatementLine(src, n - 1, line + 1)
  }

  function TargetLine(src: Source, t: Target): (line: nat)
    ensures line <= |src|
  {
    match t
    case ToLabel(name) => DeclarationLine(src, name, 0)
    case ToAddress(n) => StatementLine(src, n, 0)
  }

  // ----- meaning -----

  datatype SourceState = SourceState(at: nat, data: Data, pending: seq<nat>, limit: nat, running: bool)

  function Effect(s: Statement, d: Data): Result<Data>
  {
    match s
    case Bare(op) => if op == PRINT then Print(d) else Success(d)
    case Unary(op, r) =>
      if op == POP then Pop(d, r)
      else if op == REG_DUMP then Success(d)
      else if !IsReg(r) then Failure(BadRegister)
      else if op == PUSH then Push(d, d.regs[r])
      else if op == INC then SetReg(d, r, Plus(d.regs[r], 1))
      else if op == DEC then SetReg(d, r, Plus(d.regs[r], -1))
      else Success(d.(accum := d.regs[r]))
    case Copy(_, rd, rs) => if IsReg(rs) then SetReg(d, rd, d.regs[rs]) else Failure(BadRegister)
    case Load(rd, value) => SetReg(d, rd, Wrap32(value))
    case Arith(op, rd, ra, rb) =>
      if !IsBinary(op) || !IsReg(ra) || !IsReg(rb) then Failure(BadRegister) else
      (match Binary(op, d.regs[ra], d.regs[rb])
       case Failure(e) => Failure(e)
       case Success(v) => SetReg(d, rd, v))
    case Jump(_) => Success(d)
    case CallTo(_) => Success(d)
    case JumpIf(_, _, ra, rb) => if IsReg(ra) && IsReg(rb) then Success(d) else Failure(BadRegister)
  }

  predicate SourceHalted(src: Source, s: SourceState)
  {
    !s.running || s.at > |src| || NextStatement(src, s.at) == |src|
  }

  /** Where a statement on line `line` goes after its effect left data `d`. */
  function Continue(src: Source, s: SourceState, line: nat, statement: Statement, d: Data): Outcome<SourceState>
  {
    var after := s.(at := line + 1, data := d);
    match statement
    case Bare(op) => Ok(if op == HALT then after.(running := false) else after)
    case Unary(op, _) =>
      var n := |s.pending|;
      if op != RET then Ok(after)
      else if n == 0 then Ok(after.(running := false))
      else Ok(after.(at := s.pending[n - 1], pending := s.pending[..n - 1]))
    case Jump(t) => Ok(after.(at := TargetLine(src, t)))
    case CallTo(t) =>
      if |s.pending| < s.limit then Ok(after.(at := TargetLine(src, t), pending := s.pending + [line + 1]))
      else Fault(FrameBounds)
    case JumpIf(onEqual, t, ra, rb) =>
      if IsReg(ra) && IsReg(rb) && (d.regs[ra] == d.regs[rb]) == onEqual then Ok(after.(at := TargetLine(src, t)))
      else Ok(after)
    case _ => Ok(after)
  }

  function SourceStep(src: Source, s: SourceState): Outcome<SourceState>
    requires !SourceHalted(src, s)
  {
    var line := NextStatement(src, s.at);
    var statement := src[line].statement;
    match Effect(statement, s.data)
    case Failure(e) => Fault(e)
    case Success(d) => Continue(src, s, line, statement, d)
  }

  function SourceExec(src: Source, s: SourceState, n: nat): Outcome<SourceState>
    decreases n
  {
    if n == 0 then Ok(s)
    else if SourceHalted(src, s) then Stopped
    else
      match SourceStep(src, s)
      case Ok(t) => SourceExec(src, t, n - 1)
      case Fault(e) => Fault(e)
      case Stopped => Stopped
  }
}
