/** Programs whose jumps and calls only go forward: how long they can run, how deep they can call,
    and a program that reaches the bound. */
module Termination {
  import opened Words
  import opened Semantics
  import opened CallFrames

  /** No register jump, and every literal target lies after the instruction that names it. */
  predicate IsForward(p: Program)
  {
    forall i | 0 <= i < |p| ::
      && !(p[i].op in {RJMP, ERJMP, NERJMP})
      && (p[i].op in {JMP, EJMP, NEJMP} ==> Wrap32(p[i].imm) > i)
      && (p[i].op == CALL ==> Wrap64(p[i].imm) > i)
  }

  /** The longest a program of `n` instructions can run from `pc` until it stops or returns. */
  function Weight(n: nat, pc: nat): nat
  {
    if pc < n then Pow2(n - pc) - 1 else 0
  }

  function TotalWeight(n: nat, pending: seq<nat>): nat
  {
    if pending == [] then 0
    else TotalWeight(n, pending[..|pending| - 1]) + Weight(n, pending[|pending| - 1])
  }

  /** An upper bound on the steps left. */
  function Budget(n: nat, s: ListState): nat
  {
    TotalWeight(n, s.pending) + if s.running then Weight(n, s.pc) else 0
  }

  lemma {:induction false} WeightHalves(n: nat, pc: nat, later: nat)
    requires pc < n && pc < later
    ensures Weight(n, pc) >= 2 * Weight(n, later) + 1
    decreases later - pc
  {
    if later > pc + 1 {
      WeightHalves(n, pc, later - 1);
      if later < n { assert Pow2(n - (later - 1)) == 2 * Pow2(n - later); }
    } else if later < n {
      assert Pow2(n - pc) == 2 * Pow2(n - later);
    }
  }

  /** Pending return addresses increase strictly up the stack and none lies beyond the pc or behind the
      end of the `n` instructions. */
  predicate Ascending(n: nat, s: ListState)
  {
    && (forall i | 0 <= i < |s.pending| :: i < s.pending[i] <= s.pc && s.pending[i] <= n)
    && (forall i, j | 0 <= i < j < |s.pending| :: s.pending[i] < s.pending[j])
  }

  lemma ForwardFlow(p: Program, s: ListState)
    requires IsForward(p) && s.pc < |p|
    requires Control(p[s.pc], s.data.regs).Success?
    ensures match Control(p[s.pc], s.data.regs).value
            case Goto(a) => a > s.pc
            case Enter(a) => a > s.pc
            case _ => true
  {
  }

  lemma PositiveWeight(n: nat, pc: nat)
    ensures pc < n ==> Weight(n, pc) >= 1
  {
    if pc < n { assert Pow2(n - pc) == 2 * Pow2(n - pc - 1); }
  }

  lemma CallAscending(n: nat, s: ListState, a: nat, d: Data)
    requires s.pc < n && s.pc < a && Ascending(n, s)
    ensures Ascending(n, s.(pc := a, data := d, pending := s.pending + [s.pc + 1])) && |s.pending| < n
  {
    var k := |s.pending|;
    var called := s.pending + [s.pc + 1];
    if k > 0 { assert k - 1 < s.pending[k - 1] <= s.pc; }
    forall i | 0 <= i < k ensures called[i] == s.pending[i] {}
    assert called[k] == s.pc + 1;
  }

  /** A call from instruction pc to a later one. */
  lemma ForwardCall(n: nat, s: ListState, a: nat, d: Data)
    requires s.running && s.pc < n && s.pc < a && Ascending(n, s)
    ensures var t := s.(pc := a, data := d, pending := s.pending + [s.pc + 1]);
            Budget(n, t) < Budget(n, s) && Ascending(n, t)
    ensures |s.pending| < n
  {
    hide Weight, Ascending;
    CallAscending(n, s, a, d);
    WeightHalves(n, s.pc, a);
    WeightHalves(n, s.pc, s.pc + 1);
    assert (s.pending + [s.pc + 1])[..|s.pending|] == s.pending;
  }

  /** A return to the last pending address. */
  lemma ForwardReturn(n: nat, s: ListState, d: Data)
    requires s.running && s.pc < n && s.pending != [] && Ascending(n, s)
    ensures var k := |s.pending| - 1;
            var t := s.(pc := s.pending[k], data := d, pending := s.pending[..k]);
            Budget(n, t) < Budget(n, s) && Ascending(n, t)
  {
    hide Weight;
    PositiveWeight(n, s.pc);
  }

  /** A move to a later instruction without a call. */
  lemma ForwardJump(n: nat, s: ListState, a: nat, d: Data)
    requires s.running && s.pc < n && s.pc < a && Ascending(n, s)
    ensures Budget(n, s.(pc := a, data := d)) < Budget(n, s) && Ascending(n, s.(pc := a, data := d))
  {
    hide Weight;
    PositiveWeight(n, s.pc);
    WeightHalves(n, s.pc, a);
  }

  lemma ForwardStop(n: nat, s: ListState, d: Data)
    requires s.running && s.pc < n && Ascending(n, s)
    ensures var t := s.(pc := s.pc + 1, data := d, running := false); Budget(n, t) < Budget(n, s) && Ascending(n, t)
  {
    hide Weight;
    PositiveWeight(n, s.pc);
  }

  /** Each step uses up budget, keeps the return addresses in order, and never runs out of frames
      when there are as many as instructions. */
  lemma ForwardStep(p: Program, s: ListState)
    requires IsForward(p) && !ListHalted(p, s) && Ascending(|p|, s)
    ensures match ListStep(p, s)
            case Ok(t) => Budget(|p|, t) < Budget(|p|, s) && Ascending(|p|, t) && t.limit == s.limit
            case Fault(e) => |p| <= s.limit ==> e != FrameBounds
            case Stopped => false
  {
    hide DataStep, Control, IsForward, Weight, Budget, Ascending;
    var i, n := p[s.pc], |p|;
    if DataStep(i, s.data).Success? && Control(i, s.data.regs).Success? {
      var d := DataStep(i, s.data).value;
      ForwardFlow(p, s);
      ForwardJump(n, s, s.pc + 1, d);
      ForwardStop(n, s, d);
      match Control(i, s.data.regs).value
      case Goto(a) => ForwardJump(n, s, a, d);
      case Enter(a) => ForwardCall(n, s, a, d);
      case Leave => if s.pending != [] { ForwardReturn(n, s, d); }
      case _ =>
    } else {
      NoFrameFaultInData(i, s.data);
    }
  }

  lemma NoFrameFaultInData(i: Instruction, d: Data)
    ensures DataStep(i, d).Failure? ==> DataStep(i, d).error != FrameBounds
    ensures Control(i, d.regs).Failure? ==> Control(i, d.regs).error != FrameBounds
  {
  }

  lemma {:induction false} ForwardListRun(p: Program, s: ListState, k: nat)
    requires IsForward(p) && Ascending(|p|, s)
    ensures match ListExec(p, s, k)
            case Ok(t) => k + Budget(|p|, t) <= Budget(|p|, s) && Ascending(|p|, t)
            case Fault(e) => |p| <= s.limit ==> e != FrameBounds
            case Stopped => true
    decreases k
  {
    hide ListStep, Budget, Ascending, IsForward;
    if k > 0 && !ListHalted(p, s) {
      ForwardStep(p, s);
      if ListStep(p, s).Ok? { ForwardListRun(p, ListStep(p, s).state, k - 1); }
    }
  }

  /** The run of a forward program of n instructions ends within 2^n - 1 steps. */
  lemma ForwardTerminates(p: Program, s: State, k: nat)
    requires IsForward(p) && Initial(s)
    requires Exec(p, s, k).Ok?
    ensures k <= Pow2(|p|) - 1
    ensures !Exec(p, s, Pow2(|p|)).Ok?
  {
    ExecRefines(p, s, k);
    ForwardListRun(p, Abstract(s), k);
    if Exec(p, s, Pow2(|p|)).Ok? {
      ExecRefines(p, s, Pow2(|p|));
      ForwardListRun(p, Abstract(s), Pow2(|p|));
    }
  }

  /** At every point of such a run the pending return addresses increase strictly, the depth is at
      most the number of instructions and at most the pc, and with one frame per instruction no step
      leaves the frame array. */
  lemma ForwardDepth(p: Program, s: State, k: nat)
    requires IsForward(p) && Initial(s)
    ensures match Exec(p, s, k)
            case Ok(t) =>
              && t.frames <= |p| && t.frames <= t.pc && t.frames <= |t.mem|
              && (forall i, j | 0 <= i < j < t.frames :: t.mem[i].rip < t.mem[j].rip)
            case Fault(e) => |p| <= |s.mem| ==> e != FrameBounds
            case Stopped => true
  {
    ExecRefines(p, s, k);
    ForwardListRun(p, Abstract(s), k);
    match Exec(p, s, k)
    case Ok(t) =>
      var l := Abstract(t);
      if t.frames > 0 { assert t.frames - 1 < l.pending[t.frames - 1] <= t.pc; }
      forall i, j | 0 <= i < j < t.frames ensures t.mem[i].rip < t.mem[j].rip {
        LiveRips(p, s, k);
        assert l.pending[i] < l.pending[j];
      }
    case Fault(e) =>
      if |p| <= |s.mem| && MeetsFullRec(p, s, k) {
        var m :| 0 <= m < k && Exec(p, s, m).Ok? && RecAtFull(p, Exec(p, s, m).state);
        NoFullRec(p, s, m);
      }
    case Stopped =>
  }

  lemma NoFullRec(p: Program, s: State, m: nat)
    requires IsForward(p) && Initial(s) && |p| <= |s.mem| && Exec(p, s, m).Ok?
    ensures !RecAtFull(p, Exec(p, s, m).state)
  {
    var u := Exec(p, s, m).state;
    ExecRefines(p, s, m);
    ForwardListRun(p, Abstract(s), m);
    if u.frames > 0 { assert u.frames - 1 < Abstract(u).pending[u.frames - 1] <= u.pc; }
  }

  /** Live slots were all written by a CALL, so their instruction pointers are at least 2. */
  lemma {:induction false} LiveRips(p: Program, s: State, k: nat)
    requires s.frames == 0 && Exec(p, s, k).Ok?
    ensures var t := Exec(p, s, k).state;
            t.frames <= |t.mem| && forall i | 0 <= i < t.frames :: t.mem[i].rip >= 2
    decreases k
  {
    hide Step;
    if k > 0 {
      ExecPrefix(p, s, k - 1, k);
      LiveRips(p, s, k - 1);
      ExecLast(p, s, k - 1);
      var u, t := Exec(p, s, k - 1).state, Exec(p, s, k).state;
      StepFrames(p, u);
      forall i | 0 <= i < t.frames ensures t.mem[i].rip >= 2 {
        if i < u.frames {
          assert t.mem[i] == t.mem[..t.frames][i];
          assert u.mem[i] == u.mem[..u.frames][i];
        }
      }
    }
  }

  // ----- the bound is attained -----

  /** n - 1 calls, each to the next instruction, and a return. */
  function Ladder(n: nat): (p: Program)
    requires 0 < n < 0x8000_0000
    ensures |p| == n
  {
    seq(n, i requires 0 <= i < n =>
          if i < n - 1 then Instruction(CALL, 0, 0, 0, i + 1) else Instruction(RET, 0, 0, 0, 0))
  }

  lemma LadderStep(n: nat, s: ListState)
    requires 0 < n < 0x8000_0000 && s.pc < n
    ensures s.pc < n - 1 && |s.pending| < s.limit ==>
              ListStep(Ladder(n), s) == Ok(s.(pc := s.pc + 1, pending := s.pending + [s.pc + 1]))
    ensures s.pc == n - 1 ==>
              match ListStep(Ladder(n), s)
              case Ok(t) =>
                var d := |s.pending|;
                && t.limit == s.limit
                && if d == 0 then !t.running
                   else t.running == s.running && t.pc == s.pending[d - 1] && t.pending == s.pending[..d - 1]
              case _ => false
  {
  }

  /** From rung i the ladder takes 2^(n-i) - 1 steps to come back to a waiting caller, or to stop
      when there is none. */
  lemma {:induction false} LadderRuns(n: nat, i: nat, s: ListState)
    requires 0 < n < 0x8000_0000 && i < n
    requires s.pc == i && s.running && |s.pending| + (n - 1 - i) <= s.limit
    ensures match ListExec(Ladder(n), s, Pow2(n - i) - 1)
            case Ok(t) =>
              var d := |s.pending|;
              && t.limit == s.limit
              && if d == 0 then !t.running
                 else t.running && t.pc == s.pending[d - 1] && t.pending == s.pending[..d - 1]
            case _ => false
    decreases n - i
  {
    hide DataStep, Control, ListMove, Ladder;
    var p := Ladder(n);
    LadderStep(n, s);
    var t := ListStep(p, s).state;
    if i == n - 1 {
      assert Pow2(1) == 2;
      assert ListExec(p, t, 0) == Ok(t);
      assert ListExec(p, s, 1) == Ok(t);
    } else {
      var half := Pow2(n - i - 1) - 1;
      assert Pow2(n - i) - 1 == 1 + (half + half);
      LadderRuns(n, i + 1, t);
      var u := ListExec(p, t, half).state;
      assert u.pending == s.pending;
      LadderRuns(n, i + 1, u);
      ListExecAdd(p, t, half, half);
      assert ListExec(p, s, 1 + (half + half)) == ListExec(p, t, half + half);
    }
  }

  lemma {:induction false} ListExecAdd(p: Program, s: ListState, m: nat, n: nat)
    requires ListExec(p, s, m).Ok?
    ensures ListExec(p, s, m + n) == ListExec(p, ListExec(p, s, m).state, n)
    decreases m
  {
    hide ListStep;
    if m > 0 { ListExecAdd(p, ListStep(p, s).state, m - 1, n); }
  }

  /** For every length the bound is the best possible: some forward program of n instructions runs
      for exactly 2^n - 1 steps and then halts. */
  lemma BoundIsTight(n: nat, s: State)
    requires 0 < n < 0x8000_0000 && n - 1 <= |s.mem| && Initial(s)
    ensures IsForward(Ladder(n))
    ensures var t := Exec(Ladder(n), s, Pow2(n) - 1); t.Ok? && Halted(Ladder(n), t.state)
  {
    hide Step, ListStep;
    var p, k := Ladder(n), Pow2(n) - 1;
    LadderRuns(n, 0, Abstract(s));
    ExecRefines(p, s, k);
    assert !MeetsFullRec(p, s, k);
  }
}
