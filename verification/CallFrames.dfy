/** Calls and returns: matching of CALL with RET, the frame array as a plain list of return
    addresses, and the fact that REC leaves no trace. */
module CallFrames {
  import opened Semantics

  // ----- a RET brings back exactly the frame of its CALL -----

  /** The step from s to t was a RET, and the accumulator holds the register it names. */
  predicate ReturnedBy(p: Program, s: State, t: State)
  {
    Fetches(p, s, RET) && IsReg(p[s.pc].r0) && t.data.accum == s.data.regs[p[s.pc].r0]
  }

  /** One step opens a frame above the live ones, closes the last one, or leaves all of them alone. */
  lemma StepFrames(p: Program, s: State)
    requires s.frames <= |s.mem| && s.pc < |p| && Step(p, s).Ok?
    ensures var t := Step(p, s).state;
            && t.frames <= |t.mem| == |s.mem|
            && (|| (t.frames == s.frames + 1 && Fetches(p, s, CALL) && t.mem[..s.frames] == s.mem[..s.frames]
                    && t.mem[s.frames].rip == s.pc + 2)
                || (t.frames == s.frames && t.mem[..s.frames] == s.mem[..s.frames])
                || (t.frames == s.frames - 1 && Fetches(p, s, RET) && t.mem[..t.frames] == s.mem[..t.frames]
                    && t.pc == ResumeAt(s.mem[t.frames].rip)))
            && (Fetches(p, s, RET) ==> ReturnedBy(p, s, t))
  {
    hide DataStep;
    if Fetches(p, s, RET) { RetSavesRegister(p[s.pc], s.data); }
  }

  lemma RetSavesRegister(i: Instruction, d: Data)
    requires i.op == RET && DataStep(i, d).Success?
    ensures IsReg(i.r0) && DataStep(i, d).value.accum == d.regs[i.r0]
  {
  }

  /** While more than `n` frames are live, slots 0..n stay as they are; the first state with `n`
      frames or less has exactly `n` and sits at the return address of slot `n`. */
  lemma {:induction false} SegmentKeepsFrames(p: Program, u: State, k: nat, n: nat)
    requires n < u.frames <= |u.mem|
    requires forall j | 0 <= j <= k :: Exec(p, u, j).Ok?
    requires forall j | 0 <= j < k :: Exec(p, u, j).state.frames > n
    ensures var t := Exec(p, u, k).state;
            && n <= t.frames <= |t.mem| == |u.mem|
            && t.mem[..n] == u.mem[..n]
            && if t.frames > n then t.mem[n] == u.mem[n]
               else k > 0 && t.pc == ResumeAt(u.mem[n].rip) && ReturnedBy(p, Exec(p, u, k - 1).state, t)
    decreases k
  {
    hide Step;
    if k > 0 {
      SegmentKeepsFrames(p, u, k - 1, n);
      ExecLast(p, u, k - 1);
      var s := Exec(p, u, k - 1).state;
      StepFrames(p, s);
      var t := Exec(p, u, k).state;
      assert t.mem[..n] == s.mem[..s.frames][..n] == s.mem[..n];
      if t.frames > n { assert t.mem[n] == t.mem[..n + 1][n] == s.mem[..n + 1][n]; }
    }
  }

  lemma CallOpens(p: Program, s: State)
    requires Fetches(p, s, CALL) && s.frames <= |s.mem| && Step(p, s).Ok?
    ensures var t := Step(p, s).state;
            && t.frames == s.frames + 1 <= |t.mem| == |s.mem|
            && t.mem[..s.frames] == s.mem[..s.frames] && t.mem[s.frames].rip == s.pc + 2
  {
  }

  /** In every non-faulting run of every program: after a CALL at address a with n live frames, the
      first later state with at most n frames has exactly n, was reached by a RET whose register is
      now in the accumulator, and continues at a + 1; all the while the frames 0..n-1 keep their
      contents. */
  lemma CallReturnMatch(p: Program, s: State, k: nat)
    requires s.frames <= |s.mem| && !Halted(p, s) && Fetches(p, s, CALL)
    requires k > 0 && forall j | 0 <= j <= k :: Exec(p, s, j).Ok?
    requires forall j | 0 < j < k :: Exec(p, s, j).state.frames > s.frames
    requires Exec(p, s, k).state.frames <= s.frames
    ensures var t := Exec(p, s, k).state;
            t.pc == s.pc + 1 && t.frames == s.frames && ReturnedBy(p, Exec(p, s, k - 1).state, t)
    ensures forall j | 0 <= j <= k ::
              s.frames <= |Exec(p, s, j).state.mem| && Exec(p, s, j).state.mem[..s.frames] == s.mem[..s.frames]
  {
    hide Step;
    var n := s.frames;
    assert Exec(p, s, 1).Ok?;
    ExecLast(p, s, 0);
    var u := Exec(p, s, 1).state;
    CallOpens(p, s);
    forall j | 0 <= j < k ensures Exec(p, u, j) == Exec(p, s, j + 1) {
      ExecAdd(p, s, 1, j);
    }
    forall j | 0 <= j < k
      ensures n <= |Exec(p, u, j).state.mem| && Exec(p, u, j).state.mem[..n] == s.mem[..n]
    {
      SegmentKeepsFrames(p, u, j, n);
    }
    forall j | 0 <= j <= k
      ensures n <= |Exec(p, s, j).state.mem| && Exec(p, s, j).state.mem[..n] == s.mem[..n]
    {
      if j > 0 { assert Exec(p, s, j) == Exec(p, u, j - 1); }
    }
    SegmentKeepsFrames(p, u, k - 1, n);
    if k > 1 { assert Exec(p, s, k - 1) == Exec(p, u, k - 2); }
  }

  // ----- the frame array refines a list of return addresses -----

  /** The machine with its call stack as a list; `limit` is the length of the frame array. */
  datatype ListState = ListState(pc: nat, data: Data, pending: seq<nat>, limit: nat, running: bool)

  predicate ListHalted(p: Program, s: ListState) { s.pc >= |p| || !s.running }

  function ListMove(f: Flow, s: ListState, d: Data): Outcome<ListState>
  {
    match f
    case Next => Ok(s.(pc := s.pc + 1, data := d))
    case Record => Ok(s.(pc := s.pc + 1, data := d))
    case Stop => Ok(s.(pc := s.pc + 1, data := d, running := false))
    case Goto(a) => Ok(s.(pc := a, data := d))
    case Enter(a) =>
      if |s.pending| < s.limit then Ok(s.(pc := a, data := d, pending := s.pending + [s.pc + 1]))
      else Fault(FrameBounds)
    case Leave =>
      var n := |s.pending|;
      if n == 0 then Ok(s.(pc := s.pc + 1, data := d, running := false))
      else Ok(s.(pc := s.pending[n - 1], data := d, pending := s.pending[..n - 1]))
  }

  function ListStep(p: Program, s: ListState): Outcome<ListState>
    requires s.pc < |p|
  {
    var i := p[s.pc];
    match DataStep(i, s.data)
    case Failure(e) => Fault(e)
    case Success(d) =>
      match Control(i, s.data.regs)
      case Failure(e) => Fault(e)
      case Success(f) => ListMove(f, s, d)
  }

  function ListExec(p: Program, s: ListState, n: nat): Outcome<ListState>
    decreases n
  {
    if n == 0 then Ok(s)
    else if ListHalted(p, s) then Stopped
    else
      match ListStep(p, s)
      case Ok(t) => ListExec(p, t, n - 1)
      case Fault(e) => Fault(e)
      case Stopped => Stopped
  }

  function Returns(mem: seq<Frame>, n: nat): (r: seq<nat>)
    requires n <= |mem|
    ensures |r| == n
  {
    seq(n, i requires 0 <= i < n => ResumeAt(mem[i].rip))
  }

  function Abstract(s: State): ListState
    requires s.frames <= |s.mem|
  {
    ListState(s.pc, s.data, Returns(s.mem, s.frames), |s.mem|, s.running)
  }

  /** The one event the list machine does not have: REC writing past the frame array. */
  predicate RecAtFull(p: Program, s: State)
  {
    !Halted(p, s) && Fetches(p, s, REC) && s.frames >= |s.mem|
  }

  lemma MoveRefines(f: Flow, s: State, d: Data)
    requires s.frames <= |s.mem|
    ensures match Move(f, s, d)
            case Ok(t) => && t.frames <= |t.mem| && ListMove(f, Abstract(s), d) == Ok(Abstract(t))
                          && !(f == Record && s.frames >= |s.mem|)
            case Fault(e) =>
              && e == FrameBounds
              && ((f == Record && s.frames >= |s.mem|) || ListMove(f, Abstract(s), d) == Fault(e))
            case Stopped => false
  {
    if Move(f, s, d).Ok? {
      var t := Move(f, s, d).state;
      assert ListMove(f, Abstract(s), d).state.pending == Returns(t.mem, t.frames);
    }
  }

  lemma OnlyRecRecords(i: Instruction, d: Data)
    ensures i.op == REC <==> Control(i, d.regs) == Success(Record)
    ensures i.op == REC ==> DataStep(i, d) == Success(d)
  {
  }

  /** One step of the array machine is one step of the list machine, faults included, unless it is
      a REC with all frames in use, which faults. */
  lemma StepRefines(p: Program, s: State)
    requires s.frames <= |s.mem| && !Halted(p, s)
    ensures match Step(p, s)
            case Ok(t) => t.frames <= |t.mem| && !RecAtFull(p, s) && ListStep(p, Abstract(s)) == Ok(Abstract(t))
            case Fault(e) => if RecAtFull(p, s) then e == FrameBounds else ListStep(p, Abstract(s)) == Fault(e)
            case Stopped => false
  {
    hide DataStep, Control, Move, ListMove;
    var i := p[s.pc];
    OnlyRecRecords(i, s.data);
    if DataStep(i, s.data).Success? && Control(i, s.data.regs).Success? {
      MoveRefines(Control(i, s.data.regs).value, s, DataStep(i, s.data).value);
      FullRecordFaults(s, DataStep(i, s.data).value);
    }
  }

  lemma FullRecordFaults(s: State, d: Data)
    ensures s.frames >= |s.mem| ==> Move(Record, s, d) == Fault(FrameBounds)
  {
  }

  lemma StepKeepsFrameCount(p: Program, s: State)
    requires s.pc < |p|
    ensures Step(p, s).Ok? ==> |Step(p, s).state.mem| == |s.mem|
  {
    hide DataStep, Control;
  }

  /** A run of fewer than `n` steps comes to a REC with all frames in use. */
  ghost predicate MeetsFullRec(p: Program, s: State, n: nat)
  {
    exists k | 0 <= k < n :: Exec(p, s, k).Ok? && RecAtFull(p, Exec(p, s, k).state)
  }

  lemma MeetsFullRecLater(p: Program, s: State, n: nat)
    requires n > 0 && !Halted(p, s) && Step(p, s).Ok?
    requires MeetsFullRec(p, Step(p, s).state, n - 1)
    ensures MeetsFullRec(p, s, n)
  {
    var t := Step(p, s).state;
    var k :| 0 <= k < n - 1 && Exec(p, t, k).Ok? && RecAtFull(p, Exec(p, t, k).state);
    assert Exec(p, s, k + 1) == Exec(p, t, k);
  }

  /** Whole runs of the array machine are runs of the list machine, except that a REC at full depth
      is a fault of its own. */
  lemma {:induction false} ExecRefines(p: Program, s: State, n: nat)
    requires s.frames <= |s.mem|
    ensures match Exec(p, s, n)
            case Ok(t) => t.frames <= |t.mem| == |s.mem| && ListExec(p, Abstract(s), n) == Ok(Abstract(t))
            case Stopped => ListExec(p, Abstract(s), n).Stopped?
            case Fault(e) => ListExec(p, Abstract(s), n) == Fault(e) || (e == FrameBounds && MeetsFullRec(p, s, n))
    decreases n
  {
    if n > 0 && !Halted(p, s) {
      StepRefines(p, s);
      match Step(p, s)
      case Ok(t) =>
        StepKeepsFrameCount(p, s);
        ExecRefines(p, t, n - 1);
        if MeetsFullRec(p, t, n - 1) { MeetsFullRecLater(p, s, n); }
      case Fault(e) =>
        if RecAtFull(p, s) { assert Exec(p, s, 0) == Ok(s); }
      case Stopped =>
    }
  }

  // ----- REC is erasable -----

  function EraseRec(p: Program): (q: Program)
    ensures |q| == |p|
  {
    seq(|p|, i requires 0 <= i < |p| => if p[i].op == REC then p[i].(op := NOP) else p[i])
  }

  /** Equal but for the frame slots no RET can reach. */
  predicate SameLive(s: State, t: State)
  {
    && s.pc == t.pc && s.data == t.data && s.running == t.running
    && s.frames == t.frames <= |s.mem| == |t.mem|
    && s.mem[..s.frames] == t.mem[..t.frames]
  }

  lemma MoveKeepsSameLive(f: Flow, s: State, t: State, d: Data)
    requires SameLive(s, t) && f != Record
    ensures match Move(f, s, d)
            case Ok(s') => Move(f, t, d).Ok? && SameLive(s', Move(f, t, d).state)
            case Fault(e) => Move(f, t, d) == Fault(e)
            case Stopped => false
  {
    if Move(f, s, d).Ok? {
      var s', t' := Move(f, s, d).state, Move(f, t, d).state;
      assert forall i | 0 <= i < s.frames :: s.mem[..s.frames][i] == t.mem[..t.frames][i];
      assert s'.mem[..s'.frames] == t'.mem[..t'.frames];
    }
  }

  lemma MoveRecord(s: State, t: State, d: Data)
    requires SameLive(s, t) && s.frames < |s.mem|
    ensures Move(Record, s, d).Ok? && Move(Next, t, d).Ok?
    ensures SameLive(Move(Record, s, d).state, Move(Next, t, d).state)
  {
  }

  lemma NopDoesNothing(i: Instruction, d: Data)
    requires i.op == NOP
    ensures DataStep(i, d) == Success(d) && Control(i, d.regs) == Success(Next)
  {
  }

  lemma EraseStep(p: Program, s: State, t: State)
    requires SameLive(s, t) && !Halted(p, s) && !RecAtFull(p, t)
    ensures match Step(p, s)
            case Ok(s') => Step(EraseRec(p), t).Ok? && SameLive(s', Step(EraseRec(p), t).state)
            case Fault(e) => Step(EraseRec(p), t) == Fault(e)
            case Stopped => false
  {
    hide DataStep, Control, Move;
    var i, d := p[s.pc], s.data;
    OnlyRecRecords(i, d);
    if i.op == REC {
      NopDoesNothing(i.(op := NOP), d);
      MoveRecord(s, t, d);
    } else if DataStep(i, d).Success? && Control(i, d.regs).Success? {
      MoveKeepsSameLive(Control(i, d.regs).value, s, t, DataStep(i, d).value);
    }
  }

  lemma RecAtFullFaults(p: Program, s: State)
    requires RecAtFull(p, s)
    ensures Step(p, s) == Fault(FrameBounds)
  {
  }

  ghost predicate NeverRecAtFull(p: Program, t: State, n: nat)
  {
    forall k | 0 <= k < n && Exec(EraseRec(p), t, k).Ok? :: !RecAtFull(p, Exec(EraseRec(p), t, k).state)
  }

  /** Two runs end alike: in states equal on everything live, both stopped, or with the same fault. */
  predicate SameOutcome(a: Outcome<State>, b: Outcome<State>)
  {
    match a
    case Ok(s) => b.Ok? && SameLive(s, b.state)
    case Stopped => b.Stopped?
    case Fault(e) => b == Fault(e)
  }

  lemma NeverRecAtFullShifts(p: Program, t: State, n: nat)
    requires n > 0 && !Halted(p, t) && !RecAtFull(p, t) && Step(EraseRec(p), t).Ok?
    ensures NeverRecAtFull(p, t, n) <==> NeverRecAtFull(p, Step(EraseRec(p), t).state, n - 1)
  {
    hide Step, EraseRec;
    var q := EraseRec(p);
    var t' := Step(q, t).state;
    forall k | 0 <= k < n - 1 ensures Exec(q, t, k + 1) == Exec(q, t', k) {}
    if NeverRecAtFull(p, t', n - 1) {
      forall k | 0 <= k < n && Exec(q, t, k).Ok? ensures !RecAtFull(p, Exec(q, t, k).state) {
        if k > 0 { assert Exec(q, t, k) == Exec(q, t', k - 1); }
      }
    }
  }

  /** Replacing every REC by NOP changes nothing observable. From states equal on everything live, when
      the erased program meets no REC with all frames in use, n steps of both end alike, with the same
      faults if they fault; when it does meet one, the original leaves the frame array there. */
  lemma {:induction false} RecErasable(p: Program, s: State, t: State, n: nat)
    requires SameLive(s, t)
    ensures if NeverRecAtFull(p, t, n) then SameOutcome(Exec(p, s, n), Exec(EraseRec(p), t, n))
            else Exec(p, s, n) == Fault(FrameBounds)
    decreases n
  {
    hide Step, EraseRec, NeverRecAtFull;
    if n > 0 && !Halted(p, s) {
      if RecAtFull(p, t) {
        MeetsRecAtOnce(p, t, n);
        RecAtFullFaults(p, s);
      } else {
        EraseStep(p, s, t);
        if Step(p, s).Ok? {
          NeverRecAtFullShifts(p, t, n);
          RecErasable(p, Step(p, s).state, Step(EraseRec(p), t).state, n - 1);
        } else {
          NoRecBeforeEnd(p, t, n);
        }
      }
    } else {
      NoRecBeforeEnd(p, t, n);
    }
  }

  lemma MeetsRecAtOnce(p: Program, t: State, n: nat)
    requires n > 0 && RecAtFull(p, t)
    ensures !NeverRecAtFull(p, t, n)
  {
    assert Exec(EraseRec(p), t, 0) == Ok(t);
  }

  /** A run that ends at once meets no later REC. */
  lemma NoRecBeforeEnd(p: Program, t: State, n: nat)
    requires n == 0 || Halted(p, t) || (!RecAtFull(p, t) && !Step(EraseRec(p), t).Ok?)
    ensures NeverRecAtFull(p, t, n)
  {
  }
}
