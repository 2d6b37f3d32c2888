/** What the native test programs do, for all constants and from every register file and stack. */
module NativeTests {
  import opened Words
  import opened Semantics
  import opened NativePrograms

  /** The machine has stopped of its own accord with everything restored and `result` to report. */
  predicate Finished(s: State, t: State, result: u32)
  {
    && !t.running && t.frames == 0 && t.data.top == 0 && t.data.accum == result
    && |t.data.stack| == |s.data.stack| && |t.mem| == |s.mem|
  }

  // ----- and_or, inc_dec, print -----

  /** and_or returns 0, leaving 0 in r0; what it dumps on the way is 1 and 0. */
  lemma AndOrReturnsZero(s: State) returns (t: State)
    requires Initial(s)
    ensures Exec(AND_OR, s, 7) == Ok(t) && Finished(s, t, 0)
    ensures t.data.regs[0] == 0 && t.data.output == s.data.output
    ensures Exec(AND_OR, s, 3).Ok? && Exec(AND_OR, s, 3).state.data.regs[0] == 1
  {
    hide Step, Edge, Exec, Initial;
    InitialFacts(s);
    var s1 := DoSet(AND_OR, s);
    var s2 := DoSet(AND_OR, s1);
    var s3 := DoBinary(AND_OR, s2);
    var s4 := DoDump(AND_OR, s3);
    var s5 := DoBinary(AND_OR, s4);
    var s6 := DoDump(AND_OR, s5);
    t := DoRet(AND_OR, s6);
    PathRuns(AND_OR, [s, s1, s2, s3], 0);
    PathRuns(AND_OR, [s, s1, s2, s3, s4, s5, s6, t], 0);
  }

  lemma CountFourUp(s: State) returns (t: State)
    requires Initial(s)
    ensures Runs(INC_DEC, s, 5, t, 0)
    ensures t == s.(pc := 5, data := t.data) && t.data == s.data.(regs := t.data.regs)
    ensures t.data.regs[0] == Plus(s.data.regs[0], 4)
  {
    hide Step, Edge, Runs, Plus, Initial;
    InitialFacts(s);
    var s1 := DoCount(INC_DEC, s);
    var s2 := DoCount(INC_DEC, s1);
    var s3 := DoCount(INC_DEC, s2);
    var s4 := DoCount(INC_DEC, s3);
    t := DoDump(INC_DEC, s4);
    PathRuns(INC_DEC, [s, s1, s2, s3, s4, t], 0);
    PlusPlus(s.data.regs[0], 1, 1);
    PlusPlus(s.data.regs[0], 2, 1);
    PlusPlus(s.data.regs[0], 3, 1);
  }

  lemma CountTwoDown(s: State) returns (t: State)
    requires s.pc == 5 && s.running && s.frames == 0
    ensures Runs(INC_DEC, s, 4, t, 0)
    ensures t == s.(pc := 9, running := false, data := t.data)
    ensures t.data.accum == Plus(s.data.regs[0], -2)
    ensures t.data == s.data.(accum := t.data.accum, regs := t.data.regs)
  {
    hide Step, Edge, Runs, Plus;
    var s1 := DoCount(INC_DEC, s);
    var s2 := DoCount(INC_DEC, s1);
    var s3 := DoDump(INC_DEC, s2);
    t := DoRet(INC_DEC, s3);
    PathRuns(INC_DEC, [s, s1, s2, s3, t], 0);
    PlusPlus(s.data.regs[0], -1, -1);
  }

  /** inc_dec returns two more than it finds in r0, modulo 2^32, having counted four up. */
  lemma IncDecAddsTwo(s: State) returns (t: State)
    requires Initial(s)
    ensures Exec(INC_DEC, s, 9) == Ok(t) && Finished(s, t, Plus(s.data.regs[0], 2))
    ensures t.data.output == s.data.output
    ensures Exec(INC_DEC, s, 5).Ok? && Exec(INC_DEC, s, 5).state.data.regs[0] == Plus(s.data.regs[0], 4)
  {
    hide Step, Exec, Plus, INC_DEC;
    var u := CountFourUp(s);
    t := CountTwoDown(u);
    RunsAdd(INC_DEC, s, 5, u, 4, t, 0, 0);
    PlusPlus(s.data.regs[0], 4, -2);
  }

  /** print with any address inside the stack and any word writes the four bytes of the word, the lowest
      first, to stream 1 and returns the address. */
  lemma PrintWritesWord(a: i32, w: i32, s: State) returns (t: State, bytes: seq<u8>)
    requires Initial(s) && Wrap32(a) as int + 4 <= |s.data.stack|
    ensures Exec(PrintWord(a, w), s, 8) == Ok(t) && Finished(s, t, Wrap32(a))
    ensures t.data.output == s.data.output + [Output(1, bytes)] && |bytes| == 4
    ensures Horner(bytes[0], bytes[1], bytes[2], bytes[3]) == Wrap32(w)
  {
    hide Step, Edge, Exec, Initial, Encode, Wrap32;
    InitialFacts(s);
    WrapSmall(1);
    WrapSmall(4);
    var p := PrintWord(a, w);
    var s1 := DoSet(p, s);
    var s2 := DoSet(p, s1);
    var s3 := DoSave(p, s2);
    var s4 := DoSet(p, s3);
    var s5 := DoSet(p, s4);
    var s6 := DoSet(p, s5);
    var s7 := DoPrint(p, s6);
    t := DoRet(p, s7);
    PathRuns(p, [s, s1, s2, s3, s4, s5, s6, s7, t], 0);
    bytes := Encode(Wrap32(w));
    DecodeEncode(Wrap32(w));
  }

  /** print writes the four bytes "lol\n" to stream 1 and returns 0. */
  lemma PrintWritesLol(s: State) returns (t: State)
    requires Initial(s) && |s.data.stack| >= 4
    ensures Exec(PRINT_LOL, s, 8) == Ok(t) && Finished(s, t, 0)
    ensures t.data.output == s.data.output + [Output(1, ['l' as int, 'o' as int, 'l' as int, '\n' as int])]
  {
    hide Exec, Initial;
    var bytes;
    assert PRINT_LOL == PrintWord(0, 0x0A6C6F6C);
    t, bytes := PrintWritesWord(0, 0x0A6C6F6C, s);
    BytesOfLol(bytes);
  }

  lemma BytesOfLol(bytes: seq<u8>)
    requires |bytes| == 4 && Horner(bytes[0], bytes[1], bytes[2], bytes[3]) == Wrap32(0x0A6C6F6C)
    ensures bytes == ['l' as int, 'o' as int, 'l' as int, '\n' as int]
  {
  }

  // ----- function_call -----

  lemma PassArguments(x: i32, y: i32, s: State) returns (t: State)
    requires Initial(s) && |s.data.stack| >= 12 && |s.mem| > 0
    ensures Runs(FunctionCall(x, y), s, 6, t, 1)
    ensures t.pc == 7 && t.running && t.frames == 1 && |t.mem| == |s.mem| && t.mem[0].rip == 7
    ensures t.data.top == 8 && |t.data.stack| == |s.data.stack| && t.data.output == s.data.output
    ensures WordAt(t.data.stack, 4, Wrap32(x)) && WordAt(t.data.stack, 8, Wrap32(y))
  {
    hide Step, WordAt, Edge, Runs, Initial;
    InitialFacts(s);
    var p := FunctionCall(x, y);
    var s1 := DoSet(p, s);
    var s2 := DoSet(p, s1);
    var s3 := DoRec(p, s2);
    var s4 := DoPush(p, s3);
    var s5 := DoPush(p, s4);
    t := DoCall(p, s5);
    PathRuns(p, [s, s1, s2, s3, s4, s5, t], 1);
  }

  lemma AddAndReturn(x: i32, y: i32, s: State) returns (t: State)
    requires s.pc == 7 && s.running && s.frames == 1 <= |s.mem| && s.mem[0].rip == 7
    requires s.data.top == 8 && |s.data.stack| >= 12
    requires WordAt(s.data.stack, 4, Wrap32(x)) && WordAt(s.data.stack, 8, Wrap32(y))
    ensures Runs(FunctionCall(x, y), s, 6, t, 1)
    ensures Finished(s, t, Wrap32(x + y)) && t.data.output == s.data.output
  {
    hide Step, WordAt, Edge, Runs, Wrap32;
    var p := FunctionCall(x, y);
    var s1 := DoPop(p, s, Wrap32(y));
    var s2 := DoPop(p, s1, Wrap32(x));
    var s3 := DoBinary(p, s2);
    Wrap32Sum(y, x);
    assert s3.data.regs[0] == Wrap32(x + y);
    var s4 := DoDump(p, s3);
    var s5 := DoRet(p, s4);
    t := DoRet(p, s5);
    PathRuns(p, [s, s1, s2, s3, s4, s5, t], 1);
  }

  /** function_call with any two constants passes them on the stack in this order and returns their
      32-bit sum after 12 steps, with the frame and stack counters back at zero. */
  lemma FunctionCallAdds(x: i32, y: i32, s: State) returns (t: State)
    requires Initial(s) && |s.data.stack| >= 12 && |s.mem| > 0
    ensures Exec(FunctionCall(x, y), s, 12) == Ok(t)
    ensures Finished(s, t, Wrap32(x + y)) && t.data.output == s.data.output
    ensures var called := Exec(FunctionCall(x, y), s, 6);
            && called.Ok? && called.state.frames == 1 && called.state.data.top == 8
            && WordAt(called.state.data.stack, 4, Wrap32(x)) && WordAt(called.state.data.stack, 8, Wrap32(y))
  {
    hide Step, FunctionCall, WordAt;
    var u := PassArguments(x, y, s);
    t := AddAndReturn(x, y, u);
    RunsAdd(FunctionCall(x, y), s, 6, u, 6, t, 1, 1);
  }

  // ----- recursive_function_call -----

  // The program is proved with its second REC, as the native test has it, and without.

  /** The address of the last RET, where the inner calls return to. */
  function LastRet(rec: bool): nat { if rec then 15 else 14 }

  /** Steps from one entry of the recursive function to the next. */
  function StepsDown(rec: bool, levels: nat): nat { if rec then 9 * levels else 8 * levels }

  /** The frames of `n` nested calls: the first from address 3, all others from the end of the program. */
  predicate CallChain(mem: seq<Frame>, n: nat, rec: bool)
  {
    n <= |mem| && forall j | 0 <= j < n :: mem[j].rip == if j == 0 then 5 else LastRet(rec) + 1
  }

  /** At the entry of the recursive function, called with argument `n` at call depth n + 1. */
  predicate AtEntry(s: State, n: nat, stackSize: nat, rec: bool)
  {
    && s.pc == 5 && s.running && s.frames == n + 1 && CallChain(s.mem, n + 1, rec)
    && s.data.top == 4 && |s.data.stack| == stackSize >= 8 && n < TWO_32 && WordAt(s.data.stack, 4, n)
  }

  /** After the comparison at depth n, with count n in r0. */
  predicate Counted(s: State, n: nat, stackSize: nat, rec: bool)
  {
    && s.running && s.frames == n && CallChain(s.mem, n, rec)
    && s.data.top == 0 && |s.data.stack| == stackSize >= 8 && n <= TWO_32 && s.data.regs[0] == Wrap32(n)
  }

  lemma Enter(bound: i32, rec: bool, s: State) returns (t: State)
    requires Initial(s) && |s.data.stack| >= 8 && |s.mem| > 0
    ensures Runs(Recursion(bound, rec), s, 4, t, 1)
    ensures AtEntry(t, 0, |s.data.stack|, rec) && |t.mem| == |s.mem| && t.data.output == s.data.output
  {
    hide Step, WordAt, Edge, Runs, Initial, Recursion;
    InitialFacts(s);
    RecursionCode(bound, rec);
    var p := Recursion(bound, rec);
    var s1 := DoSet(p, s);
    var s2 := DoRec(p, s1);
    var s3 := DoPush(p, s2);
    t := DoCall(p, s3);
    PathRuns(p, [s, s1, s2, s3, t], 1);
  }

  /** Six instructions count the argument up by one and compare it with the bound. */
  lemma Body(bound: i32, rec: bool, s: State, n: nat, stackSize: nat) returns (t: State)
    requires AtEntry(s, n, stackSize, rec)
    ensures Runs(Recursion(bound, rec), s, 6, t, n + 1)
    ensures t.pc == if Wrap32(n + 1) != Wrap32(bound) then 12 else 11
    ensures Counted(t, n + 1, stackSize, rec) && |t.mem| == |s.mem| && t.data.output == s.data.output
  {
    hide Step, WordAt, Edge, Runs, Recursion;
    RecursionCode(bound, rec);
    var p := Recursion(bound, rec);
    var s1 := DoPop(p, s, n);
    var s2 := DoSet(p, s1);
    var s3 := DoSet(p, s2);
    var s4 := DoBinary(p, s3);
    var s5 := DoDump(p, s4);
    t := DoNejmp(p, s5);
    PathRuns(p, [s, s1, s2, s3, s4, s5, t], n + 1);
  }

  /** Two or three more call the function again with the new count. */
  lemma Recurse(bound: i32, rec: bool, s: State, n: nat, stackSize: nat) returns (t: State)
    requires s.pc == 12 && Counted(s, n + 1, stackSize, rec) && n + 1 < |s.mem| && n + 1 < TWO_32
    ensures Runs(Recursion(bound, rec), s, if rec then 3 else 2, t, n + 2)
    ensures AtEntry(t, n + 1, stackSize, rec) && |t.mem| == |s.mem| && t.data.output == s.data.output
  {
    hide Step, WordAt, Edge, Runs, Recursion;
    RecursionCode(bound, rec);
    var p := Recursion(bound, rec);
    if rec {
      var s1 := DoRec(p, s);
      var s2 := DoPush(p, s1);
      t := DoCall(p, s2);
      PathRuns(p, [s, s1, s2, t], n + 2);
    } else {
      var s1 := DoPush(p, s);
      t := DoCall(p, s1);
      PathRuns(p, [s, s1, t], n + 2);
    }
  }

  /** Going down: from depth n + 1 the run reaches depth m + 1 after 9 (m - n) steps, or 8 (m - n) without
      the REC, as long as the count has not met the bound. */
  lemma {:induction false} Descend(bound: i32, rec: bool, s: State, n: nat, m: nat, stackSize: nat)
    returns (t: State)
    requires AtEntry(s, n, stackSize, rec) && n <= m < |s.mem| && m + 1 < TWO_32
    requires Wrap32(bound) == 0 || m < Wrap32(bound)
    ensures Runs(Recursion(bound, rec), s, StepsDown(rec, m - n), t, m + 1)
    ensures AtEntry(t, m, stackSize, rec) && |t.mem| == |s.mem| && t.data.output == s.data.output
    decreases m - n
  {
    hide Exec, Recursion, AtEntry, Counted;
    var p := Recursion(bound, rec);
    if n == m {
      t := s;
      RunsStart(p, s, n, stackSize, rec);
    } else {
      var u := Body(bound, rec, s, n, stackSize);
      var v := Recurse(bound, rec, u, n, stackSize);
      t := Descend(bound, rec, v, n + 1, m, stackSize);
      RunsAdd(p, s, 6, u, if rec then 3 else 2, v, n + 1, n + 2);
      RunsAdd(p, s, StepsDown(rec, 1), v, StepsDown(rec, m - (n + 1)), t, n + 2, m + 1);
    }
  }

  lemma RunsStart(p: Program, s: State, n: nat, stackSize: nat, rec: bool)
    requires AtEntry(s, n, stackSize, rec)
    ensures Runs(p, s, 0, s, n + 1)
  {
  }

  /** Coming back: each pending call returns through the last RET, the first through address 4, and
      the root return stops the machine. */
  lemma {:induction false} Unwind(bound: i32, rec: bool, s: State) returns (t: State)
    requires s.pc in {4, 11, LastRet(rec)} && s.running && CallChain(s.mem, s.frames, rec)
    requires s.pc == 4 <==> s.frames == 0
    requires s.data.top == 0
    ensures Runs(Recursion(bound, rec), s, s.frames + 1, t, s.frames)
    ensures Finished(s, t, s.data.regs[0]) && t.data.output == s.data.output
    decreases s.frames
  {
    hide Step, Recursion;
    RecursionCode(bound, rec);
    var p := Recursion(bound, rec);
    var u := DoRet(p, s);
    PathRuns(p, [s, u], s.frames);
    if s.frames == 0 {
      t := u;
    } else {
      t := Unwind(bound, rec, u);
      RunsWithin(p, u, u.frames + 1, t, u.frames, s.frames);
      RunsAdd(p, s, 1, u, u.frames + 1, t, s.frames, s.frames);
    }
  }

  /** From the start to the comparison at depth n, for n no larger than the bound or bound zero. */
  lemma ReachDepth(bound: i32, rec: bool, s: State, n: nat) returns (t: State)
    requires Initial(s) && |s.data.stack| >= 8
    requires 1 <= n <= |s.mem| && n < TWO_32 && (Wrap32(bound) == 0 || n <= Wrap32(bound))
    ensures Runs(Recursion(bound, rec), s, StepsDown(rec, n - 1) + 10, t, n)
    ensures t.pc == if n == Wrap32(bound) then 11 else 12
    ensures Counted(t, n, |s.data.stack|, rec) && |t.mem| == |s.mem| && t.data.output == s.data.output
  {
    hide *;
    WrapSmall(n);
    var p := Recursion(bound, rec);
    var s1 := Enter(bound, rec, s);
    var s2 := Descend(bound, rec, s1, 0, n - 1, |s.data.stack|);
    t := Body(bound, rec, s2, n - 1, |s.data.stack|);
    RunsAdd(p, s, 4, s1, StepsDown(rec, n - 1), s2, 1, n);
    RunsAdd(p, s, 4 + StepsDown(rec, n - 1), s2, 6, t, n, n);
  }

  /** Either program halts with any bound N, 1 <= N <= FRAME_COUNT, N in the accumulator and both counters
      back at zero; its call depth peaks at N. */
  lemma RecursionFinishes(bound: i32, rec: bool, s: State) returns (t: State)
    requires Initial(s) && |s.data.stack| >= 8
    requires 1 <= Wrap32(bound) <= |s.mem|
    ensures var n, steps := Wrap32(bound), StepsDown(rec, Wrap32(bound) - 1) + Wrap32(bound) + 11;
            && Runs(Recursion(bound, rec), s, steps, t, n)
            && Exec(Recursion(bound, rec), s, steps - n - 1).Ok?
            && Exec(Recursion(bound, rec), s, steps - n - 1).state.frames == n
    ensures Finished(s, t, Wrap32(bound)) && t.data.output == s.data.output
  {
    hide Step, Recursion, StepsDown;
    var p := Recursion(bound, rec);
    var n: int := Wrap32(bound);
    var u := ReachDepth(bound, rec, s, n);
    t := Unwind(bound, rec, u);
    RunsAdd(p, s, StepsDown(rec, n - 1) + 10, u, n + 1, t, n, n);
  }

  /** recursive_function_call with any bound N, 1 <= N <= FRAME_COUNT, from any registers and stack
      contents halts after exactly 10 N + 2 steps with N in the accumulator and both counters back
      at zero; its call depth peaks at N. */
  lemma RecursionReturnsBound(bound: i32, s: State) returns (t: State)
    requires Initial(s) && |s.data.stack| >= 8
    requires 1 <= Wrap32(bound) <= |s.mem|
    ensures Runs(RecursiveFunctionCall(bound), s, 10 * Wrap32(bound) + 2, t, Wrap32(bound))
    ensures Finished(s, t, Wrap32(bound)) && t.data.output == s.data.output
    ensures exists j | 0 <= j <= 10 * Wrap32(bound) + 2 ::
              Exec(RecursiveFunctionCall(bound), s, j).state.frames == Wrap32(bound)
  {
    hide Step, RecursiveFunctionCall, Exec;
    t := RecursionFinishes(bound, true, s);
    var n: int := Wrap32(bound);
    assert Exec(RecursiveFunctionCall(bound), s, 9 * n + 1).state.frames == n;
  }

  /** With any other bound the recursion runs out of frames. */
  lemma RecursionOverflows(bound: i32, s: State)
    requires Initial(s) && |s.data.stack| >= 8 && |s.mem| < TWO_32
    requires !(1 <= Wrap32(bound) <= |s.mem|)
    ensures exists n :: Exec(RecursiveFunctionCall(bound), s, n) == Fault(FrameBounds)
  {
    hide Step, RecursiveFunctionCall, Exec;
    var p, f := RecursiveFunctionCall(bound), |s.mem|;
    if f == 0 {
      OverflowsAtOnce(bound, s);
    } else {
      var t := ReachDepth(bound, true, s, f);
      FaultAtRec(bound, t);
      ExecLast(p, s, 9 * f + 1);
      assert Exec(p, s, 9 * f + 2) == Fault(FrameBounds);
    }
  }

  lemma OverflowsAtOnce(bound: i32, s: State)
    requires Initial(s) && |s.mem| == 0
    ensures Exec(RecursiveFunctionCall(bound), s, 2) == Fault(FrameBounds)
  {
    hide Step;
    var p := RecursiveFunctionCall(bound);
    var s1 := DoSet(p, s);
    PathRuns(p, [s, s1], 0);
    FaultAtRec(bound, s1);
    ExecLast(p, s, 1);
  }

  lemma FaultAtRec(bound: i32, s: State)
    requires s.pc in {1, 12} && s.running && s.frames >= |s.mem|
    ensures !Halted(RecursiveFunctionCall(bound), s)
    ensures Step(RecursiveFunctionCall(bound), s) == Fault(FrameBounds)
  {
  }
}
