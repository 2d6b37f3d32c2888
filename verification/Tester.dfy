/** The native test runner: the integer tests of the list, run in order by machines that share one
    register array and one stack array. */
module Tester {
  import opened Words
  import opened Semantics
  import opened NativePrograms
  import opened NativeTests
  import LoopTest
  import SetVm

  datatype TestProgram = TestProgram(desiredReturn: u32, program: Program)

  /** returnCode is kept in a byte; success compares the full accumulator. */
  datatype TestResult = TestResult(success: bool, returnCode: i8)

  const FRAME_COUNT := 128
  const STACK_SIZE := 16384

  const TESTS_LIST: seq<TestProgram> :=
    [TestProgram(10, SimpleLoop(0, 1, 10)),
     TestProgram(0, AND_OR),
     TestProgram(2, INC_DEC),
     TestProgram(0, PRINT_LOL),
     TestProgram(66, FunctionCall(44, 22)),
     TestProgram(5, RecursiveFunctionCall(5))]

  const INC_DEC_TEST := 2

  /** Test `i` of the list returns what the list says, from every register file and stack; only
      inc_dec needs to find 0 in r0, which is what and_or before it leaves there. */
  lemma TestReturnsAsListed(i: nat, s: State) returns (n: nat, t: State)
    requires i < |TESTS_LIST| && Initial(s) && |s.data.stack| == STACK_SIZE && |s.mem| == FRAME_COUNT
    requires i == INC_DEC_TEST ==> s.data.regs[0] == 0
    ensures Exec(TESTS_LIST[i].program, s, n) == Ok(t) && Halted(TESTS_LIST[i].program, t)
    ensures t.data.accum == TESTS_LIST[i].desiredReturn && |t.data.stack| == STACK_SIZE
    ensures i + 1 == INC_DEC_TEST ==> t.data.regs[0] == 0
  {
    hide Step, Exec, SimpleLoop, FunctionCall, RecursiveFunctionCall;
    match i
    case 0 =>
      LoopToTen();
      n := 44;
      t := LoopTest.LoopReturnsLimit(0, 1, 10, s, 10);
    case 1 =>
      n := 7;
      t := AndOrReturnsZero(s);
    case 2 =>
      n := 9;
      t := IncDecAddsTwo(s);
    case 3 =>
      n := 8;
      t := PrintWritesLol(s);
    case 4 =>
      n := 12;
      t := FunctionCallAdds(44, 22, s);
    case 5 =>
      n := 52;
      t := RecursionReturnsBound(5, s);
  }

  lemma LoopToTen()
    ensures LoopTest.Counter(0, 1, 10) == Wrap32(10) == 10
    ensures forall j | 0 < j < 10 :: LoopTest.Counter(0, 1, j) != Wrap32(10)
  {
  }

  /** run_set_program: a fresh machine over the shared arrays. It is asked that the run ends. */
  method RunSetProgram(entry: TestProgram, registers: array<u32>, stack: array<u8>, ghost bound: nat)
    returns (result: TestResult)
    requires registers.Length == REG_COUNT && (registers as object) != (stack as object)
    requires var s := Fresh(registers[..], stack[..], FRAME_COUNT);
             Exec(entry.program, s, bound).Ok? && Halted(entry.program, Exec(entry.program, s, bound).state)
    modifies registers, stack
    ensures var t := Exec(entry.program, old(Fresh(registers[..], stack[..], FRAME_COUNT)), bound).state;
            && result == TestResult(entry.desiredReturn == t.data.accum, ToI8(t.data.accum))
            && registers[..] == t.data.regs && stack[..] == t.data.stack
  {
    ghost var s := Fresh(registers[..], stack[..], FRAME_COUNT);
    var m := new SetVm.Machine(entry.program, registers, stack, FRAME_COUNT);
    assert m.Value() == s;
    var fault;
    ghost var steps;
    fault, steps := m.ExecuteProgram(bound);
    EndsOnce(entry.program, s, steps, bound, fault.Some?);
    assert m.Value() == Exec(entry.program, s, bound).state;
    result := TestResult(entry.desiredReturn == m.accumRegister, ToI8(m.accumRegister));
  }

  lemma EndsOnce(p: Program, s: State, steps: nat, bound: nat, faulted: bool)
    requires steps <= bound && Exec(p, s, bound).Ok? && Halted(p, Exec(p, s, bound).state)
    requires if faulted then Exec(p, s, steps + 1).Fault?
             else Exec(p, s, steps).Ok? && Halted(p, Exec(p, s, steps).state)
    ensures !faulted && steps == bound
  {
    hide Step;
    if faulted {
      if steps < bound {
        ExecPrefix(p, s, steps + 1, bound);
      } else {
        ExecLast(p, s, bound);
      }
    } else {
      LoopTest.HaltsOnce(p, s, steps, bound);
    }
  }

  /** run_native_tests over the integer tests: all of them pass, whatever the registers and the
      stack held before. */
  method RunNativeTests(registers: array<u32>, stack: array<u8>) returns (allPassed: bool, successes: nat)
    requires registers.Length == REG_COUNT && stack.Length == STACK_SIZE && (registers as object) != (stack as object)
    modifies registers, stack
    ensures allPassed && successes == |TESTS_LIST|
  {
    allPassed, successes := true, 0;
    for i := 0 to |TESTS_LIST|
      invariant allPassed && successes == i
      invariant i == INC_DEC_TEST ==> registers[0] == 0
    {
      var n, t := TestReturnsAsListed(i, Fresh(registers[..], stack[..], FRAME_COUNT));
      var r := RunSetProgram(TESTS_LIST[i], registers, stack, n);
      assert registers[..][0] == registers[0];
      allPassed := allPassed && r.success;
      if r.success { successes := successes + 1; }
    }
  }
}
