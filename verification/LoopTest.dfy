/** simple_loop for all constants: exactly when the counter meets the limit, and what is returned. */
module LoopTest {
  import opened Words
  import opened Semantics
  import opened NativePrograms

  /** The counter after k additions. */
  function Counter(start: i32, step: i32, k: nat): u32 { Wrap32(start + k * step) }

  /** At the head of the loop with the counter in r0. */
  predicate AtHead(s: State, step: i32, max: i32, x: u32)
  {
    && s.pc == 3 && s.running && s.frames == 0 && s.data.top == 0
    && s.data.regs[0] == x && s.data.regs[1] == Wrap32(step) && s.data.regs[2] == Wrap32(max)
  }

  lemma Start(start: i32, step: i32, max: i32, s: State) returns (t: State)
    requires Initial(s)
    ensures Runs(SimpleLoop(start, step, max), s, 3, t, 0)
    ensures AtHead(t, step, max, Wrap32(start)) && t.data.stack == s.data.stack && t.mem == s.mem
    ensures t.data.output == s.data.output
  {
    hide Step, Edge, Runs, Wrap32, Initial;
    InitialFacts(s);
    var p := SimpleLoop(start, step, max);
    var s1 := DoSet(p, s);
    var s2 := DoSet(p, s1);
    t := DoSet(p, s2);
    PathRuns(p, [s, s1, s2, t], 0);
  }

  /** One round of four instructions adds the step and leaves the loop if the limit is met. */
  lemma Round(start: i32, step: i32, max: i32, s: State, x: u32) returns (t: State)
    requires AtHead(s, step, max, x)
    ensures Runs(SimpleLoop(start, step, max), s, 4, t, 0)
    ensures var y := Wrap32(x + Wrap32(step));
            if y == Wrap32(max)
            then t.pc == 7 && t.running && t.frames == 0 && t.data.top == 0 && t.data.regs[0] == y
            else AtHead(t, step, max, y)
    ensures t.data.stack == s.data.stack && t.mem == s.mem && t.data.output == s.data.output
  {
    hide Step, Edge, Runs, Wrap32;
    var p := SimpleLoop(start, step, max);
    var s1 := DoSet(p, s);
    var s2 := DoDump(p, s1);
    var s3 := DoBinary(p, s2);
    t := DoNejmp(p, s3);
    PathRuns(p, [s, s1, s2, s3, t], 0);
  }

  lemma CounterNext(start: i32, step: i32, k: nat)
    ensures Wrap32(Counter(start, step, k) + Wrap32(step)) == Counter(start, step, k + 1)
  {
    hide Wrap32;
    OneMore(start, step, k);
    Wrap32Sum(start + k * step, step);
  }

  lemma OneMore(start: int, step: int, k: int)
    ensures (start + k * step) + step == start + (k + 1) * step
  {
  }

  /** As long as the limit has not been met, k rounds lead back to the head with k additions done. */
  lemma {:induction false} Rounds(start: i32, step: i32, max: i32, s: State, k: nat) returns (t: State)
    requires Initial(s)
    requires forall j | 0 < j <= k :: Counter(start, step, j) != Wrap32(max)
    ensures Runs(SimpleLoop(start, step, max), s, 3 + 4 * k, t, 0)
    ensures AtHead(t, step, max, Counter(start, step, k)) && t.data.stack == s.data.stack && t.mem == s.mem
    ensures t.data.output == s.data.output
    decreases k
  {
    hide Runs, AtHead, Wrap32, Initial;
    if k == 0 {
      t := Start(start, step, max, s);
    } else {
      var u := Rounds(start, step, max, s, k - 1);
      CounterNext(start, step, k - 1);
      t := Round(start, step, max, u, Counter(start, step, k - 1));
      RunsAdd(SimpleLoop(start, step, max), s, 3 + 4 * (k - 1), u, 4, t, 0, 0);
    }
  }

  /** When the k-th addition is the first to meet the limit, the program returns the limit after
      4 k + 4 steps. */
  lemma LoopReturnsLimit(start: i32, step: i32, max: i32, s: State, k: nat) returns (t: State)
    requires Initial(s) && k > 0 && Counter(start, step, k) == Wrap32(max)
    requires forall j | 0 < j < k :: Counter(start, step, j) != Wrap32(max)
    ensures Exec(SimpleLoop(start, step, max), s, 4 * k + 4) == Ok(t)
    ensures !t.running && t.frames == 0 && t.data.top == 0 && t.data.accum == Wrap32(max)
    ensures t.data.stack == s.data.stack && t.mem == s.mem && t.data.output == s.data.output
  {
    hide Step, Edge, AtHead, Wrap32, SimpleLoop;
    var p := SimpleLoop(start, step, max);
    var u := Rounds(start, step, max, s, k - 1);
    CounterNext(start, step, k - 1);
    var v := Round(start, step, max, u, Counter(start, step, k - 1));
    RunsAdd(p, s, 3 + 4 * (k - 1), u, 4, v, 0, 0);
    t := Return(start, step, max, v);
    PathRuns(p, [v, t], 0);
    RunsAdd(p, s, 4 * k + 3, v, 1, t, 0, 0);
  }

  lemma Return(start: i32, step: i32, max: i32, s: State) returns (t: State)
    requires s.pc == 7 && s.running && s.frames == 0
    ensures Edge(SimpleLoop(start, step, max), s, t)
    ensures t == Advance(s, s.data.(accum := s.data.regs[0])).(running := false)
  {
    hide Step, Edge;
    t := DoRet(SimpleLoop(start, step, max), s);
  }

  /** When no addition ever meets the limit, the program runs forever without fault. */
  lemma LoopForever(start: i32, step: i32, max: i32, s: State, n: nat)
    requires Initial(s)
    requires forall k: nat | k > 0 :: Counter(start, step, k) != Wrap32(max)
    ensures Exec(SimpleLoop(start, step, max), s, n).Ok?
    ensures !Halted(SimpleLoop(start, step, max), Exec(SimpleLoop(start, step, max), s, n).state)
  {
    hide Step, Edge, SimpleLoop;
    var p := SimpleLoop(start, step, max);
    var t := Rounds(start, step, max, s, n + 1);
    ExecPrefix(p, s, n + 1, 3 + 4 * (n + 1));
    ExecPrefix(p, s, n, n + 1);
    ExecLast(p, s, n);
  }

  // ----- when some k meets the limit -----

  /** The exponent of the largest power of two up to 2^bits that divides s. */
  function TwoExponent(s: int, bits: nat): (e: nat)
    ensures e <= bits
    decreases bits
  {
    if bits == 0 || s % 2 == 1 then 0 else 1 + TwoExponent(s / 2, bits - 1)
  }

  lemma {:induction false} SolveOdd(s: int, c: int, bits: nat) returns (k: nat, q: int)
    requires s % 2 == 1
    ensures k * s == c + q * Pow2(bits)
    decreases bits
  {
    if bits == 0 {
      k, q := 0, -c;
    } else {
      var half := Pow2(bits - 1);
      k, q := SolveOdd(s, c, bits - 1);
      if q % 2 == 0 {
        q := q / 2;
        assert 2 * q * half == q * (2 * half);
      } else {
        assert (k + half) * s == c + (q + s) * half;
        k := k + half;
        q := (q + s) / 2;
        assert 2 * q * half == q * (2 * half);
      }
    }
  }

  /** k s = c modulo 2^bits has a solution when the power of two in s divides c. */
  lemma {:induction false} Solve(s: int, c: int, bits: nat) returns (k: nat, q: int)
    requires c % Pow2(TwoExponent(s, bits)) == 0
    ensures k * s == c + q * Pow2(bits)
    decreases bits
  {
    if bits == 0 {
      k, q := 0, -c;
    } else if s % 2 == 1 {
      k, q := SolveOdd(s, c, bits);
    } else {
      var g := Pow2(TwoExponent(s / 2, bits - 1));
      DivideBoth(c, g);
      k, q := Solve(s / 2, c / 2, bits - 1);
      DoubleBoth(s / 2, c / 2, k, q, Pow2(bits - 1));
    }
  }

  lemma DoubleBoth(s: int, c: int, k: int, q: int, m: int)
    requires k * s == c + q * m
    ensures k * (2 * s) == 2 * c + q * (2 * m)
  {
    assert k * (2 * s) == 2 * (k * s);
    assert q * (2 * m) == 2 * (q * m);
  }

  lemma DivideBoth(c: int, g: int)
    requires g > 0 && c % (2 * g) == 0
    ensures c % 2 == 0 && (c / 2) % g == 0
  {
    var m := c / (2 * g);
    assert c == 2 * (g * m);
    assert c / 2 == g * m;
    MultipleMod(g, m);
  }

  lemma MultipleMod(g: int, m: int)
    requires g > 0
    ensures (g * m) % g == 0
  {
    var q, r := (g * m) / g, (g * m) % g;
    assert g * (m - q) == r;
    Quotient(g, m - q, r);
  }

  lemma Quotient(g: int, d: int, r: int)
    requires g * d == r && 0 <= r < g
    ensures d == 0
  {
    assert d >= 1 ==> g * d >= g;
    assert d <= -1 ==> g * d <= -g;
  }

  /** Conversely the power of two in s divides c. */
  lemma {:induction false} Divides(s: int, c: int, bits: nat, k: int, q: int)
    requires k * s == c + q * Pow2(bits)
    ensures c % Pow2(TwoExponent(s, bits)) == 0
    decreases bits
  {
    if bits > 0 && s % 2 == 0 {
      assert k * s == 2 * (k * (s / 2));
      assert q * Pow2(bits) == 2 * (q * Pow2(bits - 1));
      Divides(s / 2, c / 2, bits - 1, k, q);
      var g := Pow2(TwoExponent(s / 2, bits - 1));
      var m := (c / 2) / g;
      assert c / 2 == g * m;
      assert c == (2 * g) * m;
      MultipleMod(2 * g, m);
    }
  }

  lemma Pow2Of32()
    ensures Pow2(32) == TWO_32
  {
    assert Pow2(8) == 256;
    assert Pow2(16) == 65536;
    assert Pow2(24) == 0x100_0000;
  }

  /** What a caller can compute beforehand: the power of two in the step divides the distance. */
  predicate MeetsLimit(start: i32, step: i32, max: i32)
  {
    (max - start) % Pow2(TwoExponent(step, 32)) == 0
  }

  lemma Congruent(x: int, y: int)
    ensures Wrap32(x) == Wrap32(y) <==> exists q :: x == y + q * TWO_32
  {
    if Wrap32(x) == Wrap32(y) {
      assert x == y + (x / TWO_32 - y / TWO_32) * TWO_32;
    }
    if q :| x == y + q * TWO_32 {
      assert (y + q * TWO_32) % TWO_32 == y % TWO_32;
    }
  }

  lemma CounterMeets(start: i32, step: i32, max: i32, k: nat)
    ensures Counter(start, step, k) == Wrap32(max) <==> exists q :: k * step == (max - start) + q * TWO_32
  {
    hide Wrap32;
    var x := k * step;
    Congruent(start + x, max);
    if q :| x == (max - start) + q * TWO_32 { assert start + x == max + q * TWO_32; }
    if q :| start + x == max + q * TWO_32 { assert x == (max - start) + q * TWO_32; }
  }

  /** Some number of additions meets the limit exactly when the power of two in the step divides
      max - start; so always for an odd step. */
  lemma LimitIsMet(start: i32, step: i32, max: i32)
    ensures (exists k: nat :: k > 0 && Counter(start, step, k) == Wrap32(max)) <==> MeetsLimit(start, step, max)
    ensures step % 2 == 1 ==> MeetsLimit(start, step, max)
  {
    hide Pow2, Counter, Wrap32;
    Pow2Of32();
    if MeetsLimit(start, step, max) {
      var k, q := Solve(step, max - start, 32);
      var k' := k + TWO_32;
      assert k' * step == (max - start) + (q + step) * TWO_32;
      CounterMeets(start, step, max, k');
    }
    if k: nat :| k > 0 && Counter(start, step, k) == Wrap32(max) {
      CounterMeets(start, step, max, k);
      var q :| k * step == (max - start) + q * TWO_32;
      Divides(step, max - start, 32, k, q);
    }
    if step % 2 == 1 { OddAlways(start, step, max); }
  }

  lemma OddAlways(start: i32, step: i32, max: i32)
    requires step % 2 == 1
    ensures MeetsLimit(start, step, max)
  {
    assert TwoExponent(step, 32) == 0;
  }

  predicate HaltsAt(p: Program, s: State, n: nat, t: State) { Exec(p, s, n) == Ok(t) && Halted(p, t) }

  /** simple_loop comes to its root RET exactly when the power of two in the step divides the
      distance to the limit; then it returns the limit, and otherwise it never stops or faults. */
  lemma LoopHaltsExactly(start: i32, step: i32, max: i32, s: State)
    requires Initial(s)
    ensures MeetsLimit(start, step, max) <==>
              exists n, t :: HaltsAt(SimpleLoop(start, step, max), s, n, t)
    ensures forall n, t :: HaltsAt(SimpleLoop(start, step, max), s, n, t) ==>
              !t.running && t.data.accum == Wrap32(max) && t.frames == 0 && t.data.top == 0
    ensures !MeetsLimit(start, step, max) ==> forall n: nat :: Exec(SimpleLoop(start, step, max), s, n).Ok?
  {
    hide Step, SimpleLoop, Counter, MeetsLimit;
    var p := SimpleLoop(start, step, max);
    LimitIsMet(start, step, max);
    if MeetsLimit(start, step, max) {
      var k := FirstMeeting(start, step, max);
      var t := LoopReturnsLimit(start, step, max, s, k);
      assert HaltsAt(p, s, 4 * k + 4, t);
      forall n, u | HaltsAt(p, s, n, u) ensures u == t {
        HaltsOnce(p, s, 4 * k + 4, n);
      }
    } else {
      forall n: nat ensures Exec(p, s, n).Ok? && !Halted(p, Exec(p, s, n).state) {
        LoopForever(start, step, max, s, n);
      }
    }
  }

  lemma FirstMeeting(start: i32, step: i32, max: i32) returns (k: nat)
    requires exists k: nat :: k > 0 && Counter(start, step, k) == Wrap32(max)
    ensures k > 0 && Counter(start, step, k) == Wrap32(max)
    ensures forall j | 0 < j < k :: Counter(start, step, j) != Wrap32(max)
  {
    hide Counter;
    var bound: nat :| bound > 0 && Counter(start, step, bound) == Wrap32(max);
    k := 1;
    while Counter(start, step, k) != Wrap32(max)
      invariant 0 < k <= bound
      invariant forall j | 0 < j < k :: Counter(start, step, j) != Wrap32(max)
      decreases bound - k
    {
      k := k + 1;
    }
  }

  /** A run halts at one point only. */
  lemma HaltsOnce(p: Program, s: State, m: nat, n: nat)
    requires Exec(p, s, m).Ok? && Halted(p, Exec(p, s, m).state)
    requires Exec(p, s, n).Ok? && Halted(p, Exec(p, s, n).state)
    ensures m == n
  {
    hide Step;
    var (low, high) := if m < n then (m, n) else (n, m);
    if low < high {
      ExecPrefix(p, s, low + 1, high);
      ExecLast(p, s, low);
    }
  }
}
