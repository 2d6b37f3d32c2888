/** The byte stack over whole runs: what its counter counts, when accesses stay inside it, and the
    word stack it implements. */
module Stack {
  import opened Words
  import opened Semantics

  // ----- counting along a run -----

  datatype Event = Pushing | Popping | Saving | Calling | Returning

  predicate Happens(p: Program, s: State, e: Event)
  {
    && !Halted(p, s)
    && match e
       case Pushing => Fetches(p, s, PUSH)
       case Popping => Fetches(p, s, POP)
       case Saving => Fetches(p, s, DSAVE)
       case Calling => Fetches(p, s, CALL)
       case Returning => Fetches(p, s, RET) && s.frames > 0
  }

  /** How many of the first `n` instructions fetched in the run from `s` are events `e`. */
  function Count(p: Program, s: State, n: nat, e: Event): nat
  {
    if n == 0 then 0
    else Count(p, s, n - 1, e) + match Exec(p, s, n - 1)
                                 case Ok(t) => if Happens(p, t, e) then 1 else 0
                                 case _ => 0
  }

  function Balance(p: Program, s: State, n: nat): int
  {
    Count(p, s, n, Pushing) - Count(p, s, n, Popping)
  }

  lemma DataCounters(i: Instruction, d: Data)
    requires DataStep(i, d).Success?
    ensures var e := DataStep(i, d).value;
            && e.top == (if i.op == PUSH then Wrap64(d.top + 4) else if i.op == POP then Wrap64(d.top - 4) else d.top)
            && |e.stack| == |d.stack|
  {
  }

  lemma FlowKinds(i: Instruction, regs: Registers)
    requires Control(i, regs).Success?
    ensures Control(i, regs).value.Enter? <==> i.op == CALL
    ensures Control(i, regs).value.Leave? <==> i.op == RET
  {
  }

  /** The counters after one step. */
  lemma StepCounters(p: Program, s: State)
    requires !Halted(p, s) && Step(p, s).Ok?
    ensures var t := Step(p, s).state;
            && t.data.top == (if Fetches(p, s, PUSH) then Wrap64(s.data.top + 4)
                              else if Fetches(p, s, POP) then Wrap64(s.data.top - 4) else s.data.top)
            && t.frames == (if Fetches(p, s, CALL) then s.frames + 1
                            else if Happens(p, s, Returning) then s.frames - 1 else s.frames)
            && |t.data.stack| == |s.data.stack|
  {
    hide DataStep, Control, Wrap64;
    DataCounters(p[s.pc], s.data);
    FlowKinds(p[s.pc], s.data.regs);
  }

  lemma CountOne(p: Program, s: State, n: nat, e: Event)
    requires Exec(p, s, n).Ok?
    ensures Count(p, s, n + 1, e) == Count(p, s, n, e) + if Happens(p, Exec(p, s, n).state, e) then 1 else 0
  {
    hide Exec, Happens;
  }

  lemma EventsDiffer(p: Program, s: State)
    requires !Halted(p, s)
    ensures Happens(p, s, Pushing) <==> Fetches(p, s, PUSH)
    ensures Happens(p, s, Popping) <==> Fetches(p, s, POP)
    ensures Happens(p, s, Calling) <==> Fetches(p, s, CALL)
    ensures !(Fetches(p, s, PUSH) && Fetches(p, s, POP)) && !(Fetches(p, s, CALL) && Happens(p, s, Returning))
  {
  }

  /** The counts after one more step. */
  lemma CountStep(p: Program, s: State, n: nat)
    requires Exec(p, s, n).Ok? && !Halted(p, Exec(p, s, n).state)
    ensures var u := Exec(p, s, n).state;
            && Balance(p, s, n + 1) == Balance(p, s, n) + (if Fetches(p, u, PUSH) then 1
                                                          else if Fetches(p, u, POP) then -1 else 0)
            && Count(p, s, n + 1, Calling) - Count(p, s, n + 1, Returning)
               == Count(p, s, n, Calling) - Count(p, s, n, Returning)
                  + (if Fetches(p, u, CALL) then 1 else if Happens(p, u, Returning) then -1 else 0)
  {
    hide Exec, Count, Happens, Fetches;
    var u := Exec(p, s, n).state;
    CountOne(p, s, n, Pushing);
    CountOne(p, s, n, Popping);
    CountOne(p, s, n, Calling);
    CountOne(p, s, n, Returning);
    EventsDiffer(p, u);
  }

  /** Conservation: in every non-faulting run from a fresh machine the stack counter is four times
      the pushes minus the pops, modulo 2^64, and the frame counter is the calls minus the returns. */
  lemma {:induction false} Conservation(p: Program, s: State, n: nat)
    requires Initial(s) && Exec(p, s, n).Ok?
    ensures var t := Exec(p, s, n).state;
            && t.data.top == Wrap64(4 * Balance(p, s, n)) && t.data.top % 4 == 0
            && t.frames == Count(p, s, n, Calling) - Count(p, s, n, Returning)
            && |t.data.stack| == |s.data.stack|
    decreases n
  {
    hide Step, Exec, Wrap64, Count, Balance, Happens;
    FourDividesWrap(Balance(p, s, n));
    if n == 0 {
      NothingCounted(p, s);
    } else {
      var b := Balance(p, s, n - 1);
      ExecPrefix(p, s, n - 1, n);
      Conservation(p, s, n - 1);
      ExecLast(p, s, n - 1);
      StepCounters(p, Exec(p, s, n - 1).state);
      CountStep(p, s, n - 1);
      Wrap64Add(4 * b, 4);
      Wrap64Add(4 * b, -4);
    }
  }

  lemma NothingCounted(p: Program, s: State)
    requires Initial(s)
    ensures Exec(p, s, 0) == Ok(s) && Balance(p, s, 0) == 0 && Wrap64(0) == 0 && s.data.top == 0 && s.frames == 0
    ensures Count(p, s, 0, Calling) == 0 && Count(p, s, 0, Returning) == 0
  {
  }

  lemma FourDividesWrap(b: int)
    ensures Wrap64(4 * b) % 4 == 0
  {
    var q := 4 * b / TWO_64;
    assert 4 * b == TWO_64 * q + Wrap64(4 * b);
  }

  // ----- staying inside the stack -----

  /** The push or pop about to happen, if any, touches only bytes of the stack and does not take the
      counter through zero. */
  predicate AccessInside(p: Program, s: State)
  {
    && (Happens(p, s, Pushing) ==> s.data.top + 4 + 4 <= |s.data.stack|)
    && (Happens(p, s, Popping) ==> 4 <= s.data.top && s.data.top + 4 <= |s.data.stack|)
  }

  ghost predicate StaysInside(p: Program, s: State, n: nat)
  {
    forall j | 0 <= j < n :: Exec(p, s, j).Ok? ==> AccessInside(p, Exec(p, s, j).state)
  }

  ghost predicate BalanceInRange(p: Program, s: State, n: nat)
  {
    forall j | 0 <= j <= n :: 0 <= Balance(p, s, j) <= |s.data.stack| / 4 - 1
  }

  lemma InsideStep(p: Program, s: State, n: nat)
    requires Exec(p, s, n).Ok? && 4 <= |s.data.stack| && |Exec(p, s, n).state.data.stack| == |s.data.stack|
    requires Exec(p, s, n).state.data.top == 4 * Balance(p, s, n)
    requires 0 <= Balance(p, s, n) <= |s.data.stack| / 4 - 1
    ensures AccessInside(p, Exec(p, s, n).state) <==> 0 <= Balance(p, s, n + 1) <= |s.data.stack| / 4 - 1
  {
    hide Step, Exec;
  }

  lemma InRangeTop(b: int, size: nat)
    requires 0 <= b <= size / 4 - 1 && size < TWO_64
    ensures Wrap64(4 * b) == 4 * b
  {
  }

  /** The pushes and pops among the first `n` instructions stay inside the stack exactly when every
      prefix has at least as many pushes as pops and at most STACK_SIZE/4 - 1 more. */
  lemma {:induction false} InsideIffBalanced(p: Program, s: State, n: nat)
    requires Initial(s) && 4 <= |s.data.stack| < TWO_64
    requires n > 0 ==> Exec(p, s, n - 1).Ok?
    ensures StaysInside(p, s, n) <==> BalanceInRange(p, s, n)
    decreases n
  {
    hide Step, Exec, AccessInside, Balance, Wrap64, Initial;
    if n == 0 {
      EmptyBalance(p, s);
    } else {
      if n > 1 { ExecPrefix(p, s, n - 2, n - 1); }
      InsideIffBalanced(p, s, n - 1);
      Conservation(p, s, n - 1);
      if BalanceInRange(p, s, n - 1) {
        InRangeTop(Balance(p, s, n - 1), |s.data.stack|);
        InsideStep(p, s, n - 1);
      }
    }
  }

  lemma EmptyBalance(p: Program, s: State)
    ensures Balance(p, s, 0) == 0
  {
  }

  /** Inside the stack a push or pop with a valid register does not fault, and the counter does not wrap. */
  lemma InsideDoesNotFault(p: Program, s: State)
    requires AccessInside(p, s) && |s.data.stack| < TWO_64
    requires (Happens(p, s, Pushing) || Happens(p, s, Popping)) && IsReg(p[s.pc].r0)
    ensures Step(p, s).Ok?
    ensures Step(p, s).state.data.top == if Happens(p, s, Pushing) then s.data.top + 4 else s.data.top - 4
  {
    hide Decode, Encode;
  }

  // ----- words -----

  /** The k-th word of byte memory. */
  function Word(stack: seq<u8>, k: nat): u32
    requires 4 * k + 4 <= |stack|
  {
    Decode(stack[4 * k..4 * k + 4])
  }

  predicate Overlaps(a: nat, b: nat) { a < b + 4 && b < a + 4 }

  /** Bytes a save does not overlap keep their values. */
  lemma SavedElsewhere(stack: seq<u8>, address: nat, v: u32, other: nat)
    requires address + 4 <= |stack| && other + 4 <= |stack| && !Overlaps(other, address)
    ensures var saved := SaveWord(stack, address, v).value;
            |saved| == |stack| && saved[other..other + 4] == stack[other..other + 4]
  {
  }

  lemma SavedHere(stack: seq<u8>, address: nat, v: u32)
    requires address + 4 <= |stack|
    ensures var saved := SaveWord(stack, address, v).value;
            |saved| == |stack| && Decode(saved[address..address + 4]) == v
  {
    DecodeEncode(v);
    assert SaveWord(stack, address, v).value[address..address + 4] == Encode(v);
  }

  /** A word saved at an aligned address reads back there and changes no other word. */
  lemma SaveLoad(stack: seq<u8>, address: nat, v: u32, k: nat)
    requires address + 4 <= |stack| && address % 4 == 0 && 4 * k + 4 <= |stack|
    ensures var saved := SaveWord(stack, address, v).value;
            |saved| == |stack| && Word(saved, k) == if k == address / 4 then v else Word(stack, k)
  {
    hide SaveWord, Decode;
    SavedHere(stack, address, v);
    if k != address / 4 {
      SavedElsewhere(stack, address, v, 4 * k);
    }
  }

  datatype Store = NoStore | Store(address: nat, value: u32)

  /** The four-byte store a step makes in the stack, if it makes one. */
  function StoreOf(p: Program, s: State): Store
    requires s.pc < |p|
  {
    var i := p[s.pc];
    if i.op == PUSH && IsReg(i.r0) then Store(Wrap64(s.data.top + 4), s.data.regs[i.r0])
    else if i.op == DSAVE && IsReg(i.r0) && IsReg(i.r1) then Store(s.data.regs[i.r1], s.data.regs[i.r0])
    else NoStore
  }

  lemma StepStores(p: Program, s: State)
    requires !Halted(p, s) && Step(p, s).Ok?
    ensures var t := Step(p, s).state;
            match StoreOf(p, s)
            case NoStore => t.data.stack == s.data.stack
            case Store(a, v) =>
              && a + 4 <= |s.data.stack| && t.data.stack == SaveWord(s.data.stack, a, v).value
              && (Fetches(p, s, DSAVE) || (Fetches(p, s, PUSH) && a == t.data.top))
  {
  }

  /** What word k holds after n steps by the history of the run: the value of the latest PUSH or
      DSAVE to it, or its initial contents. */
  function WordByHistory(p: Program, s: State, n: nat, k: nat): u32
    requires 4 * k + 4 <= |s.data.stack|
  {
    if n == 0 then Word(s.data.stack, k)
    else
      match Exec(p, s, n - 1)
      case Ok(u) =>
        (if Halted(p, u) then WordByHistory(p, s, n - 1, k)
         else match StoreOf(p, u)
              case Store(a, v) => if a == 4 * k then v else WordByHistory(p, s, n - 1, k)
              case NoStore => WordByHistory(p, s, n - 1, k))
      case _ => WordByHistory(p, s, n - 1, k)
  }

  ghost predicate AlignedRun(p: Program, s: State, n: nat)
  {
    forall j | 0 <= j < n && Exec(p, s, j).Ok? && !Halted(p, Exec(p, s, j).state) ::
      var store := StoreOf(p, Exec(p, s, j).state);
      store.Store? ==> store.address % 4 == 0
  }

  /** The byte stack is a word memory: while saves are aligned, every word decodes to the latest
      value stored in it. */
  lemma {:induction false} BytesRefineWords(p: Program, s: State, n: nat, k: nat)
    requires Exec(p, s, n).Ok? && AlignedRun(p, s, n) && 4 * k + 4 <= |s.data.stack|
    ensures |Exec(p, s, n).state.data.stack| == |s.data.stack|
    ensures Word(Exec(p, s, n).state.data.stack, k) == WordByHistory(p, s, n, k)
    decreases n
  {
    hide Step, StoreOf, SaveWord, Word;
    if n > 0 {
      ExecPrefix(p, s, n - 1, n);
      BytesRefineWords(p, s, n - 1, k);
      ExecLast(p, s, n - 1);
      var u := Exec(p, s, n - 1).state;
      StepStores(p, u);
      StepCounters(p, u);
      match StoreOf(p, u)
      case NoStore =>
      case Store(a, v) => SaveLoad(u.data.stack, a, v, k);
    }
  }

  ghost predicate AlignedSaves(p: Program, s: State, n: nat)
  {
    forall j | 0 <= j < n && Exec(p, s, j).Ok? && Happens(p, Exec(p, s, j).state, Saving) ::
      var store := StoreOf(p, Exec(p, s, j).state);
      store.Store? ==> store.address % 4 == 0
  }

  lemma StoreKinds(p: Program, s: State)
    requires !Halted(p, s) && StoreOf(p, s).Store?
    ensures Happens(p, s, Saving) || (Happens(p, s, Pushing) && StoreOf(p, s).address == Wrap64(s.data.top + 4))
  {
  }

  lemma NextWordAligned(top: u64)
    requires top % 4 == 0
    ensures Wrap64(top + 4) % 4 == 0
  {
    FourDividesWrap(top / 4 + 1);
  }

  lemma FreshStoreAligned(p: Program, s: State, j: nat)
    requires Initial(s) && Exec(p, s, j).Ok? && !Halted(p, Exec(p, s, j).state)
    requires StoreOf(p, Exec(p, s, j).state).Store? && !Happens(p, Exec(p, s, j).state, Saving)
    ensures StoreOf(p, Exec(p, s, j).state).address % 4 == 0
  {
    hide Step, StoreOf, Exec, Wrap64, Initial, Happens;
    var t := Exec(p, s, j).state;
    StoreKinds(p, t);
    Conservation(p, s, j);
    NextWordAligned(t.data.top);
  }

  /** From a fresh machine pushes are always aligned, so only the addresses of DSAVE matter. */
  lemma AlignedIffSavesAligned(p: Program, s: State, n: nat)
    requires Initial(s)
    ensures AlignedRun(p, s, n) <==> AlignedSaves(p, s, n)
  {
    hide Step, StoreOf, Exec, Initial;
    if AlignedSaves(p, s, n) {
      forall j | 0 <= j < n && Exec(p, s, j).Ok? && !Halted(p, Exec(p, s, j).state)
        ensures var store := StoreOf(p, Exec(p, s, j).state); store.Store? ==> store.address % 4 == 0
      {
        var t := Exec(p, s, j).state;
        if StoreOf(p, t).Store? && !Happens(p, t, Saving) { FreshStoreAligned(p, s, j); }
      }
    }
  }

  lemma LoadReads(p: Program, s: State)
    requires !Halted(p, s) && Fetches(p, s, DLOAD) && Step(p, s).Ok?
    ensures var i, t := p[s.pc], Step(p, s).state;
            && IsReg(i.r0) && IsReg(i.r1) && s.data.regs[i.r1] + 4 <= |s.data.stack|
            && t.data.regs[i.r0] == Decode(s.data.stack[s.data.regs[i.r1]..s.data.regs[i.r1] + 4])
  {
    hide Decode;
  }

  /** POP reads the latest value stored in the word on top. */
  lemma PopReadsLatestStore(p: Program, s: State, n: nat)
    requires Exec(p, s, n).Ok? && AlignedRun(p, s, n)
    requires Happens(p, Exec(p, s, n).state, Popping) && Step(p, Exec(p, s, n).state).Ok?
    requires Exec(p, s, n).state.data.top % 4 == 0
    ensures var t := Exec(p, s, n).state;
            && IsReg(p[t.pc].r0) && t.data.top + 4 <= |s.data.stack|
            && Step(p, t).state.data.regs[p[t.pc].r0] == WordByHistory(p, s, n, t.data.top / 4)
  {
    hide Step, Decode, WordByHistory, AlignedRun, Exec;
    var t := Exec(p, s, n).state;
    PopReads(p, t);
    StackLength(p, s, n);
    BytesRefineWords(p, s, n, t.data.top / 4);
  }

  /** An aligned DLOAD reads the latest value stored in the word at its address. */
  lemma LoadReadsLatestStore(p: Program, s: State, n: nat)
    requires Exec(p, s, n).Ok? && AlignedRun(p, s, n)
    requires var t := Exec(p, s, n).state; !Halted(p, t) && Fetches(p, t, DLOAD) && Step(p, t).Ok?
    ensures var t := Exec(p, s, n).state;
            var i := p[t.pc];
            && IsReg(i.r0) && IsReg(i.r1) && t.data.regs[i.r1] + 4 <= |s.data.stack|
            && (t.data.regs[i.r1] % 4 == 0 ==>
                  Step(p, t).state.data.regs[i.r0] == WordByHistory(p, s, n, t.data.regs[i.r1] / 4))
  {
    hide Step, Decode, WordByHistory, AlignedRun, Exec;
    var t := Exec(p, s, n).state;
    LoadReads(p, t);
    StackLength(p, s, n);
    if t.data.regs[p[t.pc].r1] % 4 == 0 {
      BytesRefineWords(p, s, n, t.data.regs[p[t.pc].r1] / 4);
    }
  }

  /** From a fresh machine with aligned saves every POP reads the latest value stored in the word on top. */
  lemma FreshPopReadsLatestStore(p: Program, s: State, n: nat)
    requires Initial(s) && Exec(p, s, n).Ok? && AlignedSaves(p, s, n)
    requires Happens(p, Exec(p, s, n).state, Popping) && Step(p, Exec(p, s, n).state).Ok?
    ensures var t := Exec(p, s, n).state;
            && IsReg(p[t.pc].r0) && t.data.top + 4 <= |s.data.stack|
            && Step(p, t).state.data.regs[p[t.pc].r0] == WordByHistory(p, s, n, t.data.top / 4)
  {
    hide Step, WordByHistory, AlignedRun, AlignedSaves, Exec, Initial, Wrap64, StoreOf;
    AlignedIffSavesAligned(p, s, n);
    Conservation(p, s, n);
    PopReadsLatestStore(p, s, n);
  }

  lemma {:induction false} StackLength(p: Program, s: State, n: nat)
    requires Exec(p, s, n).Ok?
    ensures |Exec(p, s, n).state.data.stack| == |s.data.stack|
    decreases n
  {
    hide Step;
    if n > 0 {
      ExecPrefix(p, s, n - 1, n);
      StackLength(p, s, n - 1);
      ExecLast(p, s, n - 1);
      StepCounters(p, Exec(p, s, n - 1).state);
    }
  }

  // ----- last in, first out -----

  /** At step j of the run the stack counter is at `h` or above and no DSAVE is about to overlap the word at `h`. */
  ghost predicate Untouched(p: Program, s: State, j: nat, h: nat)
  {
    && Exec(p, s, j).Ok? && h <= Exec(p, s, j).state.data.top
    && var t := Exec(p, s, j).state;
       Fetches(p, t, DSAVE) && StoreOf(p, t).Store? ==> !Overlaps(StoreOf(p, t).address, h)
  }

  lemma StepLeavesWord(p: Program, s: State, h: nat)
    requires !Halted(p, s) && Step(p, s).Ok? && 4 <= h && h + 4 <= |s.data.stack|
    requires h <= s.data.top && h <= Step(p, s).state.data.top
    requires Fetches(p, s, DSAVE) && StoreOf(p, s).Store? ==> !Overlaps(StoreOf(p, s).address, h)
    ensures var t := Step(p, s).state;
            |t.data.stack| == |s.data.stack| && t.data.stack[h..h + 4] == s.data.stack[h..h + 4]
  {
    hide Step, SaveWord, StoreOf, Decode, Encode;
    StepStores(p, s);
    StepCounters(p, s);
    match StoreOf(p, s)
    case NoStore =>
    case Store(a, v) =>
      assert !Overlaps(h, a);
      SavedElsewhere(s.data.stack, a, v, h);
  }

  /** While the stack counter stays at `h` or above and no DSAVE overlaps the word at `h`, that word
      keeps its bytes. */
  lemma {:induction false} WordKept(p: Program, s: State, k: nat, h: nat)
    requires 0 < k && 4 <= h && Exec(p, s, 1).Ok? && h + 4 <= |Exec(p, s, 1).state.data.stack|
    requires Exec(p, s, k).Ok? && h <= Exec(p, s, k).state.data.top
    requires forall j | 0 < j < k :: Untouched(p, s, j, h)
    ensures var first, t := Exec(p, s, 1).state, Exec(p, s, k).state;
            |t.data.stack| == |first.data.stack| && t.data.stack[h..h + 4] == first.data.stack[h..h + 4]
    decreases k
  {
    hide Step, StoreOf, Exec;
    if k > 1 {
      assert Untouched(p, s, k - 1, h);
      WordKept(p, s, k - 1, h);
      ExecLast(p, s, k - 1);
      StepLeavesWord(p, Exec(p, s, k - 1).state, h);
    }
  }

  /** A POP at the height where a PUSH left the stack returns the pushed value, provided the height
      never went below in between and no DSAVE touched that word. */
  lemma PushPopMatch(p: Program, s: State, k: nat, h: nat)
    requires Happens(p, s, Pushing) && AccessInside(p, s) && |s.data.stack| < TWO_64 && h == s.data.top + 4
    requires 0 < k && Exec(p, s, k + 1).Ok?
    requires forall j | 0 < j < k :: Untouched(p, s, j, h)
    requires Exec(p, s, k).Ok? && Fetches(p, Exec(p, s, k).state, POP)
    requires Exec(p, s, k).state.data.top == h
    ensures var t, u := Exec(p, s, k).state, Exec(p, s, k + 1).state;
            && u.data.top == s.data.top
            && IsReg(p[t.pc].r0) && IsReg(p[s.pc].r0)
            && u.data.regs[p[t.pc].r0] == s.data.regs[p[s.pc].r0]
  {
    hide Step, SaveWord, Decode, StoreOf, Untouched, Exec;
    ExecStart(p, s);
    ExecPrefix(p, s, 1, k);
    ExecLast(p, s, 0);
    PushStores(p, s);
    WordKept(p, s, k, h);
    ExecLast(p, s, k);
    PopReads(p, Exec(p, s, k).state);
  }

  lemma ExecStart(p: Program, s: State)
    ensures Exec(p, s, 0) == Ok(s)
  {
  }

  lemma PushStores(p: Program, s: State)
    requires Happens(p, s, Pushing) && Step(p, s).Ok? && AccessInside(p, s) && |s.data.stack| < TWO_64
    ensures var h, t := s.data.top + 4, Step(p, s).state;
            && IsReg(p[s.pc].r0) && |t.data.stack| == |s.data.stack| && h + 4 <= |s.data.stack|
            && Decode(t.data.stack[h..h + 4]) == s.data.regs[p[s.pc].r0]
  {
    hide Decode, Encode;
    SavedHere(s.data.stack, s.data.top + 4, s.data.regs[p[s.pc].r0]);
  }

  lemma PopReads(p: Program, s: State)
    requires Happens(p, s, Popping) && Step(p, s).Ok?
    ensures var t := Step(p, s).state;
            && IsReg(p[s.pc].r0) && s.data.top + 4 <= |s.data.stack|
            && t.data.regs[p[s.pc].r0] == Decode(s.data.stack[s.data.top..s.data.top + 4])
            && t.data.top == Wrap64(s.data.top - 4)
  {
    hide Decode;
  }

  // ----- the stack as a list of words -----

  /** The counter is aligned and inside the stack. */
  predicate InOrder(d: Data) { d.top % 4 == 0 && d.top + 4 <= |d.stack| < TWO_64 }

  /** The words up to the counter, the first pushed first. */
  function StackWords(d: Data): (ws: seq<u32>)
    requires InOrder(d)
    ensures |ws| == d.top / 4
  {
    seq(d.top / 4, k requires 0 <= k < d.top / 4 => Word(d.stack, k + 1))
  }

  /** The DSAVE about to happen, if any, touches no byte of a word in use. */
  predicate SparesWords(p: Program, s: State)
  {
    Happens(p, s, Saving) && StoreOf(p, s).Store? ==>
      var a := StoreOf(p, s).address; s.data.top == 0 || a == 0 || s.data.top + 4 <= a
  }

  lemma WordOfBytes(a: seq<u8>, b: seq<u8>, k: nat)
    requires |a| == |b| && 4 * k + 4 <= |a| && a[4 * k..4 * k + 4] == b[4 * k..4 * k + 4]
    ensures Word(a, k) == Word(b, k)
  {
  }

  /** A store that touches no word in use changes none of them. */
  lemma StoreSparesWord(before: Data, after: Data, a: nat, v: u32, k: nat)
    requires InOrder(before) && InOrder(after) && k < before.top / 4 && k < after.top / 4
    requires a + 4 <= |before.stack| && after.stack == SaveWord(before.stack, a, v).value
    requires a == 0 || before.top + 4 <= a
    ensures StackWords(after)[k] == StackWords(before)[k]
  {
    hide SaveWord, Word;
    SavedElsewhere(before.stack, a, v, 4 * (k + 1));
    WordOfBytes(after.stack, before.stack, k + 1);
  }

  lemma PushMoves(p: Program, s: State)
    requires InOrder(s.data) && Happens(p, s, Pushing) && AccessInside(p, s) && Step(p, s).Ok?
    ensures var t := Step(p, s).state;
            && InOrder(t.data) && t.data.top == s.data.top + 4 && IsReg(p[s.pc].r0)
            && t.data.stack == SaveWord(s.data.stack, s.data.top + 4, s.data.regs[p[s.pc].r0]).value
  {
    hide Step, SaveWord, Wrap64;
    InRangeTop(s.data.top / 4 + 1, |s.data.stack|);
    assert 4 * (s.data.top / 4 + 1) == s.data.top + 4;
    StepCounters(p, s);
    StepStores(p, s);
    PushesRegister(p, s);
  }

  lemma PushesRegister(p: Program, s: State)
    requires Happens(p, s, Pushing) && Step(p, s).Ok?
    ensures IsReg(p[s.pc].r0) && StoreOf(p, s) == Store(Wrap64(s.data.top + 4), s.data.regs[p[s.pc].r0])
  {
    hide Push, Wrap64;
  }

  lemma WordAtByte(stack: seq<u8>, h: nat)
    requires h % 4 == 0 && h + 4 <= |stack|
    ensures Word(stack, h / 4) == Decode(stack[h..h + 4])
  {
    hide Decode;
    assert 4 * (h / 4) == h;
  }

  /** PUSH appends to the words. */
  lemma PushAppends(p: Program, s: State)
    requires InOrder(s.data) && Happens(p, s, Pushing) && AccessInside(p, s) && Step(p, s).Ok?
    ensures var t := Step(p, s).state;
            InOrder(t.data) && IsReg(p[s.pc].r0)
            && StackWords(t.data) == StackWords(s.data) + [s.data.regs[p[s.pc].r0]]
  {
    hide Step, SaveWord, Decode, InOrder;
    InOrderTop(s.data);
    PushMoves(p, s);
    PushStores(p, s);
    var t, v := Step(p, s).state, s.data.regs[p[s.pc].r0];
    InOrderTop(t.data);
    forall k | 0 <= k < |StackWords(s.data)| ensures StackWords(t.data)[k] == StackWords(s.data)[k] {
      StoreSparesWord(s.data, t.data, s.data.top + 4, v, k);
    }
    WordAtByte(t.data.stack, s.data.top + 4);
    assert StackWords(t.data)[s.data.top / 4] == v;
  }

  lemma InOrderTop(d: Data)
    requires InOrder(d)
    ensures d.top % 4 == 0 && d.top + 4 <= |d.stack| < TWO_64
  {
  }

  /** POP takes the last word. */
  lemma PopDropsLast(p: Program, s: State)
    requires InOrder(s.data) && Happens(p, s, Popping) && AccessInside(p, s) && Step(p, s).Ok?
    ensures var t, ws := Step(p, s).state, StackWords(s.data);
            && InOrder(t.data) && IsReg(p[s.pc].r0) && ws != []
            && StackWords(t.data) == ws[..|ws| - 1] && t.data.regs[p[s.pc].r0] == ws[|ws| - 1]
  {
    hide Step, SaveWord, Decode, StoreOf;
    StepCounters(p, s);
    PopReads(p, s);
    PopStoresNothing(p, s);
    InRangeTop(s.data.top / 4 - 1, |s.data.stack|);
    assert StackWords(s.data)[s.data.top / 4 - 1] == Word(s.data.stack, s.data.top / 4);
  }

  lemma PopStoresNothing(p: Program, s: State)
    requires Happens(p, s, Popping) && Step(p, s).Ok?
    ensures Step(p, s).state.data.stack == s.data.stack
  {
    hide Decode;
  }

  /** Every other instruction leaves the words alone. */
  lemma OthersKeepWords(p: Program, s: State)
    requires InOrder(s.data) && !Halted(p, s) && SparesWords(p, s) && Step(p, s).Ok?
    requires !Happens(p, s, Pushing) && !Happens(p, s, Popping)
    ensures var t := Step(p, s).state; InOrder(t.data) && StackWords(t.data) == StackWords(s.data)
  {
    hide Step, SaveWord, StoreOf, Word;
    var t := Step(p, s).state;
    StepCounters(p, s);
    StepStores(p, s);
    match StoreOf(p, s)
    case NoStore =>
    case Store(a, v) =>
      forall k | 0 <= k < |StackWords(s.data)| ensures StackWords(t.data)[k] == StackWords(s.data)[k] {
        StoreSparesWord(s.data, t.data, a, v, k);
      }
  }

  /** The list machine of pushes and pops along the run. */
  function Listed(p: Program, s: State, n: nat): seq<u32>
  {
    if n == 0 then []
    else
      var ws := Listed(p, s, n - 1);
      match Exec(p, s, n - 1)
      case Ok(u) =>
        if Happens(p, u, Pushing) && IsReg(p[u.pc].r0) then ws + [u.data.regs[p[u.pc].r0]]
        else if Happens(p, u, Popping) && ws != [] then ws[..|ws| - 1]
        else ws
      case _ => ws
  }

  ghost predicate SparesAll(p: Program, s: State, n: nat)
  {
    forall j | 0 <= j < n && Exec(p, s, j).Ok? :: SparesWords(p, Exec(p, s, j).state)
  }

  lemma StepKeepsList(p: Program, s: State, n: nat)
    requires Exec(p, s, n).Ok? && !Halted(p, Exec(p, s, n).state) && Step(p, Exec(p, s, n).state).Ok?
    requires var u := Exec(p, s, n).state;
             && InOrder(u.data) && StackWords(u.data) == Listed(p, s, n)
             && AccessInside(p, u) && SparesWords(p, u)
    ensures var t := Step(p, Exec(p, s, n).state).state;
            InOrder(t.data) && StackWords(t.data) == Listed(p, s, n + 1)
  {
    hide Step, StackWords, InOrder, SparesWords, AccessInside, Exec;
    var u := Exec(p, s, n).state;
    if Happens(p, u, Pushing) {
      PushAppends(p, u);
    } else if Happens(p, u, Popping) {
      PopDropsLast(p, u);
    } else {
      OthersKeepWords(p, u);
    }
  }

  /** The byte stack is a list of words, last in first out: over every run from a fresh machine in which the
      balance of pushes and pops stays in range and no DSAVE touches a word in use, the words up to the
      counter are what the pushes append and the pops drop. */
  lemma {:induction false} StackIsList(p: Program, s: State, n: nat)
    requires Initial(s) && 4 <= |s.data.stack| < TWO_64 && Exec(p, s, n).Ok?
    requires BalanceInRange(p, s, n) && SparesAll(p, s, n)
    ensures var d := Exec(p, s, n).state.data;
            InOrder(d) && StackWords(d) == Listed(p, s, n) && |Listed(p, s, n)| == Balance(p, s, n)
    decreases n
  {
    hide Step, Initial, StackWords, InOrder, SparesWords, AccessInside, Balance, Exec;
    if n == 0 {
      EmptyStack(p, s);
    } else {
      ExecPrefix(p, s, n - 1, n);
      ExecLast(p, s, n - 1);
      StackIsList(p, s, n - 1);
      InsideIffBalanced(p, s, n);
      StepKeepsList(p, s, n - 1);
      Conservation(p, s, n);
      InRangeTop(Balance(p, s, n), |s.data.stack|);
      TopOfWords(Exec(p, s, n).state.data, Balance(p, s, n));
    }
  }

  lemma EmptyStack(p: Program, s: State)
    requires Initial(s) && 4 <= |s.data.stack| < TWO_64
    ensures Exec(p, s, 0) == Ok(s) && InOrder(s.data) && StackWords(s.data) == [] && Balance(p, s, 0) == 0
  {
  }

  lemma TopOfWords(d: Data, b: int)
    requires InOrder(d) && d.top == 4 * b
    ensures |StackWords(d)| == b
  {
  }

  /** So the next POP returns the last word of the list. */
  lemma PopReturnsLast(p: Program, s: State, n: nat)
    requires Initial(s) && 4 <= |s.data.stack| < TWO_64 && Exec(p, s, n).Ok?
    requires BalanceInRange(p, s, n + 1) && SparesAll(p, s, n)
    requires Happens(p, Exec(p, s, n).state, Popping) && Step(p, Exec(p, s, n).state).Ok?
    ensures var t, ws := Exec(p, s, n).state, Listed(p, s, n);
            && IsReg(p[t.pc].r0) && ws != [] && Step(p, t).state.data.regs[p[t.pc].r0] == ws[|ws| - 1]
  {
    hide Step, Initial, StackWords, InOrder, SparesWords, AccessInside, Balance, Exec, Listed;
    StackIsList(p, s, n);
    InsideIffBalanced(p, s, n + 1);
    PopDropsLast(p, Exec(p, s, n).state);
  }
}
