/** The recursive example, examples/recursive_function_call.caasm: what the assembler makes of it, and
    what that program returns. */
module Example {
  import opened Words
  import opened Semantics
  import opened Tokenizer
  import opened Assembler
  import opened Passes
  import opened PassTheorems
  import opened Caasm
  import opened RoundTrip
  import opened SourceText
  import opened NativePrograms
  import opened NativeTests

  function CodeLines(p: Program): seq<Content>
  {
    seq(|p|, k requires 0 <= k < |p| => Code(p[k]))
  }

  const ENTRY_CODE: Program := [Set(0, 0), Rec(), One(PUSH, 0), CallTo(5), One(RET, 0)]
  const COUNT_CODE: Program :=
    [One(POP, 0), Set(1, 1), Set(2, 5), Three(ADD, 0, 0, 1), One(REG_DUMP, 0), Nejmp(12, 0, 2)]
  const END_CODE: Program := [One(RET, 0)]
  const AGAIN_CODE: Program := [One(PUSH, 0), CallTo(5), One(RET, 0)]

  // The example from its last label, its last label but one and its first label on.
  const FROM_THIRD: seq<Content> := [Named("Lreccon")] + ([Code(Rec())] + (CodeLines(AGAIN_CODE) + []))
  const FROM_SECOND: seq<Content> := [Named("Lrecend")] + (CodeLines(END_CODE) + FROM_THIRD)
  const FROM_FIRST: seq<Content> := [Named("Lrec")] + (CodeLines(COUNT_CODE) + FROM_SECOND)

  /** What stands on the lines of the example. */
  const EXAMPLE: seq<Content> := CodeLines(ENTRY_CODE) + FROM_FIRST

  // ----- both passes over stretches of code -----

  lemma {:induction false} CodeSurvives(p: Program, rest: seq<Content>, stale: bool)
    requires p != [] ==> !(stale && IsBare(p[0].op))
    ensures Survivors(CodeLines(p) + rest, stale) == p + Survivors(rest, p == [] && stale)
    decreases |p|
  {
    hide IsBare;
    var cs := CodeLines(p) + rest;
    if p == [] {
      assert cs == rest;
    } else {
      assert cs[0] == Code(p[0]) && cs[1..] == CodeLines(p[1..]) + rest;
      CodeSurvives(p[1..], rest, false);
    }
  }

  lemma {:induction false} CodeTallied(p: Program, rest: seq<Content>, t: Tally)
    requires !t.kept && (p != [] ==> !(t.stale && IsBare(p[0].op)))
    ensures Tallied(CodeLines(p) + rest, t) == Tallied(rest, t.(count := t.count + |p|, stale := p == [] && t.stale))
    decreases |p|
  {
    hide IsBare;
    var cs := CodeLines(p) + rest;
    if p == [] {
      assert cs == rest;
    } else {
      assert cs[0] == Code(p[0]) && cs[1..] == CodeLines(p[1..]) + rest;
      CodeTallied(p[1..], rest, t.(count := t.count + 1, stale := false));
    }
  }

  lemma FirstContent(c: Content, rest: seq<Content>, stale: bool, t: Tally)
    ensures Survivors([c] + rest, stale) == Emits(c, stale) + Survivors(rest, StaleAfter(c, stale))
    ensures Tallied([c] + rest, t) == Tallied(rest, TallyLine(t, c))
  {
    assert ([c] + rest)[1..] == rest;
  }

  // ----- the example -----

  lemma LastSurvivors()
    ensures Survivors(FROM_THIRD, false) == AGAIN_CODE
  {
    hide CodeLines;
    var behind := CodeLines(AGAIN_CODE) + [];
    FirstContent(Named("Lreccon"), [Code(Rec())] + behind, false, NO_TALLY);
    FirstContent(Code(Rec()), behind, true, NO_TALLY);
    CodeSurvives(AGAIN_CODE, [], true);
  }

  /** The second pass drops the bare rec behind the label Lreccon. */
  lemma ExampleSurvivors()
    ensures Survivors(EXAMPLE, false) == RecursionWithoutRec(5)
  {
    hide CodeLines, FROM_FIRST, FROM_SECOND, FROM_THIRD;
    CodeSurvives(ENTRY_CODE, FROM_FIRST, false);
    FirstSurvivors();
    LastSurvivors();
    assert ENTRY_CODE + (COUNT_CODE + (END_CODE + AGAIN_CODE)) == RecursionWithoutRec(5);
  }

  lemma FirstSurvivors()
    ensures Survivors(FROM_FIRST, false) == COUNT_CODE + (END_CODE + Survivors(FROM_THIRD, false))
  {
    hide CodeLines, FROM_THIRD;
    FirstContent(Named("Lrec"), CodeLines(COUNT_CODE) + FROM_SECOND, false, NO_TALLY);
    CodeSurvives(COUNT_CODE, FROM_SECOND, true);
    FirstContent(Named("Lrecend"), CodeLines(END_CODE) + FROM_THIRD, false, NO_TALLY);
    CodeSurvives(END_CODE, FROM_THIRD, true);
  }

  const EXAMPLE_LABELS: seq<Label> := [Label("Lrec", 5), Label("Lrecend", 11), Label("Lreccon", 12)]

  lemma FirstTally(t: Tally)
    requires t == Tally([], 5, false, false)
    ensures Tallied(FROM_FIRST, t)
            == Tallied(FROM_THIRD, Tally([Label("Lrec", 5), Label("Lrecend", 11)], 12, false, false))
  {
    hide CodeLines, FROM_THIRD;
    FirstContent(Named("Lrec"), CodeLines(COUNT_CODE) + FROM_SECOND, false, t);
    var t1 := Tally([Label("Lrec", 5)], 5, true, false);
    assert TallyLine(t, Named("Lrec")) == t1;
    CodeTallied(COUNT_CODE, FROM_SECOND, t1);
    var t2 := Tally([Label("Lrec", 5)], 11, false, false);
    FirstContent(Named("Lrecend"), CodeLines(END_CODE) + FROM_THIRD, false, t2);
    var t3 := Tally([Label("Lrec", 5), Label("Lrecend", 11)], 11, true, false);
    assert TallyLine(t2, Named("Lrecend")) == t3;
    CodeTallied(END_CODE, FROM_THIRD, t3);
  }

  lemma LastTally(t: Tally)
    requires t == Tally([Label("Lrec", 5), Label("Lrecend", 11)], 12, false, false)
    ensures Tallied(FROM_THIRD, t) == Tally(EXAMPLE_LABELS, 15, false, false)
  {
    hide CodeLines;
    var behind := CodeLines(AGAIN_CODE) + [];
    FirstContent(Named("Lreccon"), [Code(Rec())] + behind, false, t);
    var t1 := Tally(EXAMPLE_LABELS, 12, true, false);
    assert TallyLine(t, Named("Lreccon")) == t1;
    FirstContent(Code(Rec()), behind, true, t1);
    var t2 := Tally(EXAMPLE_LABELS, 12, true, true);
    var more := CodeLines(AGAIN_CODE[1..]) + [];
    SplitCode(AGAIN_CODE, []);
    FirstContent(Code(One(PUSH, 0)), more, true, t2);
    assert TallyLine(t1, Code(Rec())) == t2;
    assert TallyLine(t2, Code(One(PUSH, 0))) == Tally(EXAMPLE_LABELS, 13, false, false);
    CodeTallied(AGAIN_CODE[1..], [], Tally(EXAMPLE_LABELS, 13, false, false));
  }

  lemma SplitCode(p: Program, rest: seq<Content>)
    requires p != []
    ensures CodeLines(p) + rest == [Code(p[0])] + (CodeLines(p[1..]) + rest)
  {
  }

  /** The first pass takes the rec behind Lreccon and the push behind it for one instruction. */
  lemma ExampleTally()
    ensures Tallied(EXAMPLE, NO_TALLY) == Tally(EXAMPLE_LABELS, 15, false, false)
  {
    hide CodeLines, FROM_FIRST, FROM_THIRD, EXAMPLE_LABELS;
    CodeTallied(ENTRY_CODE, FROM_FIRST, NO_TALLY);
    FirstTally(Tally([], 5, false, false));
    LastTally(Tally([Label("Lrec", 5), Label("Lrecend", 11)], 12, false, false));
  }

  // ----- the example has a text -----

  function Laid(cs: seq<Content>): seq<Row>
  {
    seq(|cs|, k requires 0 <= k < |cs| => Row("\t", cs[k], "", '\n'))
  }

  predicate AreContents(cs: seq<Content>) { forall k | 0 <= k < |cs| :: IsContent(cs[k]) && !cs[k].Nothing? }

  lemma {:induction false} LaidStands(cs: seq<Content>)
    requires AreContents(cs)
    ensures AreRows(Laid(cs)) && Standing(Laid(cs)) == cs
    decreases |cs|
  {
    hide IsContent;
    if cs != [] {
      LaidStands(cs[1..]);
      assert Laid(cs)[1..] == Laid(cs[1..]);
      forall k | 0 <= k < |cs| ensures IsRow(Laid(cs)[k]) { assert IsContent(cs[k]); }
    }
  }

  lemma CodeIsContent(p: Program, rest: seq<Content>)
    requires IsCanonicalProgram(p) && AreContents(rest)
    ensures AreContents(CodeLines(p) + rest)
  {
    hide IsCanonical;
    var cs := CodeLines(p) + rest;
    forall k | 0 <= k < |cs| ensures IsContent(cs[k]) && !cs[k].Nothing? {
      if k < |p| { assert cs[k] == Code(p[k]); } else { assert cs[k] == rest[k - |p|]; }
    }
  }

  lemma LabelIsContent(c: Content, rest: seq<Content>)
    requires IsContent(c) && !c.Nothing? && AreContents(rest)
    ensures AreContents([c] + rest)
  {
    hide IsContent;
    forall k | 0 < k <= |rest| ensures ([c] + rest)[k] == rest[k - 1] {}
  }

  lemma ExampleNames()
    ensures IsContent(Named("Lrec")) && IsContent(Named("Lrecend")) && IsContent(Named("Lreccon"))
  {
  }

  lemma ExampleCode()
    ensures IsCanonicalProgram(ENTRY_CODE) && IsCanonicalProgram(COUNT_CODE)
    ensures IsCanonicalProgram(END_CODE) && IsCanonicalProgram(AGAIN_CODE) && IsContent(Code(Rec()))
  {
  }

  lemma ExampleHasText()
    ensures AreRows(Laid(EXAMPLE)) && Standing(Laid(EXAMPLE)) == EXAMPLE
  {
    hide CodeLines, AreContents, IsContent, IsCanonicalProgram;
    ExampleNames();
    ExampleCode();
    NoContents();
    CodeIsContent(AGAIN_CODE, []);
    LabelIsContent(Code(Rec()), CodeLines(AGAIN_CODE) + []);
    LabelIsContent(Named("Lreccon"), [Code(Rec())] + (CodeLines(AGAIN_CODE) + []));
    CodeIsContent(END_CODE, FROM_THIRD);
    LabelIsContent(Named("Lrecend"), CodeLines(END_CODE) + FROM_THIRD);
    CodeIsContent(COUNT_CODE, FROM_SECOND);
    LabelIsContent(Named("Lrec"), CodeLines(COUNT_CODE) + FROM_SECOND);
    CodeIsContent(ENTRY_CODE, FROM_FIRST);
    LaidStands(EXAMPLE);
  }

  lemma NoContents()
    ensures AreContents([])
  {
  }

  // ----- both passes over the example -----

  lemma {:induction false} CountCodeAdd(p: Program, rest: seq<Content>)
    ensures CountCode(CodeLines(p) + rest) == |p| + CountCode(rest)
    decreases |p|
  {
    if p == [] {
      assert CodeLines(p) + rest == rest;
    } else {
      SplitCode(p, rest);
      CountCodeAdd(p[1..], rest);
    }
  }

  lemma ExampleHolds()
    ensures CountCode(EXAMPLE) == 16
  {
    hide CodeLines;
    CountCodeAdd(AGAIN_CODE, []);
    CountCodeAdd(END_CODE, FROM_THIRD);
    CountCodeAdd(COUNT_CODE, FROM_SECOND);
    CountCodeAdd(ENTRY_CODE, FROM_FIRST);
    assert FROM_THIRD[1..][1..] == CodeLines(AGAIN_CODE) + [];
    assert FROM_SECOND[1..] == CodeLines(END_CODE) + FROM_THIRD;
    assert FROM_FIRST[1..] == CodeLines(COUNT_CODE) + FROM_SECOND;
  }

  /** What the assembler makes of the example, in whatever layout and with whatever comments: both passes
      count 15 of the 16 instructions on its lines, and the program is the recursive native test with the
      bound 5 without its second REC. */
  lemma ExampleAssembles(rows: seq<Row>)
    requires AreRows(rows) && Standing(rows) == EXAMPLE
    ensures CountHeld(AllLines(Lex(RowsText(rows)))) == 16
    ensures var index := IndexFrom(START_INDEX, Lex(RowsText(rows)));
            index.labels == EXAMPLE_LABELS && index.lc == 15
    ensures AssembleText(RowsText(rows)) == Emitted(RecursionWithoutRec(5))
  {
    hide EXAMPLE, EXAMPLE_LABELS, AssembleText, IndexFrom, Lex, RowsText, AllLines;
    RowsAssemble(rows);
    ExampleTally();
    ExampleSurvivors();
    RowsAreLines(rows);
    HeldOnRows(rows);
    ExampleHolds();
  }

  /** All the same it returns 5 like the native test, in 48 steps where that one takes 52, with both counters
      back at zero. */
  lemma ExampleReturnsFive(rows: seq<Row>, s: State) returns (t: State)
    requires AreRows(rows) && Standing(rows) == EXAMPLE
    requires Initial(s) && |s.data.stack| >= 8 && |s.mem| >= 5
    ensures AssembleText(RowsText(rows)).Emitted?
    ensures Runs(AssembleText(RowsText(rows)).value, s, 48, t, 5) && Finished(s, t, 5)
  {
    hide EXAMPLE, AssembleText, RowsText, AllLines, Lex, IndexFrom, RecursionWithoutRec, Exec, Initial;
    ExampleAssembles(rows);
    WrapSmall(5);
    t := RecursionFinishes(5, false, s);
  }
}
