/** The two passes over the token list: index_labels and assemble_program of
    src/assembler/basic_assembler.c, with the token buffer tk they keep from line to line. */
module Passes {
  import opened Semantics
  import opened Tokenizer
  import opened Assembler

  const TK_SIZE := 32

  const END := Symbol(ExpressionEnd)
  const HASH := Symbol(Hash)
  const COLON := Symbol(Colon)

  // ----- the first pass -----

  /** `line` is tk[..ic]; `staleColon` tells whether tk[1] holds a colon, which matters while the
      line is shorter than two tokens and tk[1] is left from an earlier line. */
  datatype Index = Index(line: seq<Token>, staleColon: bool, labels: seq<Label>, lc: nat, comment: bool)

  const START_INDEX := Index([], false, [], 0, false)

  predicate SecondIsColon(line: seq<Token>, staleColon: bool)
  {
    if |line| >= 2 then line[1] == COLON else staleColon
  }

  /** What a line end does in index_labels. The reset loop there runs zero times, so tk keeps its tokens;
      a one-word line that looks like a label through a stale colon is kept for the next line. */
  function IndexLineEnd(s: Index): Index
  {
    var colon := SecondIsColon(s.line, s.staleColon);
    if s.line != [] && s.line[0].Word? && colon && |s.line| == 1 then s
    else
      var labels := if s.line != [] && s.line[0].Word? && colon
                    then s.labels + [Label(s.line[0].text, s.lc)] else s.labels;
      var lc := if s.line != [] && !colon then s.lc + 1 else s.lc;
      s.(line := [], staleColon := colon, labels := labels, lc := lc)
  }

  function IndexToken(s: Index, t: Token): Index
  {
    if s.comment && t != END then s
    else if !s.comment && t == HASH then s.(comment := true)
    else if t != END then s.(line := s.line + [t])
    else IndexLineEnd(s.(comment := false))
  }

  function IndexFrom(s: Index, ts: seq<Token>): Index
    decreases |ts|
  {
    if ts == [] then s else IndexFrom(IndexToken(s, ts[0]), ts[1..])
  }

  lemma {:induction false} IndexFromAdd(s: Index, a: seq<Token>, b: seq<Token>)
    ensures IndexFrom(s, a + b) == IndexFrom(IndexFrom(s, a), b)
    decreases |a|
  {
    if a == [] {
      assert a + b == b;
    } else {
      assert (a + b)[0] == a[0] && (a + b)[1..] == a[1..] + b;
      IndexFromAdd(IndexToken(s, a[0]), a[1..], b);
    }
  }

  /** The token buffer is never written past its end. */
  ghost predicate IndexFits(list: seq<Token>)
  {
    forall i | 0 <= i <= |list| :: |IndexFrom(START_INDEX, list[..i]).line| <= TK_SIZE
  }

  lemma IndexFromNext(list: seq<Token>, i: nat)
    requires i < |list|
    ensures IndexFrom(START_INDEX, list[..i + 1]) == IndexToken(IndexFrom(START_INDEX, list[..i]), list[i])
  {
    assert list[..i + 1] == list[..i] + [list[i]];
    IndexFromAdd(START_INDEX, list[..i], [list[i]]);
    var s := IndexFrom(START_INDEX, list[..i]);
    assert IndexFrom(s, [list[i]]) == IndexFrom(IndexToken(s, list[i]), []);
  }

  /** The buffer holds the current line, and tk[1] is a colon just when the state says so. */
  ghost predicate Holds(tk: array<Token>, ic: nat, line: seq<Token>, staleColon: bool)
    reads tk
  {
    && tk.Length == TK_SIZE && ic == |line| <= TK_SIZE && tk[..ic] == line
    && (tk[1] == COLON <==> SecondIsColon(line, staleColon))
  }

  /** index_labels as written, over a token buffer that is never cleared. */
  method IndexLabels(list: seq<Token>) returns (labels: seq<Label>, lc: nat)
    requires IndexFits(list)
    ensures labels == IndexFrom(START_INDEX, list).labels && lc == IndexFrom(START_INDEX, list).lc
  {
    labels, lc := [], 0;
    var ic := 0;
    var tk := new Token[TK_SIZE](_ => Symbol(Plus));
    var lineIsComment := false;
    for i := 0 to |list|
      invariant var s := IndexFrom(START_INDEX, list[..i]);
                && labels == s.labels && lc == s.lc && lineIsComment == s.comment
                && Holds(tk, ic, s.line, s.staleColon)
    {
      ghost var s := IndexFrom(START_INDEX, list[..i]);
      IndexFromNext(list, i);
      assert |IndexFrom(START_INDEX, list[..i + 1]).line| <= TK_SIZE;
      var isLineEnd := list[i] == END;
      var isHashSymbol := list[i] == HASH;
      if lineIsComment {
        if !isLineEnd { continue; }
        lineIsComment := false;
      } else if isHashSymbol {
        lineIsComment := true;
        continue;
      }
      if !isLineEnd {
        tk[ic] := list[i];
        ic := ic + 1;
        assert tk[..ic] == s.line + [list[i]];
      } else {
        var secondIsColon := tk[1] == COLON;
        var firstIsWord := tk[0].Word?;
        assert ic != 0 ==> tk[0] == s.line[0];
        if firstIsWord && secondIsColon && ic != 0 {
          if ic == 1 { continue; }
          labels := labels + [Label(tk[0].text, lc)];
        }
        if ic != 0 && !secondIsColon { lc := lc + 1; }
        ic := 0;
      }
    }
    assert list[..|list|] == list;
  }

  // ----- the second pass -----

  datatype Emission = Emission(line: seq<Token>, staleColon: bool, program: Program, comment: bool)

  const START_EMISSION := Emission([], false, [], false)

  /** What a line end does in assemble_program. A line that looks like a label is dropped and tk kept;
      the tokens of an assembled line are cleared. */
  ghost function EmitLineEnd(s: Emission, labels: seq<Label>): Assembled<Emission>
  {
    var colon := SecondIsColon(s.line, s.staleColon);
    if s.line == [] then Emitted(s)
    else if s.line[0].Word? && colon then Emitted(s.(line := [], staleColon := true))
    else
      match AssembleLine(s.line, labels)
      case Aborted(e) => Aborted(e)
      case Emitted(i) =>
        Emitted(s.(line := [], staleColon := |s.line| == 1 && s.staleColon, program := s.program + [i]))
  }

  ghost function EmitToken(s: Emission, t: Token, labels: seq<Label>): Assembled<Emission>
  {
    if s.comment && t != END then Emitted(s)
    else if !s.comment && t == HASH then Emitted(s.(comment := true))
    else if t != END then Emitted(s.(line := s.line + [t]))
    else EmitLineEnd(s.(comment := false), labels)
  }

  ghost function EmitFrom(s: Emission, ts: seq<Token>, labels: seq<Label>): Assembled<Emission>
    decreases |ts|
  {
    if ts == [] then Emitted(s)
    else
      match EmitToken(s, ts[0], labels)
      case Aborted(e) => Aborted(e)
      case Emitted(t) => EmitFrom(t, ts[1..], labels)
  }

  lemma {:induction false} EmitFromAdd(s: Emission, a: seq<Token>, b: seq<Token>, labels: seq<Label>)
    ensures EmitFrom(s, a + b, labels) == match EmitFrom(s, a, labels)
                                          case Aborted(e) => Aborted(e)
                                          case Emitted(t) => EmitFrom(t, b, labels)
    decreases |a|
  {
    hide EmitToken;
    if a == [] {
      assert a + b == b;
    } else {
      assert (a + b)[0] == a[0] && (a + b)[1..] == a[1..] + b;
      match EmitToken(s, a[0], labels)
      case Aborted(e) =>
      case Emitted(t) => EmitFromAdd(t, a[1..], b, labels);
    }
  }

  ghost predicate EmissionFits(list: seq<Token>, labels: seq<Label>)
  {
    forall i | 0 <= i <= |list| ::
      var r := EmitFrom(START_EMISSION, list[..i], labels); r.Emitted? ==> |r.value.line| <= TK_SIZE
  }

  lemma EmitFromNext(list: seq<Token>, i: nat, labels: seq<Label>)
    requires i < |list| && EmitFrom(START_EMISSION, list[..i], labels).Emitted?
    ensures EmitFrom(START_EMISSION, list[..i + 1], labels)
            == EmitToken(EmitFrom(START_EMISSION, list[..i], labels).value, list[i], labels)
  {
    hide EmitToken;
    assert list[..i + 1] == list[..i] + [list[i]];
    EmitFromAdd(START_EMISSION, list[..i], [list[i]], labels);
    var s := EmitFrom(START_EMISSION, list[..i], labels).value;
    match EmitToken(s, list[i], labels)
    case Aborted(e) =>
    case Emitted(t) => assert EmitFrom(t, [], labels) == Emitted(t);
  }

  lemma EmitAborts(list: seq<Token>, i: nat, labels: seq<Label>)
    requires i <= |list| && EmitFrom(START_EMISSION, list[..i], labels).Aborted?
    ensures EmitFrom(START_EMISSION, list, labels) == EmitFrom(START_EMISSION, list[..i], labels)
  {
    hide EmitToken;
    assert list == list[..i] + list[i..];
    EmitFromAdd(START_EMISSION, list[..i], list[i..], labels);
  }

  /** assemble_program as written. */
  method AssembleProgram(list: seq<Token>, labels: seq<Label>) returns (r: Assembled<Program>)
    requires EmissionFits(list, labels)
    ensures match EmitFrom(START_EMISSION, list, labels)
            case Emitted(s) => r == Emitted(s.program)
            case Aborted(e) => r == Aborted(e)
  {
    hide AssembleLine;
    var program: Program := [];
    var ic := 0;
    var tk := new Token[TK_SIZE](_ => Symbol(Plus));
    var lineIsComment := false;
    for i := 0 to |list|
      invariant EmitFrom(START_EMISSION, list[..i], labels).Emitted?
      invariant var s := EmitFrom(START_EMISSION, list[..i], labels).value;
                && program == s.program && lineIsComment == s.comment
                && Holds(tk, ic, s.line, s.staleColon)
    {
      ghost var s := EmitFrom(START_EMISSION, list[..i], labels).value;
      EmitFromNext(list, i, labels);
      ghost var next := EmitFrom(START_EMISSION, list[..i + 1], labels);
      assert next.Emitted? ==> |next.value.line| <= TK_SIZE;
      var isLineEnd := list[i] == END;
      var isHashSymbol := list[i] == HASH;
      if lineIsComment {
        if !isLineEnd { continue; }
        lineIsComment := false;
      } else if isHashSymbol {
        lineIsComment := true;
        continue;
      }
      if !isLineEnd {
        tk[ic] := list[i];
        ic := ic + 1;
        assert tk[..ic] == s.line + [list[i]];
      } else {
        var secondIsColon := tk[1] == COLON;
        var firstIsWord := tk[0].Word?;
        assert ic != 0 ==> tk[0] == s.line[0];
        if firstIsWord && secondIsColon && ic != 0 {
          ic := 0;
          continue;
        }
        if ic != 0 {
          var inst := AssembleLineTokens(tk[..ic], labels);
          if inst.Aborted? {
            EmitAborts(list, i + 1, labels);
            return Aborted(inst.error);
          }
          program := program + [inst.value];
        }
        ClearTokens(tk, ic);
        ic := 0;
      }
    }
    assert list[..|list|] == list;
    return Emitted(program);
  }

  /** The reset loop after an assembled line: type zero is the plus sign. */
  method ClearTokens(tk: array<Token>, ic: nat)
    requires ic <= tk.Length
    modifies tk
    ensures forall k | 0 <= k < tk.Length :: tk[k] == if k < ic then Symbol(Plus) else old(tk[k])
  {
    for s := 0 to ic
      invariant forall k | 0 <= k < tk.Length :: tk[k] == if k < s then Symbol(Plus) else old(tk[k])
    {
      tk[s] := Symbol(Plus);
    }
  }
}
