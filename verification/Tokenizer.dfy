/** The lexer of src/tokenizer.c. */
module Tokenizer {

  datatype Kind =
    | Plus | PlusPlus | Minus | MinusMinus | Assign | Equal
    | CurlyOpen | CurlyClose | ParenOpen | ParenClose | Dot | Colon | Comma
    | ExpressionEnd | Hash
    | Null | Space | EndOfBuffer

  /** Words and numbers carry their text; every other token has a NULL literal. */
  datatype Token = Word(text: string) | Number(text: string) | Symbol(kind: Kind)

  predicate IsCharacter(c: char) { 'A' <= c <= 'Z' || 'a' <= c <= 'z' }

  predicate IsSpace(c: char) { c == ' ' || c == '\t' }

  predicate IsNumber(c: char) { '0' <= c <= '9' }

  predicate IsWordPart(c: char) { IsCharacter(c) || IsNumber(c) }

  /** The length of the run of word characters that goes on at `n`. */
  function WordEnd(s: string, n: nat): (end: nat)
    requires n <= |s|
    ensures n <= end <= |s|
    ensures forall i | n <= i < end :: IsWordPart(s[i])
    ensures end < |s| ==> !IsWordPart(s[end])
    decreases |s| - n
  {
    if n < |s| && IsWordPart(s[n]) then WordEnd(s, n + 1) else n
  }

  function NumberEnd(s: string, n: nat): (end: nat)
    requires n <= |s|
    ensures n <= end <= |s|
    ensures forall i | n <= i < end :: IsNumber(s[i])
    ensures end < |s| ==> !IsNumber(s[end])
    decreases |s| - n
  {
    if n < |s| && IsNumber(s[n]) then NumberEnd(s, n + 1) else n
  }

  predicate Follows(s: string, c: char) { |s| > 1 && s[1] == c }

  function SymbolKind(s: string): Kind
    requires s != ""
  {
    match s[0]
    case '\n' => ExpressionEnd
    case ';' => ExpressionEnd
    case '+' => if Follows(s, '+') then PlusPlus else Plus
    case '-' => if Follows(s, '-') then MinusMinus else Minus
    case '=' => if Follows(s, '=') then Equal else Assign
    case '(' => ParenOpen
    case ')' => ParenClose
    case '{' => CurlyOpen
    case '}' => CurlyClose
    case '.' => Dot
    case ':' => Colon
    case ',' => Comma
    case '#' => Hash
    case _ => Null
  }

  function Width(k: Kind): (n: nat)
    ensures 1 <= n <= 2
  {
    if k in {PlusPlus, MinusMinus, Equal} then 2 else 1
  }

  /** The token a non-empty text starts with, and how many characters it takes. */
  function First(s: string): (r: (Token, nat))
    requires s != ""
    ensures 0 < r.1 <= |s|
  {
    if IsSpace(s[0]) then (Symbol(Space), 1)
    else if IsCharacter(s[0]) then var n := WordEnd(s, 1); (Word(s[..n]), n)
    else if IsNumber(s[0]) then var n := NumberEnd(s, 1); (Number(s[..n]), n)
    else (Symbol(SymbolKind(s)), Width(SymbolKind(s)))
  }

  /** All tokens of a text that are not spaces: what main_assemble collects. */
  function Lex(s: string): seq<Token>
    decreases |s|
  {
    if s == "" then []
    else
      var (t, n) := First(s);
      (if t == Symbol(Space) then [] else [t]) + Lex(s[n..])
  }

  // ----- the lexer as written -----

  const NUL: char := '\0'

  /** The character after `pos`; the terminating NUL behind the last one. */
  function NextSymbol(buffer: string, pos: nat): char
    requires pos < |buffer|
  {
    if pos + 1 < |buffer| then buffer[pos + 1] else NUL
  }

  /** The read_word loop of token_next. */
  method ReadWord(buffer: string, pos: nat) returns (word: string)
    requires pos < |buffer| && IsCharacter(buffer[pos])
    ensures var s := buffer[pos..]; word == s[..WordEnd(s, 1)]
  {
    ghost var s := buffer[pos..];
    word := [];
    var c := buffer[pos];
    var reading := true;
    while reading
      invariant |word| <= |s| && word == s[..|word|]
      invariant if reading then |word| < |s| && c == s[|word|] && IsWordPart(c) && WordEnd(s, 1) > |word|
                else |word| == WordEnd(s, 1)
      decreases reading, |s| - |word|
    {
      word := word + [c];
      c := NextSymbol(buffer, pos + |word| - 1);
      if !IsNumber(c) && !IsCharacter(c) {
        reading := false;
      }
    }
  }

  /** The read_number_literall loop of token_next. */
  method ReadNumber(buffer: string, pos: nat) returns (word: string)
    requires pos < |buffer| && IsNumber(buffer[pos])
    ensures var s := buffer[pos..]; word == s[..NumberEnd(s, 1)]
  {
    ghost var s := buffer[pos..];
    word := [];
    var c := buffer[pos];
    var reading := true;
    while reading
      invariant |word| <= |s| && word == s[..|word|]
      invariant if reading then |word| < |s| && c == s[|word|] && IsNumber(c) && NumberEnd(s, 1) > |word|
                else |word| == NumberEnd(s, 1)
      decreases reading, |s| - |word|
    {
      word := word + [c];
      c := NextSymbol(buffer, pos + |word| - 1);
      if !IsNumber(c) {
        reading := false;
      }
    }
  }

  /** token_next: reads one token at `pos` and returns the position behind it, or the end of buffer. */
  method TokenNext(buffer: string, pos: nat) returns (result: Token, next: nat)
    ensures if pos < |buffer|
            then next <= |buffer| && (result, next - pos) == First(buffer[pos..])
            else result == Symbol(EndOfBuffer) && next == pos
  {
    if |buffer| <= pos {
      return Symbol(EndOfBuffer), pos;
    }
    var c := buffer[pos];
    if IsSpace(c) {
      return Symbol(Space), pos + 1;
    }
    if IsCharacter(c) {
      var word := ReadWord(buffer, pos);
      return Word(word), pos + |word|;
    }
    if IsNumber(c) {
      var word := ReadNumber(buffer, pos);
      return Number(word), pos + |word|;
    }
    var kind;
    match c {
      case '\n' => kind := ExpressionEnd;
      case ';' => kind := ExpressionEnd;
      case '+' => kind := if NextSymbol(buffer, pos) == '+' then PlusPlus else Plus;
      case '-' => kind := if NextSymbol(buffer, pos) == '-' then MinusMinus else Minus;
      case '=' => kind := if NextSymbol(buffer, pos) == '=' then Equal else Assign;
      case '(' => kind := ParenOpen;
      case ')' => kind := ParenClose;
      case '{' => kind := CurlyOpen;
      case '}' => kind := CurlyClose;
      case '.' => kind := Dot;
      case ':' => kind := Colon;
      case ',' => kind := Comma;
      case '#' => kind := Hash;
      case _ => kind := Null;
    }
    assert kind == SymbolKind(buffer[pos..]);
    return Symbol(kind), pos + Width(kind);
  }

  /** The loop of main_assemble that collects the tokens other than spaces. */
  method Tokenize(buffer: string) returns (list: seq<Token>)
    ensures list == Lex(buffer)
  {
    hide First, Lex;
    list := [];
    var t, next := TokenNext(buffer, 0);
    ghost var pos := 0;
    assert buffer[0..] == buffer;
    while t != Symbol(EndOfBuffer)
      invariant pos <= |buffer|
      invariant if pos < |buffer| then next <= |buffer| && (t, next - pos) == First(buffer[pos..])
                else t == Symbol(EndOfBuffer)
      invariant list + Lex(buffer[pos..]) == Lex(buffer)
      decreases |buffer| - pos
    {
      LexStep(buffer, pos);
      if t != Symbol(Space) { list := list + [t]; }
      pos := next;
      t, next := TokenNext(buffer, next);
    }
    NeverEndOfBuffer(buffer, pos);
    LexEnd(buffer);
  }

  lemma LexStep(s: string, pos: nat)
    requires pos < |s|
    ensures var (t, n) := First(s[pos..]);
            pos + n <= |s| && Lex(s[pos..]) == (if t == Symbol(Space) then [] else [t]) + Lex(s[pos + n..])
  {
    hide First;
    var (t, n) := First(s[pos..]);
    assert s[pos..][n..] == s[pos + n..];
  }

  lemma LexEnd(s: string)
    ensures Lex(s[|s|..]) == []
  {
  }

  lemma NeverEndOfBuffer(buffer: string, pos: nat)
    ensures pos < |buffer| ==> First(buffer[pos..]).0 != Symbol(EndOfBuffer)
  {
  }

  // ----- lexing tiles the text -----

  datatype Piece = Piece(token: Token, start: nat, end: nat)

  /** Every token, spaces included, with the range it was read from. */
  function Pieces(s: string, pos: nat): seq<Piece>
    requires pos <= |s|
    decreases |s| - pos
  {
    if pos == |s| then []
    else
      var (t, n) := First(s[pos..]);
      [Piece(t, pos, pos + n)] + Pieces(s, pos + n)
  }

  predicate IsPiece(s: string, p: Piece)
  {
    p.start < p.end <= |s| && (p.token, p.end - p.start) == First(s[p.start..])
  }

  /** Consecutive non-empty ranges from the start to the end of the text. */
  lemma {:induction false} PiecesTile(s: string, pos: nat)
    requires pos <= |s|
    ensures var ps := Pieces(s, pos);
            && (forall i | 0 <= i < |ps| :: pos <= ps[i].start)
            && (forall i | 0 <= i < |ps| - 1 :: ps[i].end == ps[i + 1].start)
            && (if pos == |s| then ps == [] else ps != [] && ps[0].start == pos && ps[|ps| - 1].end == |s|)
            && (forall i | 0 <= i < |ps| :: IsPiece(s, ps[i]))
    decreases |s| - pos
  {
    hide First;
    if pos < |s| {
      var (t, n) := First(s[pos..]);
      PiecesTile(s, pos + n);
    }
  }

  function Collected(ps: seq<Piece>): seq<Token>
  {
    if ps == [] then [] else (if ps[0].token == Symbol(Space) then [] else [ps[0].token]) + Collected(ps[1..])
  }

  /** What main_assemble collects are the tokens of these pieces, spaces left out. */
  lemma {:induction false} LexCollectsPieces(s: string, pos: nat)
    requires pos <= |s|
    ensures Collected(Pieces(s, pos)) == Lex(s[pos..])
    decreases |s| - pos
  {
    hide First;
    if pos < |s| {
      var (t, n) := First(s[pos..]);
      assert s[pos..][n..] == s[pos + n..];
      LexCollectsPieces(s, pos + n);
      assert Pieces(s, pos)[1..] == Pieces(s, pos + n);
    }
  }

  /** Words and numbers are maximal runs: nothing that could extend them follows or, for a number,
      precedes them, and no letter precedes a word. */
  lemma RunsAreMaximal(s: string, i: nat)
    requires i < |Pieces(s, 0)|
    ensures var p := Pieces(s, 0)[i];
            && p.start < p.end <= |s|
            && (p.token.Word? ==>
                  && p.token.text == s[p.start..p.end] && IsCharacter(s[p.start])
                  && (forall k | p.start <= k < p.end :: IsWordPart(s[k]))
                  && (p.end < |s| ==> !IsWordPart(s[p.end]))
                  && (p.start > 0 ==> !IsCharacter(s[p.start - 1])))
            && (p.token.Number? ==>
                  && p.token.text == s[p.start..p.end]
                  && (forall k | p.start <= k < p.end :: IsNumber(s[k]))
                  && (p.end < |s| ==> !IsNumber(s[p.end]))
                  && (p.start > 0 ==> !IsWordPart(s[p.start - 1])))
  {
    hide First, Pieces, IsPiece;
    PiecesTile(s, 0);
    var ps := Pieces(s, 0);
    var p := ps[i];
    PieceRun(s, p);
    if i > 0 {
      var q := ps[i - 1];
      PieceRun(s, q);
      assert q.end == p.start;
    }
  }

  lemma PieceRun(s: string, p: Piece)
    requires IsPiece(s, p)
    ensures p.start < p.end <= |s|
    ensures match p.token
            case Word(text) =>
              && text == s[p.start..p.end] && IsCharacter(s[p.start])
              && (forall k | p.start <= k < p.end :: IsWordPart(s[k]))
              && (p.end < |s| ==> !IsWordPart(s[p.end]))
            case Number(text) =>
              && text == s[p.start..p.end]
              && (forall k | p.start <= k < p.end :: IsNumber(s[k]))
              && (p.end < |s| ==> !IsNumber(s[p.end]))
            case Symbol(_) => !IsWordPart(s[p.end - 1])
  {
    var r := s[p.start..];
    var n := p.end - p.start;
    assert r[..n] == s[p.start..p.end];
    assert r[n - 1] == s[p.end - 1];
    if p.end < |s| { assert r[n] == s[p.end]; }
    forall k | p.start <= k < p.end ensures s[k] == r[k - p.start] {}
    match p.token
    case Word(text) =>
      assert n == WordEnd(r, 1);
      forall k | p.start <= k < p.end ensures IsWordPart(s[k]) {
        if k > p.start { assert IsWordPart(r[k - p.start]); }
      }
    case Number(text) =>
      assert n == NumberEnd(r, 1);
      forall k | p.start <= k < p.end ensures IsNumber(s[k]) {
        if k > p.start { assert IsNumber(r[k - p.start]); }
      }
    case Symbol(k) =>
  }

  // ----- rendering and lexing again -----

  function Text(t: Token): string
  {
    match t
    case Word(text) => text
    case Number(text) => text
    case Symbol(k) =>
      match k
      case Plus => "+"
      case PlusPlus => "++"
      case Minus => "-"
      case MinusMinus => "--"
      case Assign => "="
      case Equal => "=="
      case CurlyOpen => "{"
      case CurlyClose => "}"
      case ParenOpen => "("
      case ParenClose => ")"
      case Dot => "."
      case Colon => ":"
      case Comma => ","
      case ExpressionEnd => "\n"
      case Hash => "#"
      case Space => " "
      case Null => ""
      case EndOfBuffer => ""
  }

  /** A token the lexer can produce from the recognised alphabet, spaces aside. */
  predicate IsLexeme(t: Token)
  {
    match t
    case Word(text) => text != "" && IsCharacter(text[0]) && forall i | 0 <= i < |text| :: IsWordPart(text[i])
    case Number(text) => text != "" && forall i | 0 <= i < |text| :: IsNumber(text[i])
    case Symbol(k) => k !in {Null, Space, EndOfBuffer}
  }

  /** The character would be taken into the token if it followed directly. */
  predicate Glues(t: Token, c: char)
  {
    match t
    case Word(_) => IsWordPart(c)
    case Number(_) => IsNumber(c)
    case Symbol(k) => (k == Plus && c == '+') || (k == Minus && c == '-') || (k == Assign && c == '=')
  }

  lemma {:induction false} WordEndOfRun(s: string, n: nat, end: nat)
    requires n <= end <= |s|
    requires forall i | n <= i < end :: IsWordPart(s[i])
    ensures WordEnd(s, n) >= end
    ensures (end == |s| || !IsWordPart(s[end])) ==> WordEnd(s, n) == end
    decreases end - n
  {
    if n < end { WordEndOfRun(s, n + 1, end); }
  }

  lemma {:induction false} NumberEndOfRun(s: string, n: nat, end: nat)
    requires n <= end <= |s|
    requires forall i | n <= i < end :: IsNumber(s[i])
    ensures NumberEnd(s, n) >= end
    ensures (end == |s| || !IsNumber(s[end])) ==> NumberEnd(s, n) == end
    decreases end - n
  {
    if n < end { NumberEndOfRun(s, n + 1, end); }
  }

  /** A rendered token is read back exactly when the next character does not glue to it. */
  lemma FirstOfText(t: Token, rest: string)
    requires IsLexeme(t)
    ensures Text(t) != "" && !IsSpace(Text(t)[0])
    ensures First(Text(t) + rest) == (t, |Text(t)|) <==> rest == "" || !Glues(t, rest[0])
  {
    var s, n := Text(t) + rest, |Text(t)|;
    assert s[..n] == Text(t);
    if rest != "" { assert s[n] == rest[0]; }
    match t
    case Word(text) =>
      forall i | 1 <= i < n ensures IsWordPart(s[i]) { assert s[i] == text[i]; }
      WordEndOfRun(s, 1, n);
    case Number(text) =>
      forall i | 1 <= i < n ensures IsNumber(s[i]) { assert s[i] == text[i]; }
      NumberEndOfRun(s, 1, n);
    case Symbol(k) =>
  }

  predicate IsGap(gap: string) { forall i | 0 <= i < |gap| :: IsSpace(gap[i]) }

  /** Tokens written one after the other, each followed by its gap of spaces and tabs. */
  function Render(ts: seq<Token>, gaps: seq<string>): string
    requires |gaps| == |ts|
  {
    if ts == [] then "" else Text(ts[0]) + gaps[0] + Render(ts[1..], gaps[1..])
  }

  predicate Separate(t: Token, gap: string, next: Token)
  {
    gap != "" || (Text(next) != "" && !Glues(t, Text(next)[0]))
  }

  /** Every token is separated from the next one by a gap, or does not need one. */
  predicate IsLayout(ts: seq<Token>, gaps: seq<string>)
  {
    && |gaps| == |ts|
    && (forall i | 0 <= i < |ts| :: IsLexeme(ts[i]) && IsGap(gaps[i]))
    && (forall i | 0 <= i < |ts| - 1 :: Separate(ts[i], gaps[i], ts[i + 1]))
  }

  lemma {:induction false} LexGap(gap: string, rest: string)
    requires IsGap(gap)
    ensures Lex(gap + rest) == Lex(rest)
    decreases |gap|
  {
    var s := gap + rest;
    if gap == "" {
      assert s == rest;
    } else {
      assert s[0] == gap[0];
      assert s[1..] == gap[1..] + rest;
      LexGap(gap[1..], rest);
    }
  }

  /** Layout does not matter: however tokens are spaced, lexing gives them back, as long as tokens
      that would run together are kept apart. */
  lemma {:induction false} LexOfLayout(ts: seq<Token>, gaps: seq<string>)
    requires IsLayout(ts, gaps)
    ensures Lex(Render(ts, gaps)) == ts
    decreases |ts|
  {
    hide First, Text, Glues;
    if ts != [] {
      var t := ts[0];
      var tail := Render(ts[1..], gaps[1..]);
      var rest := gaps[0] + tail;
      var s := Render(ts, gaps);
      assert s == Text(t) + rest;
      if rest != "" {
        if gaps[0] == "" {
          assert Separate(ts[0], gaps[0], ts[1]);
          assert tail[0] == Text(ts[1])[0];
        } else {
          assert rest[0] == gaps[0][0];
          SpaceSeparates(t, rest[0]);
        }
      }
      FirstOfText(t, rest);
      assert s[|Text(t)|..] == rest;
      LexGap(gaps[0], tail);
      forall i | 0 <= i < |ts[1..]| - 1 ensures Separate(ts[1..][i], gaps[1..][i], ts[1..][i + 1]) {
        assert Separate(ts[i + 1], gaps[i + 1], ts[i + 1 + 1]);
      }
      LexOfLayout(ts[1..], gaps[1..]);
    }
  }

  lemma SpaceSeparates(t: Token, c: char)
    requires IsSpace(c)
    ensures !Glues(t, c)
  {
  }

  predicate Recognised(ts: seq<Token>) { Symbol(Null) !in ts }

  /** What the lexer collects from recognised characters are lexemes. */
  lemma {:induction false} LexGivesLexemes(s: string)
    requires Recognised(Lex(s))
    ensures forall t | t in Lex(s) :: IsLexeme(t)
    decreases |s|
  {
    if s != "" {
      var (t, n) := First(s);
      LexGivesLexemes(s[n..]);
      if t != Symbol(Space) { assert t in Lex(s); }
    }
  }

  /** Lexing is a fixed point: rendering the tokens with single spaces between them and lexing again
      gives the same tokens. */
  lemma RelexIsFixedPoint(s: string)
    requires Recognised(Lex(s))
    ensures var ts := Lex(s);
            Lex(Render(ts, seq(|ts|, _ => " "))) == ts
  {
    LexGivesLexemes(s);
    var ts := Lex(s);
    forall i | 0 <= i < |ts| ensures IsLexeme(ts[i]) { assert ts[i] in ts; }
    LexOfLayout(ts, seq(|ts|, _ => " "));
  }
}
