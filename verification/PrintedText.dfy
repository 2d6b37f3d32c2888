/** The text src/assembler/disassembler.c prints for an instruction, character for character, and its
    tokens. */
module PrintedText {
  import opened Semantics
  import opened Tokenizer
  import opened Keywords
  import opened Passes
  import opened Meaning
  import opened RoundTrip

  // ----- text in parts -----

  /** The characters of one token and the space behind it, if any. */
  datatype Part = Part(token: Token, text: string, gap: string)

  function Tight(t: Token): Part { Part(t, Text(t), "") }

  function Spaced(t: Token): Part { Part(t, Text(t), " ") }

  const AT := Part(Symbol(Null), "@", "")
  const DOLLAR := Part(Symbol(Null), "$", "")
  const ARROW_HEAD := Part(Symbol(Null), ">", " ")
  const UNDERSCORE := Part(Symbol(Null), "_", "")
  const COMMA := Spaced(Symbol(Comma))
  const OPEN := Tight(Symbol(ParenOpen))
  const CLOSE := Tight(Symbol(ParenClose))

  function TextOf(ps: seq<Part>): string
  {
    if ps == [] then "" else ps[0].text + (ps[0].gap + TextOf(ps[1..]))
  }

  function TokensOf(ps: seq<Part>): (ts: seq<Token>)
    ensures |ts| == |ps|
  {
    seq(|ps|, k requires 0 <= k < |ps| => ps[k].token)
  }

  predicate IsOdd(p: Part)
  {
    p.token == Symbol(Null) && |p.text| == 1 && p.text[0] in {'@', '$', '>', '_'}
  }

  predicate IsPart(p: Part)
  {
    p.gap in {"", " "} && (IsOdd(p) || (IsLexeme(p.token) && p.text == Text(p.token) != ""))
  }

  /** What follows the part does not run together with it. */
  predicate Apart(p: Part, next: string)
  {
    p.gap == " " || IsOdd(p) || next == "" || !Glues(p.token, next[0])
  }

  predicate Fits(ps: seq<Part>)
  {
    && (forall k | 0 <= k < |ps| :: IsPart(ps[k]))
    && (forall k | 0 <= k < |ps| - 1 :: Apart(ps[k], ps[k + 1].text))
  }

  /** What follows a token whatever it is: the end, a blank, a comment or a line end. */
  predicate EndsToken(rest: string) { rest == "" || rest[0] in {' ', '\t', '#', ';', '\n'} }

  lemma EndKeepsApart(p: Part, rest: string)
    requires EndsToken(rest)
    ensures Apart(p, rest)
  {
  }

  /** A token whose neighbour does not glue to it. */
  lemma LexLexeme(t: Token, gap: string, tail: string)
    requires IsLexeme(t) && gap in {"", " "}
    requires gap == "" ==> tail == "" || !Glues(t, tail[0])
    ensures Lex(Text(t) + (gap + tail)) == [t] + Lex(tail)
  {
    hide First;
    var rest := gap + tail;
    FirstOfText(t, rest);
    assert (Text(t) + rest)[|Text(t)|..] == rest;
    if rest != "" && gap != "" { SpaceSeparates(t, rest[0]); }
    if gap == "" { assert rest == tail; }
    LexGap(gap, tail);
  }

  lemma LexOdd(p: Part, tail: string)
    requires IsOdd(p) && p.gap in {"", " "}
    ensures Lex(p.text + (p.gap + tail)) == [p.token] + Lex(tail)
  {
    var rest := p.gap + tail;
    var s := p.text + rest;
    assert s[0] == p.text[0] && s[1..] == rest;
    assert First(s) == (Symbol(Null), 1);
    LexGap(p.gap, tail);
  }

  lemma LexPart(p: Part, tail: string)
    requires IsPart(p) && Apart(p, tail)
    ensures Lex(p.text + (p.gap + tail)) == [p.token] + Lex(tail)
  {
    hide Lex, Text, IsLexeme, Glues;
    if IsOdd(p) { LexOdd(p, tail); } else { LexLexeme(p.token, p.gap, tail); }
  }

  lemma FitsTail(ps: seq<Part>)
    requires ps != [] && Fits(ps)
    ensures IsPart(ps[0]) && Fits(ps[1..])
  {
    hide IsPart, Apart;
    var more := ps[1..];
    forall k | 0 <= k < |more| - 1 ensures Apart(more[k], more[k + 1].text) {
      assert Apart(ps[k + 1], ps[k + 1 + 1].text);
    }
  }

  lemma ApartFromRest(ps: seq<Part>, rest: string)
    requires ps != [] && Fits(ps) && EndsToken(rest)
    ensures Apart(ps[0], TextOf(ps[1..]) + rest)
  {
    hide Glues, Text, IsLexeme;
    var more := ps[1..];
    if more == [] {
      assert TextOf(more) + rest == rest;
      EndKeepsApart(ps[0], rest);
    } else {
      assert Apart(ps[0], ps[0 + 1].text) && IsPart(ps[1]);
      assert (TextOf(more) + rest)[0] == more[0].text[0];
    }
  }

  /** Text in parts that fit lexes to their tokens, whatever stands off behind it. */
  lemma {:induction false} LexParts(ps: seq<Part>, rest: string)
    requires Fits(ps) && EndsToken(rest)
    ensures Lex(TextOf(ps) + rest) == TokensOf(ps) + Lex(rest)
    decreases |ps|
  {
    hide Lex, Fits, IsPart, Apart, EndsToken;
    if ps == [] {
      assert TextOf(ps) + rest == rest;
      assert TokensOf(ps) + Lex(rest) == Lex(rest);
    } else {
      var p, more := ps[0], ps[1..];
      var tail := TextOf(more) + rest;
      FitsTail(ps);
      ApartFromRest(ps, rest);
      LexParts(more, rest);
      LexPart(p, tail);
      assert TextOf(ps) + rest == p.text + (p.gap + tail);
      assert TokensOf(ps) + Lex(rest) == [p.token] + (TokensOf(more) + Lex(rest));
    }
  }

  // ----- the two ways to print -----

  /** Listing is what print_instruction_asm writes; Plain is the same without the signs in front of
      operands, the parentheses and the commas, and with the keywords the assembler knows. */
  datatype Style = Plain | Listing

  function RegisterPart(r: nat): Part { Tight(RegisterWord(r)) }

  function PlainParts(words: seq<Token>): seq<Part>
  {
    seq(|words|, k requires 0 <= k < |words| => if k < |words| - 1 then Spaced(words[k]) else Tight(words[k]))
  }

  function AddressParts(keyword: string, n: nat): seq<Part>
  {
    [Spaced(Word(keyword)), AT, Tight(Word("address")), OPEN, Tight(ValueWord(n)), CLOSE]
  }

  function BranchParts(keyword: string, n: nat, ra: nat, rb: nat): seq<Part>
  {
    [Spaced(Word(keyword)), AT, Tight(Word("address")), OPEN, Tight(ValueWord(n)), CLOSE,
     COMMA, AT, RegisterPart(ra), COMMA, AT, RegisterPart(rb)]
  }

  function PrintParts(keyword: string): seq<Part>
  {
    [Spaced(Word(keyword)), Tight(Symbol(Minus)), ARROW_HEAD, Tight(Word("sys")), Tight(COLON), Spaced(Word("write")),
     DOLLAR, Tight(Word("r")), Tight(Symbol(CurlyOpen)), Tight(Token.Number("0")), Tight(Symbol(Comma)),
     Tight(Token.Number("1")), Tight(Symbol(Comma)), Tight(Token.Number("2")), Tight(Symbol(CurlyClose))]
  }

  function ListingParts(i: Instruction): seq<Part>
    requires IsCanonical(i)
  {
    var keyword := Spaced(Word(Name(i.op)));
    if IsBinary(i.op) then
      [keyword, AT, RegisterPart(i.r0), COMMA, AT, RegisterPart(i.r1), COMMA, AT, RegisterPart(i.r2)]
    else
      match i.op
      case HALT => [Tight(Word(Name(i.op)))]
      case REC => [keyword]
      case PRINT => PrintParts(Name(i.op))
      case REG_DUMP =>
        [Tight(Word("reg")), UNDERSCORE, Tight(Word("dump")), Tight(HASH), Spaced(Word("debug")),
         AT, RegisterPart(i.r0)]
      case CU2I => [keyword, AT, RegisterPart(i.r0), COMMA, AT, RegisterPart(i.r1)]
      case CI2U => [keyword, AT, RegisterPart(i.r0), COMMA, AT, RegisterPart(i.r1)]
      case SET => [keyword, AT, RegisterPart(i.r0), COMMA, DOLLAR, OPEN, Tight(ValueWord(i.imm)), CLOSE]
      case JMP => AddressParts(Name(i.op), i.imm)
      case CALL => AddressParts(Name(i.op), i.imm)
      case EJMP => BranchParts(Name(i.op), i.imm, i.r0, i.r1)
      case NEJMP => BranchParts("nejump", i.imm, i.r0, i.r1)
      case _ => [keyword, AT, RegisterPart(i.r0)]
  }

  function Parts(style: Style, i: Instruction): seq<Part>
    requires IsCanonical(i)
  {
    if style.Plain? then PlainParts(LineWords(i)) else ListingParts(i)
  }

  /** A line end and a tab in front; only ret has a line end behind. */
  function PrintInstruction(style: Style, i: Instruction): string
    requires IsCanonical(i)
  {
    "\n\t" + TextOf(Parts(style, i)) + if i.op == RET then "\n" else ""
  }

  function PrintProgram(style: Style, p: Program): string
    requires IsCanonicalProgram(p)
  {
    if p == [] then "" else PrintInstruction(style, p[0]) + PrintProgram(style, p[1..])
  }

  // ----- what the lexer makes of a printed instruction -----

  lemma PlainFits(i: Instruction)
    requires IsCanonical(i)
    ensures Fits(PlainParts(LineWords(i)))
    ensures TokensOf(PlainParts(LineWords(i))) == LineWords(i)
  {
    hide LineWords, IsCanonical, IsLexeme;
    LineWordsAreWords(i);
    forall t | IsPlain(t) && IsLexeme(t) ensures Text(t) != "" { PlainText(t); }
  }

  lemma PlainText(t: Token)
    requires IsPlain(t) && IsLexeme(t)
    ensures Text(t) != ""
  {
  }

  /** A part that stands apart from whatever follows. */
  predicate IsLoose(p: Part)
  {
    p.gap == " " || IsOdd(p) || (p.token.Symbol? && p.token.kind !in {Plus, Minus, Assign})
  }

  predicate IsSign(p: Part) { p.text != "" && !IsWordPart(p.text[0]) }

  /** Words and numbers stand apart from signs, and the minus of an arrow from its head. */
  predicate Stands(p: Part, next: Part)
  {
    IsLoose(p) || (IsPlain(p.token) && IsSign(next)) || (p.token == Symbol(Minus) && next == ARROW_HEAD)
  }

  lemma StandsApart(p: Part, next: Part)
    requires Stands(p, next)
    ensures Apart(p, next.text)
  {
  }

  lemma FitsBySigns(ps: seq<Part>)
    requires forall k | 0 <= k < |ps| :: IsPart(ps[k])
    requires forall k | 0 <= k < |ps| - 1 :: Stands(ps[k], ps[k + 1])
    ensures Fits(ps)
  {
    hide IsPart, Stands, Apart;
    forall k | 0 <= k < |ps| - 1 ensures Apart(ps[k], ps[k + 1].text) { StandsApart(ps[k], ps[k + 1]); }
  }

  /** The words and numbers of a listing line. */
  lemma OperandsFit(i: Instruction)
    requires IsCanonical(i)
    ensures IsPart(Spaced(Word(Name(i.op)))) && IsLoose(Spaced(Word(Name(i.op)))) && IsPart(Tight(Word(Name(i.op))))
    ensures IsPart(RegisterPart(i.r0)) && IsPlain(RegisterPart(i.r0).token)
    ensures IsPart(RegisterPart(i.r1)) && IsPlain(RegisterPart(i.r1).token)
    ensures IsPart(RegisterPart(i.r2)) && IsPlain(RegisterPart(i.r2).token)
    ensures IsPart(Tight(ValueWord(i.imm))) && IsPlain(Tight(ValueWord(i.imm)).token)
  {
    hide Name, Digits, IsLexeme, IsRegisterWord, IsValueWord;
    NameIsLexeme(i.op);
    RegisterWordReads(i.r0);
    RegisterWordReads(i.r1);
    RegisterWordReads(i.r2);
    ValueWordReads(i.imm);
    PlainText(Word(Name(i.op)));
    PlainText(RegisterWord(i.r0));
    PlainText(RegisterWord(i.r1));
    PlainText(RegisterWord(i.r2));
    PlainText(ValueWord(i.imm));
  }

  lemma SignsFit()
    ensures IsPart(AT) && IsLoose(AT) && IsSign(AT) && IsPart(DOLLAR) && IsLoose(DOLLAR)
    ensures IsPart(COMMA) && IsLoose(COMMA) && IsSign(COMMA)
    ensures IsPart(OPEN) && IsLoose(OPEN) && IsSign(OPEN) && IsPart(CLOSE) && IsLoose(CLOSE) && IsSign(CLOSE)
    ensures IsPart(Tight(Word("address"))) && IsPlain(Tight(Word("address")).token)
    ensures IsPart(Spaced(Word("nejump"))) && IsLoose(Spaced(Word("nejump")))
  {
  }

  lemma RegistersFit(i: Instruction)
    requires IsCanonical(i) && (IsBinary(i.op) || IsUnary(i.op) || IsCopy(i.op)) && i.op != REG_DUMP
    ensures Fits(ListingParts(i))
  {
    hide Name, Digits, IsPart, IsLexeme, IsLoose, IsSign, Fits, Apart, RegisterPart, IsPlain;
    OperandsFit(i);
    SignsFit();
    FitsBySigns(ListingParts(i));
  }

  lemma AddressFits(keyword: string, n: nat)
    requires IsPart(Spaced(Word(keyword))) && IsPart(Tight(ValueWord(n)))
    ensures Fits(AddressParts(keyword, n))
  {
    hide Digits, IsPart, IsLexeme, IsLoose, IsSign, Fits, Apart;
    SignsFit();
    SpacedIsLoose(Word(keyword));
    FitsBySigns(AddressParts(keyword, n));
  }

  lemma BranchFits(keyword: string, n: nat, ra: nat, rb: nat)
    requires IsPart(Spaced(Word(keyword))) && IsPart(Tight(ValueWord(n)))
    requires IsPart(RegisterPart(ra)) && IsPart(RegisterPart(rb))
    ensures Fits(BranchParts(keyword, n, ra, rb))
  {
    hide Digits, IsPart, IsLexeme, IsLoose, IsSign, Fits, Apart;
    SignsFit();
    SpacedIsLoose(Word(keyword));
    FitsBySigns(BranchParts(keyword, n, ra, rb));
  }

  lemma SpacedIsLoose(t: Token)
    ensures IsLoose(Spaced(t))
  {
  }

  lemma SetFits(i: Instruction)
    requires IsCanonical(i) && i.op in {HALT, REC, SET}
    ensures Fits(ListingParts(i))
  {
    hide Name, Digits, IsPart, IsLexeme, IsLoose, IsSign, Fits, Apart, RegisterPart, IsPlain;
    OperandsFit(i);
    SignsFit();
    FitsBySigns(ListingParts(i));
  }

  lemma PrintSignsFit()
    ensures IsPart(Tight(Symbol(Minus))) && IsPart(ARROW_HEAD) && IsLoose(ARROW_HEAD)
    ensures IsPart(Tight(COLON)) && IsSign(Tight(COLON)) && IsLoose(Tight(COLON))
    ensures IsPart(Tight(Symbol(CurlyOpen))) && IsLoose(Tight(Symbol(CurlyOpen))) && IsSign(Tight(Symbol(CurlyOpen)))
    ensures IsPart(Tight(Symbol(CurlyClose))) && IsSign(Tight(Symbol(CurlyClose)))
    ensures IsPart(Tight(Symbol(Comma))) && IsSign(Tight(Symbol(Comma))) && IsLoose(Tight(Symbol(Comma)))
  {
  }

  lemma PrintWordsFit()
    ensures IsPart(Tight(Word("sys"))) && IsPart(Spaced(Word("write"))) && IsPart(Tight(Word("r")))
    ensures IsPart(Tight(Token.Number("0"))) && IsPart(Tight(Token.Number("1"))) && IsPart(Tight(Token.Number("2")))
  {
  }

  lemma PrintFits(keyword: string)
    requires IsPart(Spaced(Word(keyword)))
    ensures Fits(PrintParts(keyword))
  {
    hide Text, IsPart, IsLexeme, IsLoose, IsSign, Fits, Apart;
    SignsFit();
    PrintSignsFit();
    PrintWordsFit();
    SpacedIsLoose(Word(keyword));
    SpacedIsLoose(Word("write"));
    FitsBySigns(PrintParts(keyword));
  }

  lemma DumpSignsFit()
    ensures IsPart(Tight(Word("reg"))) && IsPart(UNDERSCORE) && IsLoose(UNDERSCORE) && IsSign(UNDERSCORE)
    ensures IsPart(Tight(Word("dump"))) && IsPart(Tight(HASH)) && IsLoose(Tight(HASH)) && IsSign(Tight(HASH))
    ensures IsPart(Spaced(Word("debug")))
  {
  }

  lemma DumpFits(i: Instruction)
    requires IsCanonical(i) && i.op == REG_DUMP
    ensures Fits(ListingParts(i))
  {
    hide Name, Text, Digits, IsPart, IsLexeme, IsLoose, IsSign, Fits, Apart, RegisterPart;
    OperandsFit(i);
    SignsFit();
    DumpSignsFit();
    SpacedIsLoose(Word("debug"));
    FitsBySigns(ListingParts(i));
  }

  lemma PartsFit(style: Style, i: Instruction)
    requires IsCanonical(i)
    ensures Fits(Parts(style, i))
  {
    hide Fits, IsPart, Name, Text, Digits, PlainParts, AddressParts, BranchParts;
    OperandsFit(i);
    SignsFit();
    PlainFits(i);
    match i.op
    case PRINT => PrintFits(Name(i.op));
    case REG_DUMP => DumpFits(i);
    case HALT => SetFits(i);
    case REC => SetFits(i);
    case SET => SetFits(i);
    case JMP => AddressFits(Name(i.op), i.imm);
    case CALL => AddressFits(Name(i.op), i.imm);
    case EJMP => BranchFits(Name(i.op), i.imm, i.r0, i.r1);
    case NEJMP => BranchFits("nejump", i.imm, i.r0, i.r1);
    case _ => RegistersFit(i);
  }
}
