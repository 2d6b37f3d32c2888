/** The listing of src/assembler/disassembler.c word for word, and that it shows the operands an
    instruction has. */
module ListingText {
  import opened Semantics
  import opened Tokenizer
  import opened Keywords
  import opened Passes
  import opened RoundTrip
  import opened PrintedText
  import opened Disassembler
  import opened Mnemonics

  // ----- the text -----

  /** How a listed line starts, and the operands behind it. */
  function ListedRow(op: Op): (string, Shape)
  {
    match op
    case HALT => ("halt", Bare)
    case REC => ("rec ", Bare)
    case PRINT => ("print -> sys:write $r{0,1,2}", Bare)
    case INC => ("inc", R)
    case DEC => ("dec", R)
    case PUSH => ("push", R)
    case POP => ("pop", R)
    case RET => ("ret", R)
    case REG_DUMP => ("reg_dump#debug", R)
    case CU2I => ("cu2i", RR)
    case CI2U => ("ci2u", RR)
    case ADD => ("add", RRR)
    case SUB => ("sub", RRR)
    case MUL => ("mul", RRR)
    case DIV => ("div", RRR)
    case AND => ("and", RRR)
    case OR => ("or", RRR)
    case CMPE => ("cmpe", RRR)
    case CMPEG => ("cmpeg", RRR)
    case CMPEL => ("cmpel", RRR)
    case CMPG => ("cmpg", RRR)
    case CMPL => ("cmpl", RRR)
    case SET => ("set", RN)
    case JMP => ("jmp", N)
    case CALL => ("call", N)
    case EJMP => ("ejmp", NRR)
    case NEJMP => ("nejump", NRR)
    case _ => ("", Bare)
  }

  function ListedText(row: (string, Shape), v: Values): string
  {
    match row.1
    case Bare => row.0
    case R => row.0 + " @r" + Digits(v.a)
    case RR => row.0 + " @r" + Digits(v.a) + ", @r" + Digits(v.b)
    case RRR => row.0 + " @r" + Digits(v.a) + ", @r" + Digits(v.b) + ", @r" + Digits(v.c)
    case RN => row.0 + " @r" + Digits(v.a) + ", $(" + Digits(v.n) + ")"
    case N => row.0 + " @address(" + Digits(v.n) + ")"
    case NRR => row.0 + " @address(" + Digits(v.n) + "), @r" + Digits(v.a) + ", @r" + Digits(v.b)
  }

  function OperandsOf(i: Instruction): Values
    requires IsCanonical(i)
  {
    Values(i.r0, i.r1, i.r2, i.imm)
  }

  lemma {:induction false} TextAppend(a: seq<Part>, b: seq<Part>)
    ensures TextOf(a + b) == TextOf(a) + TextOf(b)
    decreases |a|
  {
    if a == [] {
      assert a + b == b;
    } else {
      assert (a + b)[1..] == a[1..] + b;
      TextAppend(a[1..], b);
    }
  }

  lemma TextOfPart(p: Part)
    ensures TextOf([p]) == p.text + p.gap
  {
    assert [p][1..] == [] && TextOf([]) == "";
    assert p.gap + "" == p.gap;
  }

  // Stretches of a listed line.

  function First(r: nat): seq<Part> { [AT] + [RegisterPart(r)] }
  function Next(r: nat): seq<Part> { [COMMA] + First(r) }
  function InParens(n: nat): seq<Part> { [OPEN] + ([Tight(ValueWord(n))] + [CLOSE]) }
  function Target(n: nat): seq<Part> { [AT] + ([Tight(Word("address"))] + InParens(n)) }
  function Literal(n: nat): seq<Part> { [COMMA] + ([DOLLAR] + InParens(n)) }

  lemma FirstText(r: nat)
    ensures TextOf(First(r)) == "@r" + Digits(r)
  {
    hide Digits, TextOf;
    TextAppend([AT], [RegisterPart(r)]);
    TextOfPart(AT);
    TextOfPart(RegisterPart(r));
    assert ("@" + "") + (("r" + Digits(r)) + "") == "@r" + Digits(r);
  }

  lemma NextText(r: nat)
    ensures TextOf(Next(r)) == ", @r" + Digits(r)
  {
    hide Digits, TextOf, First;
    TextAppend([COMMA], First(r));
    TextOfPart(COMMA);
    FirstText(r);
    assert ("," + " ") + ("@r" + Digits(r)) == ", @r" + Digits(r);
  }

  lemma ParensText(n: nat)
    ensures TextOf(InParens(n)) == "(" + Digits(n) + ")"
  {
    hide Digits, TextOf;
    var v := Tight(ValueWord(n));
    TextAppend([OPEN], [v] + [CLOSE]);
    TextAppend([v], [CLOSE]);
    TextOfPart(OPEN);
    TextOfPart(v);
    TextOfPart(CLOSE);
    assert ("(" + "") + ((Digits(n) + "") + (")" + "")) == "(" + Digits(n) + ")";
  }

  lemma TargetText(n: nat)
    ensures TextOf(Target(n)) == "@address(" + Digits(n) + ")"
  {
    hide Digits, TextOf, InParens;
    var w := Tight(Word("address"));
    TextAppend([AT], [w] + InParens(n));
    TextAppend([w], InParens(n));
    TextOfPart(AT);
    TextOfPart(w);
    ParensText(n);
    assert ("@" + "") + (("address" + "") + ("(" + Digits(n) + ")")) == "@address(" + Digits(n) + ")";
  }

  lemma LiteralText(n: nat)
    ensures TextOf(Literal(n)) == ", $(" + Digits(n) + ")"
  {
    hide Digits, TextOf, InParens;
    TextAppend([COMMA], [DOLLAR] + InParens(n));
    TextAppend([DOLLAR], InParens(n));
    TextOfPart(COMMA);
    TextOfPart(DOLLAR);
    ParensText(n);
    assert ("," + " ") + (("$" + "") + ("(" + Digits(n) + ")")) == ", $(" + Digits(n) + ")";
  }

  /** The parts of a listed line as its keyword and these stretches. */
  function Stretches(row: (string, Shape), v: Values): seq<Part>
  {
    match row.1
    case Bare => []
    case R => First(v.a)
    case RR => First(v.a) + Next(v.b)
    case RRR => First(v.a) + (Next(v.b) + Next(v.c))
    case RN => First(v.a) + Literal(v.n)
    case N => Target(v.n)
    case NRR => Target(v.n) + (Next(v.a) + Next(v.b))
  }

  lemma StretchesText(row: (string, Shape), v: Values)
    requires row.1 != Bare
    ensures (row.0 + " ") + TextOf(Stretches(row, v)) == ListedText(row, v)
  {
    hide First, Next, Literal, Target, TextOf, Digits;
    var a, b, c, n := Digits(v.a), Digits(v.b), Digits(v.c), Digits(v.n);
    FirstText(v.a);
    NextText(v.a);
    NextText(v.b);
    NextText(v.c);
    TargetText(v.n);
    LiteralText(v.n);
    match row.1
    case R => assert (row.0 + " ") + ("@r" + a) == row.0 + " @r" + a;
    case RR =>
      TextAppend(First(v.a), Next(v.b));
      assert (row.0 + " ") + (("@r" + a) + (", @r" + b)) == row.0 + " @r" + a + ", @r" + b;
    case RRR =>
      TextAppend(First(v.a), Next(v.b) + Next(v.c));
      TextAppend(Next(v.b), Next(v.c));
      assert (row.0 + " ") + (("@r" + a) + ((", @r" + b) + (", @r" + c)))
          == row.0 + " @r" + a + ", @r" + b + ", @r" + c;
    case RN =>
      TextAppend(First(v.a), Literal(v.n));
      assert (row.0 + " ") + (("@r" + a) + (", $(" + n + ")")) == row.0 + " @r" + a + ", $(" + n + ")";
    case N => assert (row.0 + " ") + ("@address(" + n + ")") == row.0 + " @address(" + n + ")";
    case NRR =>
      TextAppend(Target(v.n), Next(v.a) + Next(v.b));
      TextAppend(Next(v.a), Next(v.b));
      assert (row.0 + " ") + (("@address(" + n + ")") + ((", @r" + a) + (", @r" + b)))
          == row.0 + " @address(" + n + "), @r" + a + ", @r" + b;
  }

  /** Neither of the three lines that are text of their own. */
  predicate IsRegular(op: Op) { op !in {HALT, REC, PRINT, REG_DUMP} }

  lemma ShapesOfRegisters(kw: Part, a: nat, b: nat, c: nat)
    ensures [kw, AT, RegisterPart(a)] == [kw] + First(a)
    ensures [kw, AT, RegisterPart(a), COMMA, AT, RegisterPart(b)] == [kw] + (First(a) + Next(b))
    ensures [kw, AT, RegisterPart(a), COMMA, AT, RegisterPart(b), COMMA, AT, RegisterPart(c)]
            == [kw] + (First(a) + (Next(b) + Next(c)))
  {
    hide RegisterPart;
  }

  lemma ShapesOfNumbers(kw: Part, a: nat, n: nat)
    ensures [kw, AT, RegisterPart(a), COMMA, DOLLAR, OPEN, Tight(ValueWord(n)), CLOSE] == [kw] + (First(a) + Literal(n))
  {
    hide RegisterPart, Text, Digits;
  }

  lemma ShapesOfTargets(word: string, n: nat, a: nat, b: nat)
    ensures AddressParts(word, n) == [Spaced(Word(word))] + Target(n)
    ensures BranchParts(word, n, a, b) == [Spaced(Word(word))] + (Target(n) + (Next(a) + Next(b)))
  {
    hide RegisterPart, Text, Digits;
  }

  lemma PartsAreStretches(i: Instruction)
    requires IsCanonical(i) && IsRegular(i.op)
    ensures ListedRow(i.op).1 != Bare
    ensures ListingParts(i) == [Spaced(Word(ListedRow(i.op).0))] + Stretches(ListedRow(i.op), OperandsOf(i))
  {
    hide Digits, Text, RegisterPart, First, Next, Literal, Target, AddressParts, BranchParts;
    var kw := Spaced(Word(ListedRow(i.op).0));
    ShapesOfRegisters(kw, i.r0, i.r1, i.r2);
    ShapesOfNumbers(kw, i.r0, i.imm);
    ShapesOfTargets(ListedRow(i.op).0, i.imm, i.r0, i.r1);
  }

  lemma TextOfThreeParts(a: Part, b: Part, c: Part)
    ensures TextOf([a, b, c]) == (a.text + a.gap) + ((b.text + b.gap) + (c.text + c.gap))
  {
    hide TextOf;
    TextAppend([a], [b] + [c]);
    TextAppend([b], [c]);
    TextOfPart(a);
    TextOfPart(b);
    TextOfPart(c);
    assert [a, b, c] == [a] + ([b] + [c]);
  }

  const PRINT_HEAD: seq<Part> := [Spaced(Word("print")), Tight(Symbol(Minus)), ARROW_HEAD]
  const PRINT_CALL: seq<Part> := [Tight(Word("sys")), Tight(COLON), Spaced(Word("write"))]
  const PRINT_FIRST: seq<Part> := [DOLLAR, Tight(Word("r")), Tight(Symbol(CurlyOpen))]
  const PRINT_LIST: seq<Part> := [Tight(Token.Number("0")), Tight(Symbol(Comma)), Tight(Token.Number("1"))]
  const PRINT_LAST: seq<Part> := [Tight(Symbol(Comma)), Tight(Token.Number("2")), Tight(Symbol(CurlyClose))]

  lemma PrintPieces()
    ensures TextOf(PRINT_HEAD) == "print -> " && TextOf(PRINT_CALL) == "sys:write "
    ensures TextOf(PRINT_FIRST) == "$r{" && TextOf(PRINT_LIST) == "0,1" && TextOf(PRINT_LAST) == ",2}"
  {
    hide TextOf;
    TextOfThreeParts(PRINT_HEAD[0], PRINT_HEAD[1], PRINT_HEAD[2]);
    TextOfThreeParts(PRINT_CALL[0], PRINT_CALL[1], PRINT_CALL[2]);
    TextOfThreeParts(PRINT_FIRST[0], PRINT_FIRST[1], PRINT_FIRST[2]);
    TextOfThreeParts(PRINT_LIST[0], PRINT_LIST[1], PRINT_LIST[2]);
    TextOfThreeParts(PRINT_LAST[0], PRINT_LAST[1], PRINT_LAST[2]);
  }

  lemma PrintText()
    ensures TextOf(PrintParts("print")) == "print -> sys:write $r{0,1,2}"
  {
    hide TextOf;
    PrintPieces();
    TextAppend(PRINT_HEAD, PRINT_CALL + (PRINT_FIRST + (PRINT_LIST + PRINT_LAST)));
    TextAppend(PRINT_CALL, PRINT_FIRST + (PRINT_LIST + PRINT_LAST));
    TextAppend(PRINT_FIRST, PRINT_LIST + PRINT_LAST);
    TextAppend(PRINT_LIST, PRINT_LAST);
    assert PrintParts("print") == PRINT_HEAD + (PRINT_CALL + (PRINT_FIRST + (PRINT_LIST + PRINT_LAST)));
    assert "print -> " + ("sys:write " + ("$r{" + ("0,1" + ",2}"))) == "print -> sys:write $r{0,1,2}";
  }

  const DUMP_HEAD: seq<Part> := [Tight(Word("reg")), UNDERSCORE, Tight(Word("dump"))]
  const DUMP_NOTE: seq<Part> := [Tight(HASH)] + [Spaced(Word("debug"))]

  lemma DumpText(r: nat)
    ensures TextOf(DUMP_HEAD + (DUMP_NOTE + First(r))) == "reg_dump#debug @r" + Digits(r)
  {
    hide TextOf, First, Digits;
    TextOfThreeParts(DUMP_HEAD[0], DUMP_HEAD[1], DUMP_HEAD[2]);
    TextAppend(DUMP_HEAD, DUMP_NOTE + First(r));
    TextAppend(DUMP_NOTE, First(r));
    TextAppend([Tight(HASH)], [Spaced(Word("debug"))]);
    TextOfPart(Tight(HASH));
    TextOfPart(Spaced(Word("debug")));
    FirstText(r);
    assert TextOf(DUMP_HEAD) == "reg_dump" && TextOf(DUMP_NOTE) == "#debug ";
    assert "reg_dump" + ("#debug " + ("@r" + Digits(r))) == "reg_dump#debug @r" + Digits(r);
  }

  lemma IrregularText(i: Instruction)
    requires IsCanonical(i) && !IsRegular(i.op)
    ensures TextOf(ListingParts(i)) == ListedText(ListedRow(i.op), OperandsOf(i))
  {
    hide TextOf, First, Digits, PrintParts;
    match i.op
    case HALT =>
      TextOfPart(Tight(Word("halt")));
      assert "halt" + "" == "halt";
    case REC =>
      TextOfPart(Spaced(Word("rec")));
      assert "rec" + " " == "rec ";
    case PRINT => PrintText();
    case REG_DUMP =>
      DumpParts(i.r0);
      DumpText(i.r0);
  }

  lemma DumpParts(r: nat)
    ensures [Tight(Word("reg")), UNDERSCORE, Tight(Word("dump")), Tight(HASH), Spaced(Word("debug")),
             AT, RegisterPart(r)] == DUMP_HEAD + (DUMP_NOTE + First(r))
  {
    hide Text, RegisterPart;
  }

  /** What the disassembler prints for an instruction, character for character. */
  lemma ListingIsText(i: Instruction)
    requires IsCanonical(i)
    ensures PrintInstruction(Listing, i)
            == "\n\t" + ListedText(ListedRow(i.op), OperandsOf(i)) + if i.op == RET then "\n" else ""
  {
    hide Digits, TextOf, ListingParts, Stretches, IsCanonical, ListedRow, ListedText;
    if IsRegular(i.op) {
      PartsAreStretches(i);
      StretchesText(ListedRow(i.op), OperandsOf(i));
      TextAppend([Spaced(Word(ListedRow(i.op).0))], Stretches(ListedRow(i.op), OperandsOf(i)));
      TextOfPart(Spaced(Word(ListedRow(i.op).0)));
    } else {
      IrregularText(i);
    }
  }

  // ----- the operands -----

  /** The decoration of the listing. */
  predicate IsDecoration(t: Token)
  {
    t in {Symbol(Null), Symbol(Comma), Symbol(ParenOpen), Symbol(ParenClose), Word("address")}
  }

  function Undecorated(ts: seq<Token>): seq<Token>
  {
    if ts == [] then [] else (if IsDecoration(ts[0]) then [] else [ts[0]]) + Undecorated(ts[1..])
  }

  lemma {:induction false} UndecoratedAppend(a: seq<Token>, b: seq<Token>)
    ensures Undecorated(a + b) == Undecorated(a) + Undecorated(b)
    decreases |a|
  {
    hide IsDecoration;
    if a == [] {
      assert a + b == b;
    } else {
      assert (a + b)[1..] == a[1..] + b;
      UndecoratedAppend(a[1..], b);
    }
  }

  lemma UndecoratedOne(t: Token)
    ensures Undecorated([t]) == if IsDecoration(t) then [] else [t]
  {
    assert [t][1..] == [];
  }

  lemma UndecoratedParts(a: seq<Part>, b: seq<Part>)
    ensures Undecorated(TokensOf(a + b)) == Undecorated(TokensOf(a)) + Undecorated(TokensOf(b))
  {
    UndecoratedAppend(TokensOf(a), TokensOf(b));
    assert TokensOf(a + b) == TokensOf(a) + TokensOf(b);
  }

  lemma UndecoratedPart(p: Part)
    ensures Undecorated(TokensOf([p])) == if IsDecoration(p.token) then [] else [p.token]
  {
    UndecoratedOne(p.token);
    assert TokensOf([p]) == [p.token];
  }

  lemma UndecoratedStretch(r: nat, n: nat)
    ensures Undecorated(TokensOf(First(r))) == [RegisterWord(r)] == Undecorated(TokensOf(Next(r)))
    ensures Undecorated(TokensOf(Target(n))) == [ValueWord(n)] == Undecorated(TokensOf(Literal(n)))
  {
    hide TokensOf, Undecorated, Digits;
    var w, v, ra := Tight(Word("address")), Tight(ValueWord(n)), RegisterPart(r);
    UndecoratedPart(AT);
    UndecoratedPart(ra);
    UndecoratedPart(COMMA);
    UndecoratedPart(DOLLAR);
    UndecoratedPart(OPEN);
    UndecoratedPart(CLOSE);
    UndecoratedPart(w);
    UndecoratedPart(v);
    RegisterIsNoAddress(r);
    UndecoratedParts([AT], [ra]);
    UndecoratedParts([COMMA], First(r));
    UndecoratedParts([OPEN], [v] + [CLOSE]);
    UndecoratedParts([v], [CLOSE]);
    UndecoratedParts([w], InParens(n));
    UndecoratedParts([AT], [w] + InParens(n));
    UndecoratedParts([DOLLAR], InParens(n));
    UndecoratedParts([COMMA], [DOLLAR] + InParens(n));
  }

  lemma RegisterIsNoAddress(r: nat)
    ensures !IsDecoration(RegisterWord(r))
  {
    assert RegisterWord(r).text[0] == 'r' && "address"[0] == 'a';
  }

  lemma UndecoratedStretches(i: Instruction)
    requires IsCanonical(i) && IsRegular(i.op)
    ensures Undecorated(TokensOf(Stretches(ListedRow(i.op), OperandsOf(i)))) == OperandWords(i)
  {
    hide TokensOf, Undecorated, First, Next, Target, Literal, RegisterWord, ValueWord;
    UndecoratedStretch(i.r0, i.imm);
    UndecoratedStretch(i.r1, i.imm);
    UndecoratedStretch(i.r2, i.imm);
    UndecoratedParts(First(i.r0), Next(i.r1));
    UndecoratedParts(First(i.r0), Next(i.r1) + Next(i.r2));
    UndecoratedParts(Next(i.r1), Next(i.r2));
    UndecoratedParts(First(i.r0), Literal(i.imm));
    UndecoratedParts(Target(i.imm), Next(i.r0) + Next(i.r1));
    UndecoratedParts(Next(i.r0), Next(i.r1));
  }

  lemma ListedWord(i: Instruction)
    requires IsCanonical(i) && IsRegular(i.op)
    ensures i.op != NEJMP ==> ListedRow(i.op).0 == Name(i.op)
    ensures i.op == NEJMP ==> ListedRow(i.op).0 == "nejump"
    ensures !IsDecoration(Word(ListedRow(i.op).0))
  {
    hide Text;
    assert |"address"| == 7;
  }

  lemma UndecoratedBare(i: Instruction)
    requires i.op in {HALT, REC} && IsCanonical(i)
    ensures Undecorated(PrintedTokens(Listing, i)) == [Word(Name(i.op))] + OperandWords(i)
  {
    hide TokensOf, Undecorated;
    UndecoratedPart(Tight(Word("halt")));
    UndecoratedPart(Spaced(Word("rec")));
    assert "address"[0] == 'a';
  }

  /** The listing shows the operands in the order the assembler reads them: without its decoration a listed
      line is the keyword and the operands of the instruction. Only nejmp and regdump have other words in
      front, and print says what it does. */
  lemma ListingShowsOperands(i: Instruction)
    requires IsCanonical(i) && i.op != PRINT
    ensures var head := if i.op == NEJMP then [Word("nejump")]
                        else if i.op == REG_DUMP then [Word("reg"), Word("dump"), HASH, Word("debug")]
                        else [Word(Name(i.op))];
            Undecorated(PrintedTokens(Listing, i)) == head + OperandWords(i)
  {
    hide IsCanonical, TokensOf, Undecorated, Stretches, Name, ListedRow, ListingParts, OperandWords, IsDecoration;
    if i.op == REG_DUMP {
      UndecoratedDump(i);
    } else if i.op == HALT || i.op == REC {
      UndecoratedBare(i);
    } else {
      ListedWord(i);
      var kw := Spaced(Word(ListedRow(i.op).0));
      PartsAreStretches(i);
      UndecoratedPart(kw);
      UndecoratedParts([kw], Stretches(ListedRow(i.op), OperandsOf(i)));
      UndecoratedStretches(i);
    }
  }

  lemma DumpWords()
    ensures var tokens := [Word("reg"), Word("dump"), HASH, Word("debug")];
            forall t | t in tokens :: !IsDecoration(t)
    ensures IsDecoration(UNDERSCORE.token)
  {
    assert "address"[0] == 'a';
  }

  lemma UndecoratedNote()
    ensures Undecorated(TokensOf(DUMP_HEAD)) == [Word("reg"), Word("dump")]
    ensures Undecorated(TokensOf(DUMP_NOTE)) == [HASH, Word("debug")]
  {
    hide TokensOf, Undecorated, IsDecoration, Text;
    var reg, dump, hash, debug := Tight(Word("reg")), Tight(Word("dump")), Tight(HASH), Spaced(Word("debug"));
    DumpWords();
    UndecoratedPart(reg);
    UndecoratedPart(UNDERSCORE);
    UndecoratedPart(dump);
    UndecoratedPart(hash);
    UndecoratedPart(debug);
    UndecoratedParts([hash], [debug]);
    UndecoratedParts([reg], [UNDERSCORE] + [dump]);
    UndecoratedParts([UNDERSCORE], [dump]);
    assert DUMP_HEAD == [reg] + ([UNDERSCORE] + [dump]);
  }

  lemma UndecoratedDump(i: Instruction)
    requires IsCanonical(i) && i.op == REG_DUMP
    ensures Undecorated(PrintedTokens(Listing, i))
            == [Word("reg"), Word("dump"), HASH, Word("debug")] + OperandWords(i)
  {
    hide TokensOf, Undecorated, First, RegisterWord, IsDecoration, Text, DUMP_HEAD, DUMP_NOTE;
    DumpParts(i.r0);
    UndecoratedNote();
    UndecoratedStretch(i.r0, 0);
    UndecoratedParts(DUMP_HEAD, DUMP_NOTE + First(i.r0));
    UndecoratedParts(DUMP_NOTE, First(i.r0));
  }

  /** For whole programs without these three the listing and the plain text are the same words. */
  lemma {:induction false} ListingShowsProgram(p: Program)
    requires IsCanonicalProgram(p) && forall k | 0 <= k < |p| :: p[k].op !in {PRINT, NEJMP, REG_DUMP}
    ensures Undecorated(ProgramTokens(Listing, p)) == ProgramTokens(Plain, p)
    decreases |p|
  {
    hide IsCanonical, Undecorated, PrintedTokens, LineWords;
    if p == [] {
      UndecoratedNothing();
    } else {
      var i := p[0];
      var ts, behind := PrintedTokens(Listing, i), if i.op == RET then [END] else [];
      ListingShowsProgram(p[1..]);
      ListingShowsLine(i);
      PlainLine(i);
      UndecoratedOne(END);
      UndecoratedNothing();
      UndecoratedAppend(InstructionTokens(Listing, i), ProgramTokens(Listing, p[1..]));
      UndecoratedAppend([END] + ts, behind);
      UndecoratedAppend([END], ts);
    }
  }

  lemma ListingShowsLine(i: Instruction)
    requires IsCanonical(i) && i.op !in {PRINT, NEJMP, REG_DUMP}
    ensures Undecorated(PrintedTokens(Listing, i)) == LineWords(i)
  {
    hide IsCanonical, Undecorated, PrintedTokens, OperandWords;
    ListingShowsOperands(i);
  }

  lemma UndecoratedNothing()
    ensures Undecorated([]) == []
  {
  }
}
