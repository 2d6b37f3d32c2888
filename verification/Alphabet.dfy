/** The lexer character by character: which characters make words and numbers, which sign is which token,
    and what happens to all others. */
module Alphabet {
  import opened Tokenizer

  const UPPER := "ABCDEFGHIJKLM" + "NOPQRSTUVWXYZ"
  const LOWER := "abcdefghijklm" + "nopqrstuvwxyz"
  const LETTERS := UPPER + LOWER
  const DIGITS := "0123456789"
  const SIGNS := "\n;+-=(){}.:,#"
  const BLANKS := " \t"

  lemma UpperCase(c: char)
    ensures c in UPPER <==> 'A' <= c <= 'Z'
  {
    assert c in "ABCDEFGHIJKLM" <==> 'A' <= c <= 'M';
    assert c in "NOPQRSTUVWXYZ" <==> 'N' <= c <= 'Z';
  }

  lemma LowerCase(c: char)
    ensures c in LOWER <==> 'a' <= c <= 'z'
  {
    assert c in "abcdefghijklm" <==> 'a' <= c <= 'm';
    assert c in "nopqrstuvwxyz" <==> 'n' <= c <= 'z';
  }

  lemma ClassesOf(c: char)
    ensures IsCharacter(c) <==> c in LETTERS
    ensures IsNumber(c) <==> c in DIGITS
    ensures IsWordPart(c) <==> c in LETTERS + DIGITS
    ensures IsSpace(c) <==> c in BLANKS
  {
    hide UPPER, LOWER;
    UpperCase(c);
    LowerCase(c);
  }

  /** A letter followed by letters and digits, up to anything else, is one word. */
  lemma NameIsWord(name: string, rest: string)
    requires name != "" && name[0] in LETTERS && forall k | 0 <= k < |name| :: name[k] in LETTERS + DIGITS
    requires rest == "" || rest[0] !in LETTERS + DIGITS
    ensures Lex(name + rest) == [Word(name)] + Lex(rest)
  {
    hide LETTERS, First;
    ClassesOf(name[0]);
    forall k | 0 <= k < |name| ensures IsWordPart(name[k]) { ClassesOf(name[k]); }
    if rest != "" { ClassesOf(rest[0]); }
    FirstOfText(Word(name), rest);
    assert (name + rest)[|name|..] == rest;
  }

  /** Digits, up to anything else, are one number. */
  lemma DigitsAreNumber(digits: string, rest: string)
    requires digits != "" && forall k | 0 <= k < |digits| :: digits[k] in DIGITS
    requires rest == "" || rest[0] !in DIGITS
    ensures Lex(digits + rest) == [Token.Number(digits)] + Lex(rest)
  {
    hide LETTERS, First;
    forall k | 0 <= k < |digits| ensures IsNumber(digits[k]) { ClassesOf(digits[k]); }
    if rest != "" { ClassesOf(rest[0]); }
    FirstOfText(Token.Number(digits), rest);
    assert (digits + rest)[|digits|..] == rest;
  }

  lemma BlankIsSkipped(c: char, rest: string)
    requires c in BLANKS
    ensures Lex([c] + rest) == Lex(rest)
  {
    assert ([c] + rest)[1..] == rest;
  }

  /** A sign alone; + - and = only if they do not come twice. */
  lemma SignLaw(c: char, rest: string)
    requires c in SIGNS && (c in "+-=" ==> rest == "" || rest[0] != c)
    ensures var kind := match c
                        case '\n' => ExpressionEnd
                        case ';' => ExpressionEnd
                        case '+' => Plus
                        case '-' => Minus
                        case '=' => Assign
                        case '(' => ParenOpen
                        case ')' => ParenClose
                        case '{' => CurlyOpen
                        case '}' => CurlyClose
                        case '.' => Dot
                        case ':' => Colon
                        case ',' => Comma
                        case '#' => Hash
                        case _ => Null;
            kind != Null && Lex([c] + rest) == [Symbol(kind)] + Lex(rest)
  {
    var s := [c] + rest;
    assert s[0] == c && s[1..] == rest;
    assert rest != "" ==> s[1] == rest[0];
  }

  lemma DoubleSignLaw(rest: string)
    ensures Lex("++" + rest) == [Symbol(PlusPlus)] + Lex(rest)
    ensures Lex("--" + rest) == [Symbol(MinusMinus)] + Lex(rest)
    ensures Lex("==" + rest) == [Symbol(Equal)] + Lex(rest)
  {
    assert ("++" + rest)[2..] == rest && ("--" + rest)[2..] == rest && ("==" + rest)[2..] == rest;
  }

  /** Every other character, the carriage return and the underscore among them, is a token without meaning. */
  lemma OtherIsNull(c: char, rest: string)
    requires c !in LETTERS + DIGITS && c !in SIGNS && c !in BLANKS
    ensures Lex([c] + rest) == [Symbol(Null)] + Lex(rest)
  {
    hide LETTERS;
    ClassesOf(c);
    assert ([c] + rest)[1..] == rest;
  }
}
