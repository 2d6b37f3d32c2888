/** The keyword table of src/assembler/basic_assembler.c. */
module Keywords {
  import opened Semantics

  const KEYWORDS_COUNT := 51

  /** KEYWORDS, word for word; "fadd " does end in a space. */
  const KEYWORDS: seq<string> :=
    ["halt", "entry", "dload", "fload", "dsave", "fsave", "set", "fset", "push", "pop", "rec", "call", "getac",
     "inc", "dec", "add", "sub", "div", "mul", "fadd ", "fsub", "fdiv", "fmul", "and", "or"]
    +
    ["cu2i", "ci2u", "cf2i", "ci2f", "cu2f", "cf2u",
     "cmpe", "cmpeg", "cmpel", "cmpg", "cmpl", "fcmpe", "fcmpeg", "fcmpel", "fcmpg", "fcmpl",
     "jmp", "ejmp", "nejmp", "rjmp", "erjmp", "nerjmp", "print", "regdump", "ret", "nop"]

  /** KEYWORDS by opcode; "fadd " does end in a space. */
  function Name(op: Op): (name: string)
    ensures |name| >= 2 && 'a' <= name[0] <= 'z'
  {
    match op
    case HALT => "halt" case ENTRY => "entry" case DLOAD => "dload" case FLOAD => "fload"
    case DSAVE => "dsave" case FSAVE => "fsave" case SET => "set" case FSET => "fset"
    case PUSH => "push" case POP => "pop" case REC => "rec" case CALL => "call"
    case GETAC => "getac" case INC => "inc" case DEC => "dec" case ADD => "add"
    case SUB => "sub" case DIV => "div" case MUL => "mul" case FADD => "fadd "
    case FSUB => "fsub" case FDIV => "fdiv" case FMUL => "fmul" case AND => "and"
    case OR => "or" case CU2I => "cu2i" case CI2U => "ci2u" case CF2I => "cf2i"
    case CI2F => "ci2f" case CU2F => "cu2f" case CF2U => "cf2u" case CMPE => "cmpe"
    case CMPEG => "cmpeg" case CMPEL => "cmpel" case CMPG => "cmpg" case CMPL => "cmpl"
    case FCMPE => "fcmpe" case FCMPEG => "fcmpeg" case FCMPEL => "fcmpel" case FCMPG => "fcmpg"
    case FCMPL => "fcmpl" case JMP => "jmp" case EJMP => "ejmp" case NEJMP => "nejmp"
    case RJMP => "rjmp" case ERJMP => "erjmp" case NERJMP => "nerjmp" case PRINT => "print"
    case REG_DUMP => "regdump" case RET => "ret" case NOP => "nop"
  }

  /** The position of an opcode in the enum Inst, which is that of its keyword in the table. */
  function Number(op: Op): (n: nat)
    ensures n < KEYWORDS_COUNT
  {
    match op
    case HALT => 0 case ENTRY => 1 case DLOAD => 2 case FLOAD => 3 case DSAVE => 4 case FSAVE => 5
    case SET => 6 case FSET => 7 case PUSH => 8 case POP => 9 case REC => 10 case CALL => 11
    case GETAC => 12 case INC => 13 case DEC => 14 case ADD => 15 case SUB => 16 case DIV => 17
    case MUL => 18 case FADD => 19 case FSUB => 20 case FDIV => 21 case FMUL => 22 case AND => 23
    case OR => 24 case CU2I => 25 case CI2U => 26 case CF2I => 27 case CI2F => 28 case CU2F => 29
    case CF2U => 30 case CMPE => 31 case CMPEG => 32 case CMPEL => 33 case CMPG => 34 case CMPL => 35
    case FCMPE => 36 case FCMPEG => 37 case FCMPEL => 38 case FCMPG => 39 case FCMPL => 40 case JMP => 41
    case EJMP => 42 case NEJMP => 43 case RJMP => 44 case ERJMP => 45 case NERJMP => 46 case PRINT => 47
    case REG_DUMP => 48 case RET => 49 case NOP => 50
  }

  function OpAt(n: nat): Op
    requires n < KEYWORDS_COUNT
  {
    match n
    case 0 => HALT case 1 => ENTRY case 2 => DLOAD case 3 => FLOAD case 4 => DSAVE case 5 => FSAVE
    case 6 => SET case 7 => FSET case 8 => PUSH case 9 => POP case 10 => REC case 11 => CALL
    case 12 => GETAC case 13 => INC case 14 => DEC case 15 => ADD case 16 => SUB case 17 => DIV
    case 18 => MUL case 19 => FADD case 20 => FSUB case 21 => FDIV case 22 => FMUL case 23 => AND
    case 24 => OR case 25 => CU2I case 26 => CI2U case 27 => CF2I case 28 => CI2F case 29 => CU2F
    case 30 => CF2U case 31 => CMPE case 32 => CMPEG case 33 => CMPEL case 34 => CMPG case 35 => CMPL
    case 36 => FCMPE case 37 => FCMPEG case 38 => FCMPEL case 39 => FCMPG case 40 => FCMPL case 41 => JMP
    case 42 => EJMP case 43 => NEJMP case 44 => RJMP case 45 => ERJMP case 46 => NERJMP case 47 => PRINT
    case 48 => REG_DUMP case 49 => RET case _ => NOP
  }

  /** A number that tells the keywords apart. */
  function Fingerprint(w: string): int
  {
    if |w| < 2 then 0
    else |w| + w[0] as int + 4 * w[1] as int + 2 * w[|w| - 1] as int + 6 * w[|w| - 2] as int
  }

  function OpOfFingerprint(f: int): Op
  {
    if f == 1376 then HALT else if f == 1472 then ENTRY else if f == 1319 then DLOAD else if f == 1321 then FLOAD
    else if f == 1475 then DSAVE else if f == 1477 then FSAVE else if f == 1360 then SET else if f == 1404 then FSET
    else if f == 1482 then PUSH else if f == 1449 then POP else if f == 1325 then REC else if f == 1355 then CALL
    else if f == 1292 then GETAC else if f == 1406 then INC else if f == 1311 then DEC else if f == 1300 then ADD
    else if f == 1484 then SUB else if f == 1389 then DIV else if f == 1498 then MUL else if f == 1159 then FADD
    else if f == 1464 then FSUB else if f == 1372 then FDIV else if f == 1460 then FMUL else if f == 1400 then AND
    else if f == 1463 then OR else if f == 1081 then CU2I else if f == 1057 then CI2U else if f == 1021 then CF2I
    else if f == 1027 then CI2F else if f == 1075 then CU2F else if f == 1045 then CF2U else if f == 1413 then CMPE
    else if f == 1352 then CMPEG else if f == 1362 then CMPEL else if f == 1417 then CMPG else if f == 1427 then CMPL
    else if f == 1377 then FCMPE else if f == 1316 then FCMPEG else if f == 1326 then FCMPEL
    else if f == 1381 then FCMPG else if f == 1391 then FCMPL else if f == 1423 then JMP else if f == 1407 then EJMP
    else if f == 1397 then NEJMP
    else if f == 1420 then RJMP else if f == 1440 then ERJMP else if f == 1398 then NERJMP else if f == 1465 then PRINT
    else if f == 1403 then REG_DUMP else if f == 1359 then RET
    else NOP
  }

  /** Row n of the table: the opcode, its keyword in the source's list and the fingerprint of that. */
  predicate IsRow(n: nat, op: Op)
  {
    n < |KEYWORDS| && OpAt(n) == op && Name(op) == KEYWORDS[n] && OpOfFingerprint(Fingerprint(Name(op))) == op
  }

  // The table is checked five keywords at a time.

  lemma Table0(op: Op)
    requires 0 <= Number(op) < 5
    ensures IsRow(Number(op), op)
  {
  }

  lemma Table1(op: Op)
    requires 5 <= Number(op) < 10
    ensures IsRow(Number(op), op)
  {
  }

  lemma Table2(op: Op)
    requires 10 <= Number(op) < 15
    ensures IsRow(Number(op), op)
  {
  }

  lemma Table3(op: Op)
    requires 15 <= Number(op) < 20
    ensures IsRow(Number(op), op)
  {
  }

  lemma Table4(op: Op)
    requires 20 <= Number(op) < 25
    ensures IsRow(Number(op), op)
  {
  }

  lemma Table5(op: Op)
    requires 25 <= Number(op) < 30
    ensures IsRow(Number(op), op)
  {
  }

  lemma Table6(op: Op)
    requires 30 <= Number(op) < 35
    ensures IsRow(Number(op), op)
  {
  }

  lemma Table7(op: Op)
    requires 35 <= Number(op) < 40
    ensures IsRow(Number(op), op)
  {
  }

  lemma Table8(op: Op)
    requires 40 <= Number(op) < 45
    ensures IsRow(Number(op), op)
  {
  }

  lemma Table9(op: Op)
    requires 45 <= Number(op) < 50
    ensures IsRow(Number(op), op)
  {
  }

  lemma Table10(op: Op)
    requires 50 <= Number(op) < 51
    ensures IsRow(Number(op), op)
  {
  }

  /** The table lists every opcode, and each has a keyword of its own. */
  lemma TableLists(op: Op)
    ensures IsRow(Number(op), op)
  {
    hide Name, Number, OpAt, Fingerprint, OpOfFingerprint, IsRow;
    var n := Number(op);
    if n < 5 {
      Table0(op);
    } else if n < 10 {
      Table1(op);
    } else if n < 15 {
      Table2(op);
    } else if n < 20 {
      Table3(op);
    } else if n < 25 {
      Table4(op);
    } else if n < 30 {
      Table5(op);
    } else if n < 35 {
      Table6(op);
    } else if n < 40 {
      Table7(op);
    } else if n < 45 {
      Table8(op);
    } else if n < 50 {
      Table9(op);
    } else {
      Table10(op);
    }
  }

  /** No two opcodes share a keyword. */
  lemma NamesDiffer(a: Op, b: Op)
    requires Name(a) == Name(b)
    ensures a == b
  {
    hide Name, Fingerprint, OpOfFingerprint;
    TableLists(a);
    TableLists(b);
  }

  /** The opcode a word is the keyword of. */
  ghost function KeywordOp(word: string): Option<Op>
  {
    if exists op :: Name(op) == word then var op :| Name(op) == word; Some(op) else None
  }

  lemma KeywordOfName(op: Op)
    ensures KeywordOp(Name(op)) == Some(op)
  {
    hide Name;
    var found := KeywordOp(Name(op)).value;
    NamesDiffer(found, op);
  }

  lemma NumberOfOp(n: nat)
    requires n < KEYWORDS_COUNT
    ensures Number(OpAt(n)) == n
  {
  }

  /** The words of the table are all different. */
  lemma KeywordsDiffer(i: nat, j: nat)
    requires i < j < KEYWORDS_COUNT
    ensures |KEYWORDS| == KEYWORDS_COUNT && KEYWORDS[i] != KEYWORDS[j]
  {
    hide Name, OpAt, Number, Fingerprint, OpOfFingerprint;
    NumberOfOp(i);
    NumberOfOp(j);
    TableLists(OpAt(i));
    TableLists(OpAt(j));
  }

  lemma KeywordAt(n: nat)
    requires n < KEYWORDS_COUNT
    ensures |KEYWORDS| == KEYWORDS_COUNT && KeywordOp(KEYWORDS[n]) == Some(OpAt(n))
  {
    hide Name, OpAt, Number, Fingerprint, OpOfFingerprint, KEYWORDS;
    NumberOfOp(n);
    TableLists(OpAt(n));
    KeywordOfName(OpAt(n));
    AllKeywords();
  }

  lemma AllKeywords()
    ensures |KEYWORDS| == KEYWORDS_COUNT
  {
  }

  /** is_keyword: the position of the word in the table, or -1 when it is not there. */
  method IsKeyword(keyword: string) returns (index: int)
    ensures if index == -1 then keyword !in KEYWORDS
            else 0 <= index < |KEYWORDS| && KEYWORDS[index] == keyword
    ensures -1 <= index < KEYWORDS_COUNT
    ensures KeywordOp(keyword) == if index == -1 then None else Some(OpAt(index))
  {
    hide Name, OpAt, Number, KEYWORDS;
    AllKeywords();
    for i := 0 to KEYWORDS_COUNT
      invariant forall j | 0 <= j < i :: KEYWORDS[j] != keyword
    {
      if KEYWORDS[i] == keyword {
        KeywordAt(i);
        return i;
      }
    }
    forall op ensures Name(op) != keyword {
      TableLists(op);
      RowKeyword(Number(op), op);
    }
    return -1;
  }

  lemma RowKeyword(n: nat, op: Op)
    requires IsRow(n, op)
    ensures n < |KEYWORDS| && Name(op) == KEYWORDS[n]
  {
    hide Name, KEYWORDS;
  }
}
