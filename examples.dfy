/** The behaviour the repository's tests (tests/test_calculator.py) expect,
    derived from the general lemmas of the model.  The scans of longer
    texts go token by token from the end, through the scanner's one-step
    lemmas; the conversions and evaluations go through an expression tree
    whose printed form is the token list.  The scans do not go through
    `Lexer.LexLayout` or `Calculator.TextValue`: those need the literal
    text proved equal to a `Layout` of its tokens, an equality of whole
    strings that costs the verifier several times more than the
    character-by-character scan below. */
module Examples {
  import opened Tokens
  import opened Lexer
  import opened Shunting
  import opened Rpn
  import opened Infix
  import opened Calculator

  // ---- tokenize ----

  lemma TokenizeSimple()
    ensures Lex("1+2", 0) == Ok(["1", "+", "2"])
  {
    var s := "1+2";
    var r: seq<Token> := [];
    DigitToken('1');
    DigitToken('2');
    LexNumberAt(s, 2, "2", r);
    r := ["2"] + r;
    LexSymbolAt(s, 1, "+", r);
    r := ["+"] + r;
    LexNumberAt(s, 0, "1", r);
    r := ["1"] + r;
    assert r == ["1", "+", "2"];
  }

  lemma TokenizeSpaced()
    ensures Lex(" 3 + 4 * (2 -1) ", 0) == Ok(["3", "+", "4", "*", "(", "2", "-", "1", ")"])
  {
    var s := " 3 + 4 * (2 -1) ";
    SpacedChars(s);
    SpacedScan(s);
  }

  /** The spaced text from position 0: its next tokens, then what the rest scans to. */
  lemma SpacedAt0(s: string, rest: seq<Token>)
    requires |s| == 16 && s[0] == ' ' && s[1] == '3' && s[2] == ' ' && s[3] == '+' && s[4] == ' '
    requires Lex(s, 5) == Ok(rest)
    ensures Lex(s, 0) == Ok(["3", "+"] + rest)
  {
    LexSpaceAt(s, 4);
    LexCharAt(s, 3, rest);
    var r := ["+"] + rest;
    LexSpaceAt(s, 2);
    LexDigitAt(s, 1, r);
    r := ["3"] + r;
    LexSpaceAt(s, 0);
    assert r == ["3", "+"] + rest;
  }

  /** The spaced text from position 5: its next tokens, then what the rest scans to. */
  lemma SpacedAt5(s: string, rest: seq<Token>)
    requires |s| == 16 && s[5] == '4' && s[6] == ' ' && s[7] == '*' && s[8] == ' '
    requires Lex(s, 9) == Ok(rest)
    ensures Lex(s, 5) == Ok(["4", "*"] + rest)
  {
    LexSpaceAt(s, 8);
    LexCharAt(s, 7, rest);
    var r := ["*"] + rest;
    LexSpaceAt(s, 6);
    LexDigitAt(s, 5, r);
    r := ["4"] + r;
    assert r == ["4", "*"] + rest;
  }

  /** The spaced text from position 9: its next tokens, then what the rest scans to. */
  lemma SpacedAt9(s: string, rest: seq<Token>)
    requires |s| == 16 && s[9] == '(' && s[10] == '2' && s[11] == ' '
    requires Lex(s, 12) == Ok(rest)
    ensures Lex(s, 9) == Ok(["(", "2"] + rest)
  {
    LexSpaceAt(s, 11);
    LexDigitAt(s, 10, rest);
    var r := ["2"] + rest;
    LexCharAt(s, 9, r);
    r := ["("] + r;
    assert r == ["(", "2"] + rest;
  }

  /** The last tokens of the spaced text, from position 12. */
  lemma SpacedAt12(s: string)
    requires |s| == 16 && s[12] == '-' && s[13] == '1' && s[14] == ')' && s[15] == ' '
    ensures Lex(s, 12) == Ok(["-", "1", ")"])
  {
    var r: seq<Token> := [];
    LexBlank(s, 16);
    LexSpaceAt(s, 15);
    LexCharAt(s, 14, r);
    r := [")"] + r;
    LexDigitAt(s, 13, r);
    r := ["1"] + r;
    LexCharAt(s, 12, r);
    r := ["-"] + r;
    assert r == ["-", "1", ")"];
  }

  /** The characters of " 3 + 4 * (2 -1) ". */
  lemma SpacedChars(s: string)
    requires s == " 3 + 4 * (2 -1) "
    ensures |s| == 16 && s[0] == ' ' && s[1] == '3' && s[2] == ' ' && s[3] == '+' && s[4] == ' ' && s[5] == '4' && s[6] == ' ' && s[7] == '*' && s[8] == ' ' && s[9] == '(' && s[10] == '2' && s[11] == ' ' && s[12] == '-' && s[13] == '1' && s[14] == ')' && s[15] == ' '
  {
  }

  /** Scanning the spaced text, from the back. */
  lemma SpacedScan(s: string)
    requires |s| == 16 && s[0] == ' ' && s[1] == '3' && s[2] == ' ' && s[3] == '+' && s[4] == ' ' && s[5] == '4' && s[6] == ' ' && s[7] == '*' && s[8] == ' ' && s[9] == '(' && s[10] == '2' && s[11] == ' ' && s[12] == '-' && s[13] == '1' && s[14] == ')' && s[15] == ' '
    ensures Lex(s, 0) == Ok(["3", "+", "4", "*", "(", "2", "-", "1", ")"])
  {
    var r3: seq<Token> := ["-", "1", ")"];
    var r2 := ["(", "2"] + r3;
    var r1 := ["4", "*"] + r2;
    var r0 := ["3", "+"] + r1;
    assert r0 == ["3", "+", "4", "*", "(", "2", "-", "1", ")"];
    SpacedAt12(s);
    SpacedAt9(s, r3);
    SpacedAt5(s, r2);
    SpacedAt0(s, r1);
  }

  lemma TokenizeDecimals()
    ensures Lex("12.34/5.6", 0) == Ok(["12.34", "/", "5.6"])
  {
    var s := "12.34/5.6";
    var r: seq<Token> := [];
    DecimalToken("5.6", 1);
    LexNumberAt(s, 6, "5.6", r);
    r := ["5.6"] + r;
    LexSymbolAt(s, 5, "/", r);
    r := ["/"] + r;
    DecimalToken("12.34", 2);
    LexNumberAt(s, 0, "12.34", r);
    r := ["12.34"] + r;
    assert r == ["12.34", "/", "5.6"];
  }

  lemma TokenizeTwoDots()
    ensures Lex("1..2 + 3", 0) == Err(MalformedNumber(0))
  {
    var s := "1..2 + 3";
    RunEndAt(s, 0, 4);
    assert s[0..4] == "1..2";
    TwoDots("1..2", 1, 2);
  }

  lemma TokenizeLetter()
    ensures Lex("5 + a", 0) == Err(UnsupportedChar('a'))
  {
  }

  lemma TokenizeLoneDot()
    ensures Lex(".", 0) == Err(MalformedNumber(0))
  {
  }

  lemma TokenizeBlank()
    ensures Lex("", 0) == Ok([]) && Lex("   \t\n", 0) == Ok([])
  {
    LexBlank("   \t\n", 0);
  }

  // ---- infix_to_rpn ----

  lemma ConvertPrecedence()
    ensures Shunt(["3", "+", "4", "*", "2", "/", "(", "1", "-", "5", ")"])
            == Ok(["3", "4", "2", "*", "1", "5", "-", "/", "+"])
  {
    var e := Bin('+', Num("3"), Bin('/', Bin('*', Num("4"), Num("2")), Group(Bin('-', Num("1"), Num("5")))));
    MixedTree(e);
    PrintShunts(e);
  }

  /** 3 + 4 * 2 / (1 - 5): its printed and postfix forms. */
  lemma MixedTree(e: Expr)
    requires e == Bin('+', Num("3"), Bin('/', Bin('*', Num("4"), Num("2")), Group(Bin('-', Num("1"), Num("5")))))
    ensures WF(e)
    ensures Print(e) == ["3", "+", "4", "*", "2", "/", "(", "1", "-", "5", ")"]
    ensures Postfix(e) == ["3", "4", "2", "*", "1", "5", "-", "/", "+"]
  {
    MixedShape(e);
    MixedPrint(e);
    MixedPostfix(e);
  }

  lemma MixedPrint(e: Expr)
    requires e == Bin('+', Num("3"), Bin('/', Bin('*', Num("4"), Num("2")), Group(Bin('-', Num("1"), Num("5")))))
    ensures Print(e) == ["3", "+", "4", "*", "2", "/", "(", "1", "-", "5", ")"]
  {
    var q, m, g := e.right, e.right.left, e.right.right;
    assert Print(g.inner) == ["1", "-", "5"];
    assert Print(g) == ["(", "1", "-", "5", ")"];
    assert Print(m) == ["4", "*", "2"];
    assert Print(q) == ["4", "*", "2", "/", "(", "1", "-", "5", ")"];
  }

  lemma MixedPostfix(e: Expr)
    requires e == Bin('+', Num("3"), Bin('/', Bin('*', Num("4"), Num("2")), Group(Bin('-', Num("1"), Num("5")))))
    ensures Postfix(e) == ["3", "4", "2", "*", "1", "5", "-", "/", "+"]
  {
    var q, m, g := e.right, e.right.left, e.right.right;
    assert Postfix(g) == ["1", "5", "-"];
    assert Postfix(m) == ["4", "2", "*"];
    assert Postfix(q) == ["4", "2", "*", "1", "5", "-", "/"];
  }

  lemma MixedShape(e: Expr)
    requires e == Bin('+', Num("3"), Bin('/', Bin('*', Num("4"), Num("2")), Group(Bin('-', Num("1"), Num("5")))))
    ensures WF(e.right.right) && WF(e.right.left) && WF(e.right) && WF(e)
  {
    DigitToken('1');
    DigitToken('2');
    DigitToken('3');
    DigitToken('4');
    DigitToken('5');
    assert WF(e.right.right.inner) && WF(e.right.right);
    assert WF(e.right.left);
    assert WF(e.right);
  }

  lemma ConvertLeftAssociative()
    ensures Shunt(["2", "-", "3", "-", "4"]) == Ok(["2", "3", "-", "4", "-"])
  {
    var e := Bin('-', Bin('-', Num("2"), Num("3")), Num("4"));
    DigitToken('2');
    DigitToken('3');
    DigitToken('4');
    assert WF(e);
    assert Print(e) == ["2", "-", "3", "-", "4"];
    assert Postfix(e) == ["2", "3", "-", "4", "-"];
    PrintShunts(e);
  }

  lemma ConvertNested()
    ensures Shunt(["(", "1", "+", "(", "2", "*", "3", ")", ")", "-", "4"])
            == Ok(["1", "2", "3", "*", "+", "4", "-"])
  {
    var e := Bin('-', Group(Bin('+', Num("1"), Group(Bin('*', Num("2"), Num("3"))))), Num("4"));
    DigitToken('1');
    DigitToken('2');
    DigitToken('3');
    DigitToken('4');
    assert WF(e);
    assert Print(e) == ["(", "1", "+", "(", "2", "*", "3", ")", ")", "-", "4"];
    assert Postfix(e) == ["1", "2", "3", "*", "+", "4", "-"];
    PrintShunts(e);
  }

  lemma ConvertUnclosed()
    ensures Shunt(["(", "1", "+", "2"]) == Err(UnbalancedParens(Unclosed))
  {
    var ts := ["(", "1", "+", "2"];
    UnclosedBalance(ts);
    ShuntFails(ts);
  }

  lemma UnclosedBalance(ts: seq<Token>)
    requires ts == ["(", "1", "+", "2"]
    ensures Balance(ts, 0) == Ok(1)
  {
    DigitToken('1');
    DigitToken('2');
    assert Balance(ts[3..], 1) == Ok(1);
    assert Balance(ts[2..], 1) == Ok(1);
    assert Balance(ts[1..], 1) == Ok(1);
  }

  lemma ConvertUnopened()
    ensures Shunt(["1", "+", "2", ")"]) == Err(UnbalancedParens(MissingOpen))
  {
    var ts := ["1", "+", "2", ")"];
    UnopenedBalance(ts);
    ShuntFails(ts);
  }

  lemma UnopenedBalance(ts: seq<Token>)
    requires ts == ["1", "+", "2", ")"]
    ensures Balance(ts, 0) == Err(UnbalancedParens(MissingOpen))
  {
    DigitToken('1');
    DigitToken('2');
    assert Balance(ts[3..], 0) == Err(UnbalancedParens(MissingOpen));
    assert Balance(ts[2..], 0) == Err(UnbalancedParens(MissingOpen));
    assert Balance(ts[1..], 0) == Err(UnbalancedParens(MissingOpen));
  }

  lemma ConvertUnexpected()
    ensures Shunt(["1", "foo", "2"]) == Err(UnexpectedToken("foo"))
  {
    ShuntFails(["1", "foo", "2"]);
  }

  // ---- evaluate_rpn ----

  lemma EvaluateSum()
    ensures RpnValue(["3", "4", "+"]) == Ok(7.0)
  {
    var e := Bin('+', Num("3"), Num("4"));
    DigitValueIs('3');
    DigitValueIs('4');
    assert WF(e);
    assert Postfix(e) == ["3", "4", "+"];
    PostfixValue(e);
  }

  lemma TenValue()
    ensures IsNumber("10") && NumberValue("10") == 10.0
  {
    assert DotIndex("10") == 2;
    assert "10"[..2] == "10";
    assert "10"[..1] == "1";
    assert "1"[..0] == [];
  }

  lemma EvaluateQuotient()
    ensures RpnValue(["10", "2", "/", "3", "*"]) == Ok(15.0)
  {
    var q := Bin('/', Num("10"), Num("2"));
    var e := Bin('*', q, Num("3"));
    DigitValueIs('2');
    DigitValueIs('3');
    TenValue();
    assert Eval(q) == Ok(5.0);
    assert Eval(e) == Ok(15.0);
    assert Postfix(e) == ["10", "2", "/", "3", "*"];
    PostfixValue(e);
  }

  lemma EvaluateClassic()
    ensures RpnValue(["5", "1", "2", "+", "4", "*", "+", "3", "-"]) == Ok(14.0)
  {
    var e := Bin('-', Bin('+', Num("5"), Bin('*', Group(Bin('+', Num("1"), Num("2"))), Num("4"))), Num("3"));
    ClassicValue(e);
    ClassicPostfix(e);
    PostfixValue(e);
  }

  /** (5 + (1 + 2) * 4) - 3 has the value 14. */
  lemma ClassicValue(e: Expr)
    requires e == Bin('-', Bin('+', Num("5"), Bin('*', Group(Bin('+', Num("1"), Num("2"))), Num("4"))), Num("3"))
    ensures WF(e) && Eval(e) == Ok(14.0)
  {
    ClassicShape(e);
    DigitValueIs('1');
    DigitValueIs('2');
    DigitValueIs('3');
    DigitValueIs('4');
    DigitValueIs('5');
    assert Eval(e.left.right.left) == Ok(3.0);
    assert Eval(e.left.right) == Ok(12.0);
    assert Eval(e.left) == Ok(17.0);
  }

  lemma ClassicShape(e: Expr)
    requires e == Bin('-', Bin('+', Num("5"), Bin('*', Group(Bin('+', Num("1"), Num("2"))), Num("4"))), Num("3"))
    ensures WF(e.left.right.left) && WF(e.left.right) && WF(e.left) && WF(e)
  {
    DigitToken('1');
    DigitToken('2');
    DigitToken('3');
    DigitToken('4');
    DigitToken('5');
    assert WF(e.left.right.left.inner);
  }

  lemma ClassicPostfix(e: Expr)
    requires e == Bin('-', Bin('+', Num("5"), Bin('*', Group(Bin('+', Num("1"), Num("2"))), Num("4"))), Num("3"))
    ensures Postfix(e) == ["5", "1", "2", "+", "4", "*", "+", "3", "-"]
  {
    assert Postfix(e.left.right) == ["1", "2", "+", "4", "*"];
  }

  lemma EvaluateDivisionByZero()
    ensures RpnValue(["1", "0", "/"]) == Err(DivisionByZero)
  {
    var e := Bin('/', Num("1"), Num("0"));
    DigitValueIs('0');
    DigitValueIs('1');
    assert WF(e);
    assert Postfix(e) == ["1", "0", "/"];
    PostfixValue(e);
  }

  lemma EvaluateShort()
    ensures RpnValue(["1", "+"]) == Err(InsufficientOperands)
  {
  }

  lemma EvaluateLeftover()
    ensures RpnValue(["1", "2"]) == Err(MalformedExpression)
  {
    var ts := ["1", "2"];
    DigitValueIs('1');
    DigitValueIs('2');
    assert ts[1..] == ["2"] && ts[2..] == [];
    assert [1.0] + [2.0] == [1.0, 2.0];
    var empty: seq<real> := [];
    assert empty + [1.0] == [1.0];
    assert ExecStep("1", empty) == Ok([1.0]);
    assert ExecStep("2", [1.0]) == Ok([1.0, 2.0]);
    assert Exec(ts[1..], [1.0]) == Ok([1.0, 2.0]);
    assert Exec(ts, []) == Ok([1.0, 2.0]);
  }

  lemma EvaluateLeftoverAfterSum()
    ensures RpnValue(["1", "2", "+", "3"]) == Err(MalformedExpression)
  {
    var ts := ["1", "2", "+", "3"];
    DigitValueIs('1');
    DigitValueIs('2');
    DigitValueIs('3');
    assert ts[1..] == ["2", "+", "3"] && ts[2..] == ["+", "3"];
    assert ts[3..] == ["3"] && ts[4..] == [];
    assert [1.0] + [2.0] == [1.0, 2.0] && [3.0] + [3.0] == [3.0, 3.0];
    var empty: seq<real> := [];
    assert empty + [1.0] == [1.0];
    assert ExecStep("1", empty) == Ok([1.0]);
    assert ExecStep("2", [1.0]) == Ok([1.0, 2.0]);
    assert ExecStep("3", [3.0]) == Ok([3.0, 3.0]);
    assert Exec(ts[3..], [3.0]) == Ok([3.0, 3.0]);
    assert [1.0, 2.0][..0] == [];
    assert ExecStep("+", [1.0, 2.0]) == Ok([3.0]);
    assert Exec(ts[2..], [1.0, 2.0]) == Ok([3.0, 3.0]);
    assert Exec(ts[1..], [1.0]) == Ok([3.0, 3.0]);
    assert Exec(ts, []) == Ok([3.0, 3.0]);
  }

  // ---- calculate ----

  lemma CalculateSum()
    ensures Value("1 + 2") == Ok(3.0)
  {
    var s := "1 + 2";
    var e := Bin('+', Num("1"), Num("2"));
    DigitValueIs('1');
    DigitValueIs('2');
    DigitToken('1');
    DigitToken('2');
    var r: seq<Token> := [];
    LexNumberAt(s, 4, "2", r);
    r := ["2"] + r;
    LexSkip(s, 3, 1);
    LexSymbolAt(s, 2, "+", r);
    r := ["+"] + r;
    LexSkip(s, 1, 1);
    LexNumberAt(s, 0, "1", r);
    r := ["1"] + r;
    assert r == Print(e);
    ScannedValue(s, e);
  }

  lemma CalculatePrecedence()
    ensures Value("2*3 + 4") == Ok(10.0)
  {
    var s := "2*3 + 4";
    var e := Bin('+', Bin('*', Num("2"), Num("3")), Num("4"));
    PrecedenceScan(s);
    PrecedenceTree(e);
    ScannedValue(s, e);
  }

  lemma PrecedenceScan(s: string)
    requires s == "2*3 + 4"
    ensures Lex(s, 0) == Ok(["2", "*", "3", "+", "4"])
  {
    DigitToken('2');
    DigitToken('3');
    DigitToken('4');
    var r: seq<Token> := [];
    LexNumberAt(s, 6, "4", r);
    r := ["4"] + r;
    LexSkip(s, 5, 1);
    LexSymbolAt(s, 4, "+", r);
    r := ["+"] + r;
    LexSkip(s, 3, 1);
    LexNumberAt(s, 2, "3", r);
    r := ["3"] + r;
    LexSymbolAt(s, 1, "*", r);
    r := ["*"] + r;
    LexNumberAt(s, 0, "2", r);
    r := ["2"] + r;
    assert r == ["2", "*", "3", "+", "4"];
  }

  /** 2 * 3 + 4: printed form and value. */
  lemma PrecedenceTree(e: Expr)
    requires e == Bin('+', Bin('*', Num("2"), Num("3")), Num("4"))
    ensures WF(e) && Print(e) == ["2", "*", "3", "+", "4"] && Eval(e) == Ok(10.0)
  {
    PrecedenceShape(e);
    DigitValueIs('2');
    DigitValueIs('3');
    DigitValueIs('4');
    assert Eval(e.left) == Ok(6.0);
  }

  lemma PrecedenceShape(e: Expr)
    requires e == Bin('+', Bin('*', Num("2"), Num("3")), Num("4"))
    ensures WF(e.left) && WF(e)
  {
    DigitToken('2');
    DigitToken('3');
    DigitToken('4');
    assert WF(e.left);
  }

  lemma CalculateGroup()
    ensures Value("(2+3)*4") == Ok(20.0)
  {
    var s := "(2+3)*4";
    var e := Bin('*', Group(Bin('+', Num("2"), Num("3"))), Num("4"));
    GroupScan(s);
    GroupTree(e);
    ScannedValue(s, e);
  }

  lemma GroupScan(s: string)
    requires s == "(2+3)*4"
    ensures Lex(s, 0) == Ok(["(", "2", "+", "3", ")", "*", "4"])
  {
    DigitToken('2');
    DigitToken('3');
    DigitToken('4');
    var r: seq<Token> := [];
    LexNumberAt(s, 6, "4", r);
    r := ["4"] + r;
    LexSymbolAt(s, 5, "*", r);
    r := ["*"] + r;
    LexSymbolAt(s, 4, ")", r);
    r := [")"] + r;
    LexNumberAt(s, 3, "3", r);
    r := ["3"] + r;
    LexSymbolAt(s, 2, "+", r);
    r := ["+"] + r;
    LexNumberAt(s, 1, "2", r);
    r := ["2"] + r;
    LexSymbolAt(s, 0, "(", r);
    r := ["("] + r;
    assert r == ["(", "2", "+", "3", ")", "*", "4"];
  }

  /** (2 + 3) * 4: printed form and value. */
  lemma GroupTree(e: Expr)
    requires e == Bin('*', Group(Bin('+', Num("2"), Num("3"))), Num("4"))
    ensures WF(e) && Print(e) == ["(", "2", "+", "3", ")", "*", "4"] && Eval(e) == Ok(20.0)
  {
    GroupShape(e);
    DigitValueIs('2');
    DigitValueIs('3');
    DigitValueIs('4');
    assert Eval(e.left) == Ok(5.0);
  }

  lemma GroupShape(e: Expr)
    requires e == Bin('*', Group(Bin('+', Num("2"), Num("3"))), Num("4"))
    ensures WF(e.left) && WF(e)
  {
    DigitToken('2');
    DigitToken('3');
    DigitToken('4');
    assert WF(e.left.inner) && WF(e.left);
  }

  lemma CalculateMixed()
    ensures Value("3 + 4 * 2 / (1 - 5)") == Ok(1.0)
  {
    var s := "3 + 4 * 2 / (1 - 5)";
    var e := Bin('+', Num("3"), Bin('/', Bin('*', Num("4"), Num("2")), Group(Bin('-', Num("1"), Num("5")))));
    MixedChars(s);
    MixedScan(s);
    MixedTree(e);
    MixedValue(e);
    ScannedValue(s, e);
  }

  /** 3 + 4 * 2 / (1 - 5) has the value 1. */
  lemma MixedValue(e: Expr)
    requires e == Bin('+', Num("3"), Bin('/', Bin('*', Num("4"), Num("2")), Group(Bin('-', Num("1"), Num("5")))))
    ensures WF(e) && Eval(e) == Ok(1.0)
  {
    MixedShape(e);
    DigitValueIs('1');
    DigitValueIs('2');
    DigitValueIs('3');
    DigitValueIs('4');
    DigitValueIs('5');
    var q, m, g := e.right, e.right.left, e.right.right;
    assert Eval(g) == Ok(-4.0);
    assert Eval(m) == Ok(8.0);
    assert Eval(q) == Ok(-2.0);
  }

  /** The mixed text from position 0: its next tokens, then what the rest scans to. */
  lemma MixedAt0(s: string, rest: seq<Token>)
    requires |s| == 19 && s[0] == '3' && s[1] == ' ' && s[2] == '+' && s[3] == ' '
    requires Lex(s, 4) == Ok(rest)
    ensures Lex(s, 0) == Ok(["3", "+"] + rest)
  {
    LexSpaceAt(s, 3);
    LexCharAt(s, 2, rest);
    var r := ["+"] + rest;
    LexSpaceAt(s, 1);
    LexDigitAt(s, 0, r);
    r := ["3"] + r;
    assert r == ["3", "+"] + rest;
  }

  /** The mixed text from position 4: its next tokens, then what the rest scans to. */
  lemma MixedAt4(s: string, rest: seq<Token>)
    requires |s| == 19 && s[4] == '4' && s[5] == ' ' && s[6] == '*' && s[7] == ' '
    requires Lex(s, 8) == Ok(rest)
    ensures Lex(s, 4) == Ok(["4", "*"] + rest)
  {
    LexSpaceAt(s, 7);
    LexCharAt(s, 6, rest);
    var r := ["*"] + rest;
    LexSpaceAt(s, 5);
    LexDigitAt(s, 4, r);
    r := ["4"] + r;
    assert r == ["4", "*"] + rest;
  }

  /** The mixed text from position 8: its next tokens, then what the rest scans to. */
  lemma MixedAt8(s: string, rest: seq<Token>)
    requires |s| == 19 && s[8] == '2' && s[9] == ' ' && s[10] == '/' && s[11] == ' '
    requires Lex(s, 12) == Ok(rest)
    ensures Lex(s, 8) == Ok(["2", "/"] + rest)
  {
    LexSpaceAt(s, 11);
    LexCharAt(s, 10, rest);
    var r := ["/"] + rest;
    LexSpaceAt(s, 9);
    LexDigitAt(s, 8, r);
    r := ["2"] + r;
    assert r == ["2", "/"] + rest;
  }

  /** The mixed text from position 12: its next tokens, then what the rest scans to. */
  lemma MixedAt12(s: string, rest: seq<Token>)
    requires |s| == 19 && s[12] == '(' && s[13] == '1' && s[14] == ' '
    requires Lex(s, 15) == Ok(rest)
    ensures Lex(s, 12) == Ok(["(", "1"] + rest)
  {
    LexSpaceAt(s, 14);
    LexDigitAt(s, 13, rest);
    var r := ["1"] + rest;
    LexCharAt(s, 12, r);
    r := ["("] + r;
    assert r == ["(", "1"] + rest;
  }

  /** The last tokens of the mixed text, from position 15. */
  lemma MixedAt15(s: string)
    requires |s| == 19 && s[15] == '-' && s[16] == ' ' && s[17] == '5' && s[18] == ')'
    ensures Lex(s, 15) == Ok(["-", "5", ")"])
  {
    var r: seq<Token> := [];
    LexBlank(s, 19);
    LexCharAt(s, 18, r);
    r := [")"] + r;
    LexDigitAt(s, 17, r);
    r := ["5"] + r;
    LexSpaceAt(s, 16);
    LexCharAt(s, 15, r);
    r := ["-"] + r;
    assert r == ["-", "5", ")"];
  }

  /** The characters of "3 + 4 * 2 / (1 - 5)". */
  lemma MixedChars(s: string)
    requires s == "3 + 4 * 2 / (1 - 5)"
    ensures |s| == 19 && s[0] == '3' && s[1] == ' ' && s[2] == '+' && s[3] == ' ' && s[4] == '4' && s[5] == ' ' && s[6] == '*' && s[7] == ' ' && s[8] == '2' && s[9] == ' ' && s[10] == '/' && s[11] == ' ' && s[12] == '(' && s[13] == '1' && s[14] == ' ' && s[15] == '-' && s[16] == ' ' && s[17] == '5' && s[18] == ')'
  {
    assert s == "3 + 4 " + "* 2 / " + "(1 - 5)";
  }

  /** Scanning the mixed text, from the back. */
  lemma MixedScan(s: string)
    requires |s| == 19 && s[0] == '3' && s[1] == ' ' && s[2] == '+' && s[3] == ' ' && s[4] == '4' && s[5] == ' ' && s[6] == '*' && s[7] == ' ' && s[8] == '2' && s[9] == ' ' && s[10] == '/' && s[11] == ' ' && s[12] == '(' && s[13] == '1' && s[14] == ' ' && s[15] == '-' && s[16] == ' ' && s[17] == '5' && s[18] == ')'
    ensures Lex(s, 0) == Ok(["3", "+", "4", "*", "2", "/", "(", "1", "-", "5", ")"])
  {
    var r4: seq<Token> := ["-", "5", ")"];
    var r3 := ["(", "1"] + r4;
    var r2 := ["2", "/"] + r3;
    var r1 := ["4", "*"] + r2;
    var r0 := ["3", "+"] + r1;
    assert r0 == ["3", "+", "4", "*", "2", "/", "(", "1", "-", "5", ")"];
    MixedAt15(s);
    MixedAt12(s, r4);
    MixedAt8(s, r3);
    MixedAt4(s, r2);
    MixedAt0(s, r1);
  }

  lemma CalculateDivisionByZero()
    ensures Value("2 / 0") == Err(DivisionByZero)
  {
    var s := "2 / 0";
    var e := Bin('/', Num("2"), Num("0"));
    DigitValueIs('0');
    DigitValueIs('2');
    DigitToken('0');
    DigitToken('2');
    var r: seq<Token> := [];
    LexNumberAt(s, 4, "0", r);
    r := ["0"] + r;
    LexSkip(s, 3, 1);
    LexSymbolAt(s, 2, "/", r);
    r := ["/"] + r;
    LexSkip(s, 1, 1);
    LexNumberAt(s, 0, "2", r);
    r := ["2"] + r;
    assert r == Print(e);
    ScannedValue(s, e);
  }

  lemma CalculateIncomplete()
    ensures Value("1 +") == Err(InsufficientOperands)
  {
    var s := "1 +";
    IncompleteScan(s);
    IncompleteRpn(["1", "+"]);
    EvaluateShort();
  }

  lemma IncompleteScan(s: string)
    requires |s| == 3 && s[0] == '1' && s[1] == ' ' && s[2] == '+'
    ensures Lex(s, 0) == Ok(["1", "+"])
  {
    var r: seq<Token> := [];
    LexBlank(s, 3);
    LexCharAt(s, 2, r);
    r := ["+"] + r;
    LexSpaceAt(s, 1);
    LexDigitAt(s, 0, r);
    r := ["1"] + r;
    assert r == ["1", "+"];
  }

  /** "1 +" is already in postfix order: the conversion leaves it as it is. */
  lemma IncompleteRpn(ts: seq<Token>)
    requires ts == ["1", "+"]
    ensures Shunt(ts) == Ok(ts)
  {
    var st := State([], []);
    var mid := State([], ["1"]);
    var fin := State(["+"], ["1"]);
    DigitToken('1');
    RunNumber("1", st);
    assert st.out + ["1"] == ["1"];
    var none: seq<Token> := [];
    assert none + none == none && none + ["+"] == ["+"];
    assert ["1"] + Reversed(none) == ["1"];
    RunOperator("+", none, none, ["1"]);
    RunThen(["1"], ["+"], st, mid);
    assert ["1"] + ["+"] == ts;
    ShuntEnds(ts, ["+"], ["1"]);
    assert ["1"] + Reversed(["+"]) == ts;
  }

  lemma CalculateUnclosed()
    ensures Value("(") == Err(UnbalancedParens(Unclosed))
  {
    ShuntFails(["("]);
  }

  lemma CalculateBlank()
    ensures Value("") == Err(MalformedExpression)
    ensures Value("   ") == Err(MalformedExpression)
  {
    BlankHasNoValue("");
    BlankHasNoValue("   ");
  }

  lemma CalculateFractions()
    ensures Value(".5+1") == Ok(1.5)
  {
    var s := ".5+1";
    var e := Bin('+', Num(".5"), Num("1"));
    DecimalToken(".5", 0);
    HalfValue();
    DigitValueIs('1');
    DigitToken('1');
    var r: seq<Token> := [];
    LexNumberAt(s, 3, "1", r);
    r := ["1"] + r;
    LexSymbolAt(s, 2, "+", r);
    r := ["+"] + r;
    LexNumberAt(s, 0, ".5", r);
    r := [".5"] + r;
    assert r == Print(e);
    ScannedValue(s, e);
  }

  lemma HalfValue()
    ensures IsNumber(".5") && NumberValue(".5") == 0.5
  {
    DecimalToken(".5", 0);
    assert DotIndex(".5") == 0;
    assert ".5"[..0] == [] && ".5"[1..] == "5";
    DigitToken('5');
  }

  lemma CalculateTrailingDot()
    ensures Value("5.+2") == Ok(7.0)
  {
    var s := "5.+2";
    var e := Bin('+', Num("5."), Num("2"));
    FiveDotValue();
    DigitValueIs('2');
    DigitToken('2');
    var r: seq<Token> := [];
    LexNumberAt(s, 3, "2", r);
    r := ["2"] + r;
    LexSymbolAt(s, 2, "+", r);
    r := ["+"] + r;
    LexNumberAt(s, 0, "5.", r);
    r := ["5."] + r;
    assert r == Print(e);
    ScannedValue(s, e);
  }

  lemma FiveDotValue()
    ensures IsNumber("5.") && NumberValue("5.") == 5.0
  {
    DecimalToken("5.", 1);
    assert DotIndex("5.") == 1;
    assert "5."[..1] == "5" && "5."[2..] == [];
    DigitToken('5');
  }

  /** Nested parentheses: "((2+3)*((4-1)+2))/5" is 25 / 5. */
  lemma CalculateNested()
    ensures Value("((2+3)*((4-1)+2))/5") == Ok(5.0)
  {
    var s := "((2+3)*((4-1)+2))/5";
    var e := Bin('/', Group(Bin('*', Group(Bin('+', Num("2"), Num("3"))), Group(Bin('+', Group(Bin('-', Num("4"), Num("1"))), Num("2"))))), Num("5"));
    NestedChars(s);
    NestedScan(s);
    NestedPrint(e);
    NestedValue(e);
    ScannedValue(s, e);
  }

  lemma NestedShape(e: Expr)
    requires e == Bin('/', Group(Bin('*', Group(Bin('+', Num("2"), Num("3"))), Group(Bin('+', Group(Bin('-', Num("4"), Num("1"))), Num("2"))))), Num("5"))
    ensures WF(e.left.inner.left) && WF(e.left.inner.right.inner.left) && WF(e.left.inner.right)
    ensures WF(e.left.inner) && WF(e)
  {
    var m := e.left.inner;
    NestedRightShape(m.right.inner);
    DigitToken('2');
    DigitToken('3');
    DigitToken('5');
    assert WF(m.left.inner);
  }

  lemma NestedRightShape(b: Expr)
    requires b == Bin('+', Group(Bin('-', Num("4"), Num("1"))), Num("2"))
    ensures WF(b.left.inner) && WF(b)
  {
    DigitToken('1');
    DigitToken('2');
    DigitToken('4');
    assert WF(b.left.inner);
  }

  lemma NestedPrint(e: Expr)
    requires e == Bin('/', Group(Bin('*', Group(Bin('+', Num("2"), Num("3"))), Group(Bin('+', Group(Bin('-', Num("4"), Num("1"))), Num("2"))))), Num("5"))
    ensures Print(e) == ["(", "(", "2", "+", "3", ")", "*", "(", "(", "4", "-", "1", ")", "+", "2", ")", ")", "/", "5"]
  {
    var m := e.left.inner;
    var b := m.right.inner;
    var pa: seq<Token> := ["(", "2", "+", "3", ")"];
    var pc: seq<Token> := ["(", "4", "-", "1", ")"];
    var pb := pc + ["+", "2"];
    var pm := pa + ["*"] + (["("] + pb + [")"]);
    var pe := ["("] + pm + [")"] + ["/"] + ["5"];
    assert pe == ["(", "(", "2", "+", "3", ")", "*", "(", "(", "4", "-", "1", ")", "+", "2", ")", ")", "/", "5"];
    assert Print(m.left) == pa;
    assert Print(b.left) == pc;
    assert Print(b) == pb;
    assert Print(m) == pm;
  }

  lemma NestedValue(e: Expr)
    requires e == Bin('/', Group(Bin('*', Group(Bin('+', Num("2"), Num("3"))), Group(Bin('+', Group(Bin('-', Num("4"), Num("1"))), Num("2"))))), Num("5"))
    ensures WF(e) && Eval(e) == Ok(5.0)
  {
    NestedShape(e);
    var m := e.left.inner;
    var a, b := m.left.inner, m.right.inner;
    var c := b.left.inner;
    DigitValueIs('1');
    DigitValueIs('2');
    DigitValueIs('3');
    DigitValueIs('4');
    DigitValueIs('5');
    assert Eval(a) == Ok(5.0);
    assert Eval(c) == Ok(3.0);
    assert Eval(b) == Ok(5.0);
    assert Eval(m) == Ok(25.0);
  }

  /** The nested text from position 0: its next tokens, then what the rest scans to. */
  lemma NestedAt0(s: string, rest: seq<Token>)
    requires |s| == 19 && s[0] == '(' && s[1] == '(' && s[2] == '2' && s[3] == '+' && s[4] == '3' && s[5] == ')'
    requires Lex(s, 5) == Ok(rest)
    ensures Lex(s, 0) == Ok(["(", "(", "2", "+", "3"] + rest)
  {
    LexDigitAt(s, 4, rest);
    var r := ["3"] + rest;
    LexCharAt(s, 3, r);
    r := ["+"] + r;
    LexDigitAt(s, 2, r);
    r := ["2"] + r;
    LexCharAt(s, 1, r);
    r := ["("] + r;
    LexCharAt(s, 0, r);
    r := ["("] + r;
    assert r == ["(", "(", "2", "+", "3"] + rest;
  }

  /** The nested text from position 5: its next tokens, then what the rest scans to. */
  lemma NestedAt5(s: string, rest: seq<Token>)
    requires |s| == 19 && s[5] == ')' && s[6] == '*' && s[7] == '(' && s[8] == '(' && s[9] == '4' && s[10] == '-'
    requires Lex(s, 10) == Ok(rest)
    ensures Lex(s, 5) == Ok([")", "*", "(", "(", "4"] + rest)
  {
    LexDigitAt(s, 9, rest);
    var r := ["4"] + rest;
    LexCharAt(s, 8, r);
    r := ["("] + r;
    LexCharAt(s, 7, r);
    r := ["("] + r;
    LexCharAt(s, 6, r);
    r := ["*"] + r;
    LexCharAt(s, 5, r);
    r := [")"] + r;
    assert r == [")", "*", "(", "(", "4"] + rest;
  }

  /** The nested text from position 10: its next tokens, then what the rest scans to. */
  lemma NestedAt10(s: string, rest: seq<Token>)
    requires |s| == 19 && s[10] == '-' && s[11] == '1' && s[12] == ')' && s[13] == '+' && s[14] == '2' && s[15] == ')'
    requires Lex(s, 15) == Ok(rest)
    ensures Lex(s, 10) == Ok(["-", "1", ")", "+", "2"] + rest)
  {
    LexDigitAt(s, 14, rest);
    var r := ["2"] + rest;
    LexCharAt(s, 13, r);
    r := ["+"] + r;
    LexCharAt(s, 12, r);
    r := [")"] + r;
    LexDigitAt(s, 11, r);
    r := ["1"] + r;
    LexCharAt(s, 10, r);
    r := ["-"] + r;
    assert r == ["-", "1", ")", "+", "2"] + rest;
  }

  /** The last tokens of the nested text, from position 15. */
  lemma NestedAt15(s: string)
    requires |s| == 19 && s[15] == ')' && s[16] == ')' && s[17] == '/' && s[18] == '5'
    ensures Lex(s, 15) == Ok([")", ")", "/", "5"])
  {
    var r: seq<Token> := [];
    LexBlank(s, 19);
    LexDigitAt(s, 18, r);
    r := ["5"] + r;
    LexCharAt(s, 17, r);
    r := ["/"] + r;
    LexCharAt(s, 16, r);
    r := [")"] + r;
    LexCharAt(s, 15, r);
    r := [")"] + r;
    assert r == [")", ")", "/", "5"];
  }

  /** The characters of "((2+3)*((4-1)+2))/5". */
  lemma NestedChars(s: string)
    requires s == "((2+3)*((4-1)+2))/5"
    ensures |s| == 19 && s[0] == '(' && s[1] == '(' && s[2] == '2' && s[3] == '+' && s[4] == '3' && s[5] == ')' && s[6] == '*' && s[7] == '(' && s[8] == '(' && s[9] == '4' && s[10] == '-' && s[11] == '1' && s[12] == ')' && s[13] == '+' && s[14] == '2' && s[15] == ')' && s[16] == ')' && s[17] == '/' && s[18] == '5'
  {
    assert s == "((2+3" + ")*((4" + "-1)+2" + "))/5";
  }

  /** Scanning the nested text, from the back. */
  lemma NestedScan(s: string)
    requires |s| == 19 && s[0] == '(' && s[1] == '(' && s[2] == '2' && s[3] == '+' && s[4] == '3' && s[5] == ')' && s[6] == '*' && s[7] == '(' && s[8] == '(' && s[9] == '4' && s[10] == '-' && s[11] == '1' && s[12] == ')' && s[13] == '+' && s[14] == '2' && s[15] == ')' && s[16] == ')' && s[17] == '/' && s[18] == '5'
    ensures Lex(s, 0) == Ok(["(", "(", "2", "+", "3", ")", "*", "(", "(", "4", "-", "1", ")", "+", "2", ")", ")", "/", "5"])
  {
    var r3: seq<Token> := [")", ")", "/", "5"];
    var r2 := ["-", "1", ")", "+", "2"] + r3;
    var r1 := [")", "*", "(", "(", "4"] + r2;
    var r0 := ["(", "(", "2", "+", "3"] + r1;
    assert r0 == ["(", "(", "2", "+", "3", ")", "*", "(", "(", "4", "-", "1", ")", "+", "2", ")", ")", "/", "5"];
    NestedAt15(s);
    NestedAt10(s, r3);
    NestedAt5(s, r2);
    NestedAt0(s, r1);
  }
}
