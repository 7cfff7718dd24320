/** `calculate` of src/calculator.py: tokenize, convert to postfix, evaluate. */
module Calculator {
  import opened Tokens
  import opened Lexer
  import opened Shunting
  import opened Rpn
  import opened Infix

  /** The value of an expression text, or the first stage's error. */
  function Value(expr: string): Result<real> {
    match Lex(expr, 0)
    case Err(e) => Err(e)
    case Ok(tokens) =>
      match Shunt(tokens)
      case Err(e) => Err(e)
      case Ok(rpn) => RpnValue(rpn)
  }

  method Calculate(expr: string) returns (r: Result<real>)
    ensures r == Value(expr)
  {
    var tokens := Tokenize(expr);
    if tokens.Err? {
      return Err(tokens.error);
    }
    var rpn := InfixToRpn(tokens.value);
    if rpn.Err? {
      return Err(rpn.error);
    }
    r := EvaluateRpn(rpn.value);
  }

  /** A blank text has no value: it scans to no tokens, converts to no
      tokens, and leaves no value on the evaluation stack. */
  lemma BlankHasNoValue(s: string)
    requires forall k :: 0 <= k < |s| ==> IsSpace(s[k])
    ensures Value(s) == Err(MalformedExpression)
  {
    LexBlank(s, 0);
  }

  /** A text that scans to the printed form of an expression has that
      expression's value. */
  lemma ScannedValue(s: string, e: Expr)
    requires WF(e) && Lex(s, 0) == Ok(Print(e))
    ensures Value(s) == Eval(e)
  {
    RoundTrip(e);
  }

  /** A text that writes out an expression, with any whitespace around its
      tokens, has the expression's value: precedence, left associativity
      and parentheses are respected and evaluation errors are the
      expression's own. */
  lemma TextValue(e: Expr, gaps: seq<string>)
    requires WF(e) && |gaps| == |Print(e)| + 1
    requires forall k :: 0 <= k < |gaps| ==> Blank(gaps[k])
    ensures Value(Layout(Print(e), gaps)) == Eval(e)
  {
    var s := Layout(Print(e), gaps);
    PrintReadable(e, gaps);
    LexLayout(s, 0, Print(e), gaps);
    ScannedValue(s, e);
  }
}
