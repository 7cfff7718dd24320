/** The evaluator of postfix (reverse Polish) token lists, evaluate_rpn of
    src/calculator.py: numbers are pushed, an operator pops its right and
    then its left operand and pushes the result, and the list must leave
    exactly one value. */
module Rpn {
  import opened Tokens

  /** One arithmetic operator on exact reals; only a division by zero fails. */
  function Apply(op: char, a: real, b: real): (r: Result<real>)
    requires IsOpChar(op)
    ensures r.Err? <==> op == '/' && b == 0.0
    ensures r.Err? ==> r.error == DivisionByZero
  {
    if op == '+' then Ok(a + b)
    else if op == '-' then Ok(a - b)
    else if op == '*' then Ok(a * b)
    else if b == 0.0 then Err(DivisionByZero)
    else Ok(a / b)
  }

  /** A token the evaluator accepts. */
  predicate IsRpnToken(t: Token) { IsNumber(t) || IsOperator(t) }

  /** One token of the evaluation, on a stack whose top is its last element. */
  function ExecStep(t: Token, stack: seq<real>): (r: Result<seq<real>>)
    ensures r.Err? <==>
      || !IsRpnToken(t)
      || (IsOperator(t) && (|stack| < 2 || (t == "/" && stack[|stack| - 1] == 0.0)))
    ensures r.Err? && !IsRpnToken(t) ==> r.error == UnexpectedToken(t)
    ensures r.Err? && IsOperator(t) && |stack| < 2 ==> r.error == InsufficientOperands
    ensures r.Err? && IsOperator(t) && |stack| >= 2 ==> r.error == DivisionByZero
    ensures r.Ok? && IsNumber(t) ==> r.value == stack + [NumberValue(t)]
    ensures r.Ok? && IsOperator(t) ==>
      && |r.value| == |stack| - 1
      && r.value[..|stack| - 2] == stack[..|stack| - 2]
      && Apply(t[0], stack[|stack| - 2], stack[|stack| - 1]) == Ok(r.value[|stack| - 2])
  {
    if IsNumber(t) then Ok(stack + [NumberValue(t)])
    else if IsOperator(t) then
      if |stack| < 2 then Err(InsufficientOperands)
      else
        var b := stack[|stack| - 1];
        var a := stack[|stack| - 2];
        match Apply(t[0], a, b)
        case Err(e) => Err(e)
        case Ok(v) => Ok(stack[..|stack| - 2] + [v])
    else Err(UnexpectedToken(t))
  }

  /** The stack after evaluating `ts` on `stack`, or the first error. */
  function Exec(ts: seq<Token>, stack: seq<real>): Result<seq<real>>
    decreases |ts|
  {
    if ts == [] then Ok(stack)
    else match ExecStep(ts[0], stack)
      case Err(e) => Err(e)
      case Ok(s) => Exec(ts[1..], s)
  }

  /** The value of a postfix token list: the one value it leaves. */
  function RpnValue(ts: seq<Token>): (r: Result<real>) {
    match Exec(ts, [])
    case Err(e) => Err(e)
    case Ok(s) => if |s| != 1 then Err(MalformedExpression) else Ok(s[0])
  }

  method EvaluateRpn(rpnTokens: seq<Token>) returns (r: Result<real>)
    ensures r == RpnValue(rpnTokens)
  {
    var stack: seq<real> := [];
    for i := 0 to |rpnTokens|
      invariant Exec(rpnTokens, []) == Exec(rpnTokens[i..], stack)
    {
      var token := rpnTokens[i];
      ghost var before := stack;
      assert rpnTokens[i..][1..] == rpnTokens[i + 1..];
      if IsNumber(token) {
        stack := stack + [NumberValue(token)];
      } else if IsOperator(token) {
        if |stack| < 2 {
          return Err(InsufficientOperands);
        }
        var b := stack[|stack| - 1];
        stack := stack[..|stack| - 1];
        var a := stack[|stack| - 1];
        stack := stack[..|stack| - 1];
        var res := Apply(token[0], a, b);
        if res.Err? {
          return Err(res.error);
        }
        stack := stack + [res.value];
        assert before[..|before| - 1][..|before| - 2] == before[..|before| - 2];
        assert ExecStep(token, before) == Ok(stack);
      } else {
        return Err(UnexpectedToken(token));
      }
    }
    if |stack| != 1 {
      return Err(MalformedExpression);
    }
    return Ok(stack[0]);
  }

  // ---- properties of the evaluation ----

  /** Evaluating a concatenation evaluates the first part, then the second
      on what the first left. */
  lemma {:induction false} ExecAppend(a: seq<Token>, b: seq<Token>, stack: seq<real>)
    ensures Exec(a + b, stack) ==
      match Exec(a, stack)
      case Err(e) => Err(e)
      case Ok(s) => Exec(b, s)
    decreases |a|
  {
    if a == [] {
      assert a + b == b;
    } else {
      assert (a + b)[0] == a[0];
      assert (a + b)[1..] == a[1..] + b;
      if ExecStep(a[0], stack).Ok? {
        ExecAppend(a[1..], b, ExecStep(a[0], stack).value);
      }
    }
  }

  /** The evaluation of a prefix followed by one more token. */
  lemma ExecSnoc(ts: seq<Token>, t: Token, stack: seq<real>)
    ensures Exec(ts + [t], stack) ==
      match Exec(ts, stack)
      case Err(e) => Err(e)
      case Ok(s) => ExecStep(t, s)
  {
    ExecAppend(ts, [t], stack);
    var r := Exec(ts, stack);
    if r.Ok? {
      assert [t][1..] == [];
      match ExecStep(t, r.value)
      case Err(e) =>
      case Ok(s) =>
    }
  }

  /** An evaluation fails exactly at a position where everything before
      succeeded and that one token's step fails, with that step's error. */
  lemma {:induction false} ExecFails(ts: seq<Token>, stack: seq<real>)
    ensures Exec(ts, stack).Err? ==>
      exists k :: 0 <= k < |ts| && Exec(ts[..k], stack).Ok?
        && ExecStep(ts[k], Exec(ts[..k], stack).value) == Err(Exec(ts, stack).error)
    decreases |ts|
  {
    if ts != [] && Exec(ts, stack).Err? {
      var n := |ts| - 1;
      assert ts == ts[..n] + [ts[n]];
      ExecSnoc(ts[..n], ts[n], stack);
      if Exec(ts[..n], stack).Err? {
        ExecFails(ts[..n], stack);
        var k :| 0 <= k < n && Exec(ts[..n][..k], stack).Ok?
          && ExecStep(ts[..n][k], Exec(ts[..n][..k], stack).value) == Err(Exec(ts[..n], stack).error);
        assert ts[..n][..k] == ts[..k];
      }
    }
  }

  /** Conversely a failing step after a successful prefix is the error of
      the whole evaluation. */
  lemma ExecFailsAt(ts: seq<Token>, stack: seq<real>, k: nat)
    requires k < |ts| && Exec(ts[..k], stack).Ok?
    requires ExecStep(ts[k], Exec(ts[..k], stack).value).Err?
    ensures Exec(ts, stack) == Err(ExecStep(ts[k], Exec(ts[..k], stack).value).error)
  {
    assert ts == ts[..k] + [ts[k]] + ts[k + 1..];
    ExecAppend(ts[..k] + [ts[k]], ts[k + 1..], stack);
    ExecSnoc(ts[..k], ts[k], stack);
  }

  /** Each number raises the stack by one value and each operator lowers it
      by one. */
  lemma {:induction false} ExecHeight(ts: seq<Token>, stack: seq<real>)
    ensures Exec(ts, stack).Ok? ==>
      |Exec(ts, stack).value| == |stack| + |Numbers(ts)| - |Filter(IsOperator, ts)|
    decreases |ts|
  {
    if ts != [] && Exec(ts, stack).Ok? {
      var n := |ts| - 1;
      assert ts == ts[..n] + [ts[n]];
      ExecSnoc(ts[..n], ts[n], stack);
      ExecHeight(ts[..n], stack);
      FilterAppend(IsNumber, ts[..n], [ts[n]]);
      FilterAppend(IsOperator, ts[..n], [ts[n]]);
      FilterOne(IsNumber, ts[n]);
      FilterOne(IsOperator, ts[n]);
      assert !(IsNumber(ts[n]) && IsOperator(ts[n])) by {
        if IsOperator(ts[n]) {
          assert !IsNumChar(ts[n][0]);
        }
      }
    }
  }

  /** No step reports a malformed expression: that verdict belongs to the
      final check alone. */
  lemma {:induction false} ExecNeverMalformed(ts: seq<Token>, stack: seq<real>)
    ensures Exec(ts, stack) != Err(MalformedExpression)
    decreases |ts|
  {
    if ts != [] && ExecStep(ts[0], stack).Ok? {
      ExecNeverMalformed(ts[1..], ExecStep(ts[0], stack).value);
    }
  }

  /** A list is malformed exactly when every token evaluates but other than
      one value is left; a value is the single one left. */
  lemma RpnOutcome(ts: seq<Token>)
    ensures RpnValue(ts) == Err(MalformedExpression) <==>
      Exec(ts, []).Ok? && |Exec(ts, []).value| != 1
    ensures RpnValue(ts).Ok? <==> Exec(ts, []).Ok? && |Exec(ts, []).value| == 1
    ensures RpnValue(ts).Ok? ==> Exec(ts, []) == Ok([RpnValue(ts).value])
  {
    ExecNeverMalformed(ts, []);
    if RpnValue(ts).Ok? {
      var s := Exec(ts, []).value;
      assert s == [s[0]];
    }
  }

  /** A list with a value holds exactly one more number than operators. */
  lemma RpnCounts(ts: seq<Token>)
    ensures RpnValue(ts).Ok? ==> |Numbers(ts)| == |Filter(IsOperator, ts)| + 1
  {
    ExecHeight(ts, []);
  }

  /** The list fails for too few operands exactly when some operator meets
      a stack of fewer than two values after its prefix evaluated. */
  lemma RpnShortOfOperands(ts: seq<Token>)
    ensures RpnValue(ts) == Err(InsufficientOperands) <==>
      exists k :: 0 <= k < |ts| && IsOperator(ts[k]) && Exec(ts[..k], []).Ok?
        && |Exec(ts[..k], []).value| < 2
  {
    ExecFails(ts, []);
    if exists k :: 0 <= k < |ts| && IsOperator(ts[k]) && Exec(ts[..k], []).Ok?
        && |Exec(ts[..k], []).value| < 2 {
      var k :| 0 <= k < |ts| && IsOperator(ts[k]) && Exec(ts[..k], []).Ok?
        && |Exec(ts[..k], []).value| < 2;
      ExecFailsAt(ts, [], k);
    }
  }

  /** The list fails for a division by zero exactly when some '/' meets a
      zero on top of a stack of at least two values. */
  lemma RpnDividesByZero(ts: seq<Token>)
    ensures RpnValue(ts) == Err(DivisionByZero) <==>
      exists k :: 0 <= k < |ts| && ts[k] == "/" && Exec(ts[..k], []).Ok?
        && |Exec(ts[..k], []).value| >= 2
        && Exec(ts[..k], []).value[|Exec(ts[..k], []).value| - 1] == 0.0
  {
    ExecFails(ts, []);
    if exists k :: 0 <= k < |ts| && ts[k] == "/" && Exec(ts[..k], []).Ok?
        && |Exec(ts[..k], []).value| >= 2
        && Exec(ts[..k], []).value[|Exec(ts[..k], []).value| - 1] == 0.0 {
      var k :| 0 <= k < |ts| && ts[k] == "/" && Exec(ts[..k], []).Ok?
        && |Exec(ts[..k], []).value| >= 2
        && Exec(ts[..k], []).value[|Exec(ts[..k], []).value| - 1] == 0.0;
      ExecFailsAt(ts, [], k);
    }
  }

  /** The list is refused as soon as a token is neither a number nor an
      operator, once its prefix evaluated. */
  lemma RpnUnexpected(ts: seq<Token>)
    ensures RpnValue(ts).Err? && RpnValue(ts).error.UnexpectedToken? <==>
      exists k :: 0 <= k < |ts| && !IsRpnToken(ts[k]) && Exec(ts[..k], []).Ok?
  {
    ExecFails(ts, []);
    if exists k :: 0 <= k < |ts| && !IsRpnToken(ts[k]) && Exec(ts[..k], []).Ok? {
      var k :| 0 <= k < |ts| && !IsRpnToken(ts[k]) && Exec(ts[..k], []).Ok?;
      ExecFailsAt(ts, [], k);
    }
  }
}
