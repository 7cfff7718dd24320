/** The infix-to-postfix converter of src/calculator.py (`infix_to_rpn`,
    lines 40-71): the shunting-yard algorithm with an operator stack and an
    output queue. `Shunt` specifies it one token at a time; `InfixToRpn` is
    the imperative version with the source's inner pop loops. */
module Shunting {
  import opened Tokens

  /** The converter's working state: the operator stack (top at the end)
      and the output queue. */
  datatype State = State(stack: seq<Token>, out: seq<Token>)

  function Top(s: seq<Token>): Token
    requires |s| > 0
  {
    s[|s| - 1]
  }

  /** `s` read from its last element to its first: the order in which
      entries leave a stack. */
  function Reversed(s: seq<Token>): (r: seq<Token>)
    ensures |r| == |s|
    ensures forall k :: 0 <= k < |s| ==> r[k] == s[|s| - 1 - k]
  {
    if s == [] then [] else [s[|s| - 1]] + Reversed(s[..|s| - 1])
  }

  lemma ReversedSnoc(s: seq<Token>, x: Token)
    ensures Reversed(s + [x]) == [x] + Reversed(s)
  {
    assert (s + [x])[..|s|] == s;
  }

  lemma {:induction false} ReversedCons(x: Token, s: seq<Token>)
    ensures Reversed([x] + s) == Reversed(s) + [x]
    decreases |s|
  {
    if s == [] {
      assert [x] + s == [x] && Reversed([x]) == [x] + Reversed([]);
    } else {
      var n := |s| - 1;
      assert ([x] + s)[..|s|] == [x] + s[..n];
      ReversedCons(x, s[..n]);
    }
  }

  /** Popping the top of `stack` to `out` and then popping `rest` down to
      length m is popping `stack` down to length m. */
  lemma PopOne(stack: seq<Token>, m: nat, out: seq<Token>)
    requires m < |stack|
    ensures stack[..|stack| - 1][..m] == stack[..m]
    ensures out + [Top(stack)] + Reversed(stack[..|stack| - 1][m..]) == out + Reversed(stack[m..])
  {
    var rest := stack[..|stack| - 1];
    assert stack[m..] == rest[m..] + [Top(stack)];
    ReversedSnoc(rest[m..], Top(stack));
    AppendAssoc(out, [Top(stack)], Reversed(rest[m..]));
  }

  /** Before an operator is pushed: pops to the output every operator on top
      of the stack that binds at least as tightly as `op`. */
  function PopTighter(op: Token, stack: seq<Token>, out: seq<Token>): (r: State)
    requires IsOperator(op)
    ensures |r.stack| <= |stack| && r.stack == stack[..|r.stack|]
    ensures r.out == out + Reversed(stack[|r.stack|..])
    decreases |stack|
  {
    if |stack| > 0 && IsOperator(Top(stack))
       && (Prec(Top(stack)) > Prec(op) || Prec(Top(stack)) == Prec(op))
    then
      var r := PopTighter(op, stack[..|stack| - 1], out + [Top(stack)]);
      PopOne(stack, |r.stack|, out);
      r
    else State(stack, out)
  }

  /** What PopTighter pops binds at least as tightly as `op`, and what it
      leaves on top does not: an operator of lower precedence, a '(' or
      nothing. */
  lemma {:induction false} PopTighterStops(op: Token, stack: seq<Token>, out: seq<Token>)
    requires IsOperator(op)
    ensures var r := PopTighter(op, stack, out);
      && (forall k :: |r.stack| <= k < |stack| ==> IsOperator(stack[k]) && Prec(stack[k]) >= Prec(op))
      && (|r.stack| == 0 || !IsOperator(Top(r.stack)) || Prec(Top(r.stack)) < Prec(op))
    decreases |stack|
  {
    if |stack| > 0 && IsOperator(Top(stack)) && Prec(Top(stack)) >= Prec(op) {
      var rest := stack[..|stack| - 1];
      PopTighterStops(op, rest, out + [Top(stack)]);
      assert PopTighter(op, stack, out) == PopTighter(op, rest, out + [Top(stack)]);
      assert forall k :: 0 <= k < |rest| ==> rest[k] == stack[k];
    }
  }

  /** On a ')': pops to the output everything above the nearest '(' and then
      discards that '('; fails when the stack holds no '('. */
  function PopToOpen(stack: seq<Token>, out: seq<Token>): (r: Result<State>)
    ensures r.Err? ==> r.error == UnbalancedParens(MissingOpen)
    ensures r.Ok? ==> var m := |r.value.stack|;
      && m < |stack| && r.value.stack == stack[..m] && stack[m] == "("
      && r.value.out == out + Reversed(stack[m + 1..])
    decreases |stack|
  {
    if |stack| > 0 && Top(stack) != "(" then
      var rest := stack[..|stack| - 1];
      var r := PopToOpen(rest, out + [Top(stack)]);
      if r.Ok? then
        var m := |r.value.stack|;
        PopOne(stack, m + 1, out);
        assert rest[..m] == stack[..m] && rest[m] == stack[m];
        r
      else r
    else if |stack| == 0 then Err(UnbalancedParens(MissingOpen))
    else
      assert stack[|stack|..] == [] && Reversed([]) == [];
      AppendNil(out);
      Ok(State(stack[..|stack| - 1], out))
  }

  /** PopToOpen fails exactly when the stack holds no '(', and otherwise it
      stops at the nearest one. */
  lemma {:induction false} PopToOpenFinds(stack: seq<Token>, out: seq<Token>)
    ensures PopToOpen(stack, out).Ok? <==> "(" in stack
    ensures PopToOpen(stack, out).Ok? ==>
      forall k :: |PopToOpen(stack, out).value.stack| < k < |stack| ==> stack[k] != "("
    decreases |stack|
  {
    if |stack| > 0 && Top(stack) != "(" {
      var rest := stack[..|stack| - 1];
      PopToOpenFinds(rest, out + [Top(stack)]);
      assert stack == rest + [Top(stack)];
    }
  }

  /** How one input token changes the state. */
  function Step(t: Token, st: State): Result<State> {
    if IsNumber(t) then Ok(State(st.stack, st.out + [t]))
    else if IsOperator(t) then
      var p := PopTighter(t, st.stack, st.out);
      Ok(State(p.stack + [t], p.out))
    else if t == "(" then Ok(State(st.stack + [t], st.out))
    else if t == ")" then PopToOpen(st.stack, st.out)
    else Err(UnexpectedToken(t))
  }

  /** The state after all of `ts`, or the first error. */
  function Run(ts: seq<Token>, st: State): Result<State>
    decreases |ts|
  {
    if ts == [] then Ok(st)
    else match Step(ts[0], st)
      case Err(e) => Err(e)
      case Ok(next) => Run(ts[1..], next)
  }

  lemma RunOne(t: Token, st: State)
    ensures Run([t], st) == Step(t, st)
  {
    assert [t][1..] == [];
    match Step(t, st)
    case Err(e) =>
    case Ok(next) =>
  }

  lemma StepClose(st: State)
    ensures Step(")", st) == PopToOpen(st.stack, st.out)
  {
    assert !IsNumber(")") by {
      assert !IsNumChar(")"[0]);
    }
  }

  lemma StepOperator(t: Token, st: State)
    requires IsOperator(t)
    ensures var p := PopTighter(t, st.stack, st.out);
      Step(t, st) == Ok(State(p.stack + [t], p.out))
  {
    assert !IsNumber(t) by {
      assert !IsNumChar(t[0]);
    }
  }

  /** Converting a concatenation converts the first part, then the second
      from the state the first left. */
  lemma {:induction false} RunAppend(a: seq<Token>, b: seq<Token>, st: State)
    ensures Run(a + b, st) ==
      match Run(a, st)
      case Err(e) => Err(e)
      case Ok(mid) => Run(b, mid)
    decreases |a|
  {
    if a == [] {
      assert a + b == b;
    } else {
      assert (a + b)[0] == a[0];
      assert (a + b)[1..] == a[1..] + b;
      if Step(a[0], st).Ok? {
        RunAppend(a[1..], b, Step(a[0], st).value);
      }
    }
  }

  lemma RunThen(a: seq<Token>, b: seq<Token>, st: State, mid: State)
    requires Run(a, st) == Ok(mid)
    ensures Run(a + b, st) == Run(b, mid)
  {
    RunAppend(a, b, st);
  }

  /** After the input: pops every remaining entry to the output; a
      parenthesis left on the stack is an error. */
  function Drain(stack: seq<Token>, out: seq<Token>): (r: Result<seq<Token>>)
    ensures r.Ok? <==> "(" !in stack && ")" !in stack
    ensures r.Ok? ==> r.value == out + Reversed(stack)
    ensures r.Err? ==> r.error == UnbalancedParens(Unclosed)
    decreases |stack|
  {
    if |stack| == 0 then Ok(out)
    else if Top(stack) == "(" || Top(stack) == ")" then Err(UnbalancedParens(Unclosed))
    else
      var rest := stack[..|stack| - 1];
      assert stack == rest + [Top(stack)];
      ReversedSnoc(rest, Top(stack));
      Drain(rest, out + [Top(stack)])
  }

  /** The postfix form of an infix token sequence, or why it has none. */
  function Shunt(ts: seq<Token>): Result<seq<Token>> {
    match Run(ts, State([], []))
    case Err(e) => Err(e)
    case Ok(st) => Drain(st.stack, st.out)
  }

  /** A conversion whose input leaves only operators on the stack ends by
      popping them all. */
  lemma ShuntEnds(ts: seq<Token>, stack: seq<Token>, out: seq<Token>)
    requires Run(ts, State([], [])) == Ok(State(stack, out))
    requires forall k :: 0 <= k < |stack| ==> IsOperator(stack[k])
    ensures Shunt(ts) == Ok(out + Reversed(stack))
  {
    assert forall k :: 0 <= k < |stack| ==> stack[k] != "(" && stack[k] != ")";
  }

  /** The converter, step by step as in the source. */
  method InfixToRpn(tokens: seq<Token>) returns (r: Result<seq<Token>>)
    ensures r == Shunt(tokens)
  {
    var outputQueue: seq<Token> := [];
    var opStack: seq<Token> := [];
    for i := 0 to |tokens|
      invariant Run(tokens, State([], [])) == Run(tokens[i..], State(opStack, outputQueue))
    {
      assert tokens[i..][1..] == tokens[i + 1..];
      var token := tokens[i];
      if IsNumber(token) {
        outputQueue := outputQueue + [token];
      } else if IsOperator(token) {
        ghost var before := PopTighter(token, opStack, outputQueue);
        while |opStack| > 0 && IsOperator(opStack[|opStack| - 1])
          invariant PopTighter(token, opStack, outputQueue) == before
          decreases |opStack|
        {
          var topOp := opStack[|opStack| - 1];
          if Prec(topOp) > Prec(token) || Prec(topOp) == Prec(token) {
            outputQueue := outputQueue + [topOp];
            opStack := opStack[..|opStack| - 1];
          } else {
            break;
          }
        }
        opStack := opStack + [token];
      } else if token == "(" {
        opStack := opStack + [token];
      } else if token == ")" {
        ghost var before := PopToOpen(opStack, outputQueue);
        while |opStack| > 0 && opStack[|opStack| - 1] != "("
          invariant PopToOpen(opStack, outputQueue) == before
          decreases |opStack|
        {
          outputQueue := outputQueue + [opStack[|opStack| - 1]];
          opStack := opStack[..|opStack| - 1];
        }
        if |opStack| == 0 || opStack[|opStack| - 1] != "(" {
          r := Err(UnbalancedParens(MissingOpen));
          return;
        }
        opStack := opStack[..|opStack| - 1];
      } else {
        r := Err(UnexpectedToken(token));
        return;
      }
    }
    ghost var final := Drain(opStack, outputQueue);
    while |opStack| > 0
      invariant Drain(opStack, outputQueue) == final
      decreases |opStack|
    {
      var top := opStack[|opStack| - 1];
      opStack := opStack[..|opStack| - 1];
      if top == "(" || top == ")" {
        r := Err(UnbalancedParens(Unclosed));
        return;
      }
      outputQueue := outputQueue + [top];
    }
    r := Ok(outputQueue);
  }

  // ---- what a conversion keeps: numbers in order, operators once each ----

  predicate NotParen(t: Token) { t != "(" && t != ")" }

  predicate IsOpen(t: Token) { t == "(" }

  /** A sequence of operators has no numbers, no '(' and nothing to drop as
      a parenthesis. */
  lemma OperatorsOnly(s: seq<Token>)
    requires forall k :: 0 <= k < |s| ==> IsOperator(s[k])
    ensures Filter(NotParen, s) == s
    ensures Filter(IsNumber, s) == []
    ensures Filter(IsOpen, s) == []
  {
    forall k | 0 <= k < |s| ensures NotParen(s[k]) && !IsNumber(s[k]) && !IsOpen(s[k]) {
      assert !IsNumChar(s[k][0]);
    }
    FilterAll(NotParen, s);
    FilterNone(IsNumber, s);
    FilterNone(IsOpen, s);
  }

  lemma ReversedMultiset(s: seq<Token>)
    ensures multiset(Reversed(s)) == multiset(s)
  {
    if s != [] {
      ReversedMultiset(s[..|s| - 1]);
      assert s == s[..|s| - 1] + [Top(s)];
    }
  }

  /** The operator stack only ever holds operators and '('. */
  predicate StackOk(stack: seq<Token>) {
    forall k :: 0 <= k < |stack| ==> IsOperator(stack[k]) || stack[k] == "("
  }


  /** Every non-parenthesis token held by a state, on the output or on the
      stack, with multiplicity. */
  function Held(st: State): multiset<Token> {
    multiset(st.out) + multiset(Filter(NotParen, st.stack))
  }

  /** The entries a ')' pops above the nearest '(' are all operators. */
  lemma ClosePopsOperators(st: State, popped: seq<Token>)
    requires StackOk(st.stack) && PopToOpen(st.stack, st.out).Ok?
    requires popped == st.stack[|PopToOpen(st.stack, st.out).value.stack| + 1..]
    ensures forall k :: 0 <= k < |popped| ==> IsOperator(popped[k])
  {
    PopToOpenFinds(st.stack, st.out);
    var m := |PopToOpen(st.stack, st.out).value.stack|;
    forall k | 0 <= k < |popped| ensures IsOperator(popped[k]) {
      assert popped[k] == st.stack[m + 1 + k];
    }
  }

  lemma StepStack(t: Token, st: State)
    requires StackOk(st.stack)
    ensures Step(t, st).Ok? ==> StackOk(Step(t, st).value.stack)
  {
    if IsOperator(t) {
      var p := PopTighter(t, st.stack, st.out);
      assert StackOk(p.stack + [t]);
    }
  }

  /** A step appends the token to the output if it is a number, and moves
      only operators otherwise: the numbers on the output stay in input
      order. */
  lemma StepOrder(t: Token, st: State)
    requires StackOk(st.stack)
    ensures Step(t, st).Ok? ==> Numbers(Step(t, st).value.out) == Numbers(st.out) + Numbers([t])
  {
    FilterOne(IsNumber, t);
    if IsNumber(t) {
      FilterAppend(IsNumber, st.out, [t]);
    } else if IsOperator(t) {
      OperatorOrder(t, st);
    } else if t == ")" && Step(t, st).Ok? {
      StepClose(st);
      CloseOrder(st);
    }
  }

  lemma OperatorOrder(t: Token, st: State)
    requires StackOk(st.stack) && IsOperator(t)
    ensures Numbers(PopTighter(t, st.stack, st.out).out) == Numbers(st.out)
  {
    var p := PopTighter(t, st.stack, st.out);
    var popped := Reversed(st.stack[|p.stack|..]);
    PopTighterStops(t, st.stack, st.out);
    OperatorsOnly(popped);
    FilterAppend(IsNumber, st.out, popped);
  }

  lemma CloseOrder(st: State)
    requires StackOk(st.stack) && PopToOpen(st.stack, st.out).Ok?
    ensures Numbers(PopToOpen(st.stack, st.out).value.out) == Numbers(st.out)
  {
    var m := |PopToOpen(st.stack, st.out).value.stack|;
    var popped := st.stack[m + 1..];
    ClosePopsOperators(st, popped);
    OperatorsOnly(Reversed(popped));
    FilterAppend(IsNumber, st.out, Reversed(popped));
  }

  /** What an operator pops splits the stack into what stays and a run of
      operators. */
  lemma PopTighterSplit(op: Token, stack: seq<Token>, out: seq<Token>)
    requires IsOperator(op)
    ensures var popped := stack[|PopTighter(op, stack, out).stack|..];
      && stack == PopTighter(op, stack, out).stack + popped
      && (forall k :: 0 <= k < |popped| ==> IsOperator(popped[k]))
  {
    var p := PopTighter(op, stack, out);
    assert stack == p.stack + stack[|p.stack|..];
    PopTighterStops(op, stack, out);
  }

  lemma PoppedOperators(t: Token, st: State)
    requires StackOk(st.stack) && IsOperator(t)
    ensures var p := PopTighter(t, st.stack, st.out);
      Filter(NotParen, st.stack) == Filter(NotParen, p.stack) + st.stack[|p.stack|..]
  {
    var p := PopTighter(t, st.stack, st.out);
    var popped := st.stack[|p.stack|..];
    PopTighterSplit(t, st.stack, st.out);
    OperatorsOnly(popped);
    FilterAppend(NotParen, p.stack, popped);
  }

  lemma PushedOperator(stack: seq<Token>, t: Token)
    requires IsOperator(t)
    ensures Filter(NotParen, stack + [t]) == Filter(NotParen, stack) + [t]
  {
    OperatorsOnly([t]);
    FilterAppend(NotParen, stack, [t]);
  }

  lemma HeldAfterPush(t: Token, st: State, p: State, popped: seq<Token>)
    requires Filter(NotParen, st.stack) == Filter(NotParen, p.stack) + popped
    requires Filter(NotParen, p.stack + [t]) == Filter(NotParen, p.stack) + [t]
    requires multiset(p.out) == multiset(st.out) + multiset(popped)
    ensures Held(State(p.stack + [t], p.out)) == Held(st) + multiset{t}
  {
  }

  lemma PushOperatorTokens(t: Token, st: State)
    requires StackOk(st.stack) && IsOperator(t)
    ensures var p := PopTighter(t, st.stack, st.out);
      Held(State(p.stack + [t], p.out)) == Held(st) + multiset{t}
  {
    var p := PopTighter(t, st.stack, st.out);
    var popped := st.stack[|p.stack|..];
    PoppedOperators(t, st);
    PushedOperator(p.stack, t);
    ReversedMultiset(popped);
    HeldAfterPush(t, st, p, popped);
  }

  lemma PushNumberTokens(t: Token, st: State)
    ensures Held(State(st.stack, st.out + [t])) == Held(st) + multiset{t}
  {
  }

  lemma PushOpenTokens(st: State)
    ensures Held(State(st.stack + ["("], st.out)) == Held(st)
  {
    FilterAppend(NotParen, st.stack, ["("]);
    FilterOne(NotParen, "(");
  }

  lemma CloseTokens(st: State)
    requires StackOk(st.stack) && PopToOpen(st.stack, st.out).Ok?
    ensures Held(PopToOpen(st.stack, st.out).value) == Held(st)
  {
    var p := PopToOpen(st.stack, st.out).value;
    var m := |p.stack|;
    var popped := st.stack[m + 1..];
    assert st.stack == p.stack + ["("] + popped;
    ClosePopsOperators(st, popped);
    OperatorsOnly(popped);
    ReversedMultiset(popped);
    FilterOne(NotParen, "(");
    FilterAppend(NotParen, p.stack + ["("], popped);
    FilterAppend(NotParen, p.stack, ["("]);
  }

  /** A step moves every non-parenthesis token it pops from the stack to the
      output and adds its own token, unless that is a parenthesis. */
  lemma StepTokens(t: Token, st: State)
    requires StackOk(st.stack)
    ensures Step(t, st).Ok? ==> Held(Step(t, st).value) == Held(st) + multiset(Filter(NotParen, [t]))
  {
    if IsNumber(t) {
      assert Step(t, st) == Ok(State(st.stack, st.out + [t]));
      assert NotParen(t);
      FilterOne(NotParen, t);
      PushNumberTokens(t, st);
    } else if IsOperator(t) {
      var p := PopTighter(t, st.stack, st.out);
      assert Step(t, st) == Ok(State(p.stack + [t], p.out));
      OperatorsOnly([t]);
      PushOperatorTokens(t, st);
    } else if t == "(" {
      FilterOne(NotParen, t);
      PushOpenTokens(st);
    } else if t == ")" {
      FilterOne(NotParen, t);
      if Step(t, st).Ok? {
        CloseTokens(st);
      }
    }
  }

  lemma {:induction false} RunStack(ts: seq<Token>, st: State)
    requires StackOk(st.stack)
    ensures Run(ts, st).Ok? ==> StackOk(Run(ts, st).value.stack)
    decreases |ts|
  {
    if ts != [] && Run(ts, st).Ok? {
      StepStack(ts[0], st);
      RunStack(ts[1..], Step(ts[0], st).value);
    }
  }

  lemma {:induction false} RunOrder(ts: seq<Token>, st: State)
    requires StackOk(st.stack)
    ensures Run(ts, st).Ok? ==> Numbers(Run(ts, st).value.out) == Numbers(st.out) + Numbers(ts)
    decreases |ts|
  {
    if ts == [] {
      assert Numbers(ts) == [];
    } else if Run(ts, st).Ok? {
      assert ts == [ts[0]] + ts[1..];
      FilterAppend(IsNumber, [ts[0]], ts[1..]);
      var mid := Step(ts[0], st).value;
      assert Run(ts, st) == Run(ts[1..], mid);
      StepStack(ts[0], st);
      StepOrder(ts[0], st);
      RunOrder(ts[1..], mid);
      AppendAssoc(Numbers(st.out), Numbers([ts[0]]), Numbers(ts[1..]));
    }
  }

  lemma {:induction false} RunTokens(ts: seq<Token>, st: State)
    requires StackOk(st.stack)
    ensures Run(ts, st).Ok? ==> Held(Run(ts, st).value) == Held(st) + multiset(Filter(NotParen, ts))
    decreases |ts|
  {
    if ts == [] {
      assert Filter(NotParen, ts) == [];
    } else if Run(ts, st).Ok? {
      assert ts == [ts[0]] + ts[1..];
      FilterAppend(NotParen, [ts[0]], ts[1..]);
      var mid := Step(ts[0], st).value;
      assert Run(ts, st) == Run(ts[1..], mid);
      StepStack(ts[0], st);
      StepTokens(ts[0], st);
      RunTokens(ts[1..], mid);
    }
  }

  // ---- when a conversion fails: a parenthesis-depth count ----

  /** One token of the depth count: '(' opens, ')' closes an open one, and a
      token that is not a number, operator or parenthesis is refused. */
  function DepthStep(t: Token, depth: nat): Result<nat> {
    if !IsInfixToken(t) then Err(UnexpectedToken(t))
    else if t == "(" then Ok(depth + 1)
    else if t == ")" then
      if depth == 0 then Err(UnbalancedParens(MissingOpen)) else Ok(depth - 1)
    else Ok(depth)
  }

  /** The depth after `ts`, or the first token that the count refuses. */
  function Balance(ts: seq<Token>, depth: nat): Result<nat>
    decreases |ts|
  {
    if ts == [] then Ok(depth)
    else match DepthStep(ts[0], depth)
      case Err(e) => Err(e)
      case Ok(d) => Balance(ts[1..], d)
  }

  /** The number of '(' on a stack. */
  function Opens(stack: seq<Token>): nat { |Filter(IsOpen, stack)| }

  lemma {:induction false} OpensCount(stack: seq<Token>)
    ensures Opens(stack) > 0 <==> "(" in stack
    decreases |stack|
  {
    if stack != [] {
      var rest := stack[..|stack| - 1];
      OpensCount(rest);
      assert stack == rest + [Top(stack)];
    }
  }

  lemma OpensAppend(a: seq<Token>, b: seq<Token>)
    ensures Opens(a + b) == Opens(a) + Opens(b)
  {
    FilterAppend(IsOpen, a, b);
  }

  lemma PushOperatorOpens(t: Token, st: State)
    requires StackOk(st.stack) && IsOperator(t)
    ensures var p := PopTighter(t, st.stack, st.out);
      Opens(p.stack + [t]) == Opens(st.stack)
  {
    var p := PopTighter(t, st.stack, st.out);
    var popped := st.stack[|p.stack|..];
    PopTighterSplit(t, st.stack, st.out);
    OperatorsOnly(popped);
    OperatorsOnly([t]);
    OpensAppend(p.stack, popped);
    OpensAppend(p.stack, [t]);
  }

  lemma CloseOpens(st: State)
    requires StackOk(st.stack)
    ensures PopToOpen(st.stack, st.out).Ok? <==> Opens(st.stack) > 0
    ensures PopToOpen(st.stack, st.out).Ok? ==>
      Opens(PopToOpen(st.stack, st.out).value.stack) == Opens(st.stack) - 1
  {
    PopToOpenFinds(st.stack, st.out);
    OpensCount(st.stack);
    var r := PopToOpen(st.stack, st.out);
    if r.Ok? {
      var m := |r.value.stack|;
      var popped := st.stack[m + 1..];
      assert st.stack == r.value.stack + ["("] + popped;
      ClosePopsOperators(st, popped);
      OperatorsOnly(popped);
      OpensAppend(r.value.stack + ["("], popped);
      OpensAppend(r.value.stack, ["("]);
      FilterOne(IsOpen, "(");
    }
  }

  /** A converter step fails exactly when the depth count does, with the
      same error, and otherwise the stack holds as many '(' as the count. */
  lemma StepBalance(t: Token, st: State)
    requires StackOk(st.stack)
    ensures DepthStep(t, Opens(st.stack)).Err? ==> Step(t, st) == Err(DepthStep(t, Opens(st.stack)).error)
    ensures DepthStep(t, Opens(st.stack)).Ok? ==>
      Step(t, st).Ok? && Opens(Step(t, st).value.stack) == DepthStep(t, Opens(st.stack)).value
  {
    if IsNumber(t) {
      assert Step(t, st) == Ok(State(st.stack, st.out + [t]));
    } else if IsOperator(t) {
      PushOperatorOpens(t, st);
    } else if t == "(" {
      OpensAppend(st.stack, ["("]);
      FilterOne(IsOpen, "(");
    } else if t == ")" {
      CloseOpens(st);
    }
  }

  lemma {:induction false} RunBalance(ts: seq<Token>, st: State)
    requires StackOk(st.stack)
    ensures Balance(ts, Opens(st.stack)).Err? ==> Run(ts, st) == Err(Balance(ts, Opens(st.stack)).error)
    ensures Balance(ts, Opens(st.stack)).Ok? ==>
      Run(ts, st).Ok? && Opens(Run(ts, st).value.stack) == Balance(ts, Opens(st.stack)).value
    decreases |ts|
  {
    if ts != [] {
      StepBalance(ts[0], st);
      if Step(ts[0], st).Ok? {
        StepStack(ts[0], st);
        RunBalance(ts[1..], Step(ts[0], st).value);
      }
    }
  }

  /** The conversion fails exactly when the depth count refuses a token or
      ends above zero: a ')' without a '(' and an unexpected token are
      reported where the count meets them, a '(' left open at the end. */
  lemma ShuntFails(ts: seq<Token>)
    ensures Shunt(ts).Err? <==> Balance(ts, 0) != Ok(0)
    ensures Balance(ts, 0).Err? ==> Shunt(ts) == Err(Balance(ts, 0).error)
    ensures Balance(ts, 0).Ok? && Balance(ts, 0).value != 0 ==> Shunt(ts) == Err(UnbalancedParens(Unclosed))
  {
    var st := State([], []);
    assert Opens([]) == 0;
    RunBalance(ts, st);
    if Run(ts, st).Ok? {
      var fin := Run(ts, st).value;
      RunStack(ts, st);
      OpensCount(fin.stack);
    }
  }

  lemma {:induction false} BalanceTokens(ts: seq<Token>, depth: nat)
    ensures Balance(ts, depth).Ok? ==> forall k :: 0 <= k < |ts| ==> IsInfixToken(ts[k])
    decreases |ts|
  {
    if ts != [] && Balance(ts, depth).Ok? {
      BalanceTokens(ts[1..], DepthStep(ts[0], depth).value);
      assert forall k :: 1 <= k < |ts| ==> ts[k] == ts[1..][k - 1];
    }
  }

  /** After a successful conversion the stack left for the final drain holds
      operators only. */
  lemma ShuntStack(ts: seq<Token>)
    requires Shunt(ts).Ok?
    ensures Run(ts, State([], [])).Ok?
    ensures var fin := Run(ts, State([], [])).value;
      && (forall k :: 0 <= k < |fin.stack| ==> IsOperator(fin.stack[k]))
      && Shunt(ts).value == fin.out + Reversed(fin.stack)
  {
    var st := State([], []);
    var fin := Run(ts, st).value;
    RunStack(ts, st);
    forall k | 0 <= k < |fin.stack| ensures IsOperator(fin.stack[k]) {
      assert fin.stack[k] in fin.stack;
    }
  }

  /** The numbers of a successful conversion are the input's, in order. */
  lemma ShuntNumbers(ts: seq<Token>)
    requires Shunt(ts).Ok?
    ensures Numbers(Shunt(ts).value) == Numbers(ts)
  {
    var st := State([], []);
    ShuntStack(ts);
    var fin := Run(ts, st).value;
    RunOrder(ts, st);
    assert Filter(IsNumber, []) == [];
    var rev := Reversed(fin.stack);
    OperatorsOnly(rev);
    FilterAppend(IsNumber, fin.out, rev);
  }

  /** A successful conversion holds every number and operator of the input
      exactly once. */
  lemma ShuntTokens(ts: seq<Token>)
    requires Shunt(ts).Ok?
    ensures multiset(Shunt(ts).value) == multiset(Filter(NotParen, ts))
  {
    var st := State([], []);
    ShuntStack(ts);
    var fin := Run(ts, st).value;
    RunTokens(ts, st);
    assert Filter(NotParen, []) == [];
    OperatorsOnly(fin.stack);
    ReversedMultiset(fin.stack);
  }

  /** A successful conversion emits no parentheses, only numbers and
      operators; its numbers are the input's in their original order; and it
      holds every number and operator of the input exactly once. */
  lemma ShuntOutput(ts: seq<Token>)
    requires Shunt(ts).Ok?
    ensures forall k :: 0 <= k < |Shunt(ts).value| ==>
      IsNumber(Shunt(ts).value[k]) || IsOperator(Shunt(ts).value[k])
    ensures Numbers(Shunt(ts).value) == Numbers(ts)
    ensures multiset(Shunt(ts).value) == multiset(Filter(NotParen, ts))
  {
    var out := Shunt(ts).value;
    ShuntNumbers(ts);
    ShuntTokens(ts);
    ShuntFails(ts);
    BalanceTokens(ts, 0);
    FilterMembers(NotParen, ts);
    forall k | 0 <= k < |out| ensures IsNumber(out[k]) || IsOperator(out[k]) {
      assert out[k] in multiset(Filter(NotParen, ts));
      assert out[k] in ts;
    }
  }
}
