/** Infix expressions as trees, the meaning the three stages of
    src/calculator.py give them together. An expression is printed as the
    token list the tokenizer would produce for it; the shunting-yard
    converter must turn that list into the tree's postfix form, and the
    evaluator must compute the tree's value from it. The trees considered
    are those whose printed form parses back to them: the left operand of an
    operator binds at least as tightly as the operator (operators of equal
    precedence group to the left) and the right operand binds strictly more
    tightly, otherwise it is written in parentheses. */
module Infix {
  import opened Tokens
  import opened Shunting
  import opened Rpn
  import opened Lexer

  datatype Expr =
    | Num(text: Token)
    | Bin(op: char, left: Expr, right: Expr)
    | Group(inner: Expr)     // an expression written in parentheses

  /** How tightly the root of an expression binds: its operator's
      precedence, or 3 for a number or a parenthesised expression. */
  function RootPrec(e: Expr): nat
    requires e.Bin? ==> IsOpChar(e.op)
  {
    if e.Bin? then Prec([e.op]) else 3
  }

  /** An expression whose printed form the converter reads back as it is. */
  predicate WF(e: Expr) {
    match e
    case Num(t) => IsNumber(t)
    case Bin(op, l, r) =>
      && IsOpChar(op) && WF(l) && WF(r)
      && RootPrec(l) >= RootPrec(e) && RootPrec(r) > RootPrec(e)
    case Group(x) => WF(x)
  }

  /** The infix token list of an expression. */
  function Print(e: Expr): seq<Token> {
    match e
    case Num(t) => [t]
    case Bin(op, l, r) => Print(l) + [[op]] + Print(r)
    case Group(x) => ["("] + Print(x) + [")"]
  }

  /** The postfix token list of an expression: operands first, then the
      operator; parentheses are dropped. */
  function Postfix(e: Expr): seq<Token> {
    match e
    case Num(t) => [t]
    case Bin(op, l, r) => Postfix(l) + Postfix(r) + [[op]]
    case Group(x) => Postfix(x)
  }

  /** The value of an expression, evaluating the left operand before the
      right one. */
  function Eval(e: Expr): Result<real>
    requires WF(e)
  {
    match e
    case Num(t) => Ok(NumberValue(t))
    case Bin(op, l, r) =>
      (match Eval(l)
       case Err(x) => Err(x)
       case Ok(a) =>
         match Eval(r)
         case Err(x) => Err(x)
         case Ok(b) => Apply(op, a, b))
    case Group(x) => Eval(x)
  }

  // ---- the converter on a printed expression ----

  /** The operators the converter still holds after reading an expression:
      the root operator and those down its right-hand side. */
  function Spine(e: Expr): seq<Token> {
    if e.Bin? then [[e.op]] + Spine(e.right) else []
  }

  /** The output the converter has produced after reading an expression. */
  function Done(e: Expr): seq<Token> {
    match e
    case Num(t) => [t]
    case Bin(op, l, r) => Postfix(l) + Done(r)
    case Group(x) => Postfix(x)
  }

  /** Popping the held operators completes the postfix form. */
  lemma {:induction false} DoneSpine(e: Expr)
    ensures Done(e) + Reversed(Spine(e)) == Postfix(e)
  {
    match e
    case Num(t) =>
    case Bin(op, l, r) =>
      DoneSpine(r);
      ReversedCons([op], Spine(r));
    case Group(x) =>
  }

  /** Every held operator binds at least as tightly as the root. */
  lemma {:induction false} SpinePrec(e: Expr)
    requires WF(e)
    ensures forall k :: 0 <= k < |Spine(e)| ==>
      IsOperator(Spine(e)[k]) && Prec(Spine(e)[k]) >= RootPrec(e)
  {
    if e.Bin? {
      SpinePrec(e.right);
      assert forall k :: 1 <= k < |Spine(e)| ==> Spine(e)[k] == Spine(e.right)[k - 1];
    }
  }

  /** The stack below an expression does not let the expression's
      operators pop it: its top is no operator binding at least as tightly
      as the root. */
  predicate Guard(stack: seq<Token>, e: Expr)
    requires e.Bin? ==> IsOpChar(e.op)
  {
    e.Bin? ==> |stack| == 0 || !IsOperator(Top(stack)) || Prec(Top(stack)) < RootPrec(e)
  }

  /** Two places in `all` above which everything binds at least as tightly
      as `op` and below which the next entry does not are the same place. */
  lemma SameStop(all: seq<Token>, op: Token, m: nat, n: nat)
    requires IsOperator(op) && m <= |all| && n <= |all|
    requires forall k :: m <= k < |all| ==> IsOperator(all[k]) && Prec(all[k]) >= Prec(op)
    requires forall k :: n <= k < |all| ==> IsOperator(all[k]) && Prec(all[k]) >= Prec(op)
    requires m == 0 || !IsOperator(all[m - 1]) || Prec(all[m - 1]) < Prec(op)
    requires n == 0 || !IsOperator(all[n - 1]) || Prec(all[n - 1]) < Prec(op)
    ensures m == n
  {
  }

  /** An operator pops exactly the run of tighter operators above a guarded
      stack. */
  lemma PopTighterRun(op: Token, stack: seq<Token>, run: seq<Token>, out: seq<Token>)
    requires IsOperator(op)
    requires forall k :: 0 <= k < |run| ==> IsOperator(run[k]) && Prec(run[k]) >= Prec(op)
    requires |stack| == 0 || !IsOperator(Top(stack)) || Prec(Top(stack)) < Prec(op)
    ensures PopTighter(op, stack + run, out) == State(stack, out + Reversed(run))
  {
    var all := stack + run;
    var n := |stack|;
    assert forall k :: n <= k < |all| ==> all[k] == run[k - n];
    assert n > 0 ==> all[n - 1] == Top(stack);
    var p := PopTighter(op, all, out);
    PopTighterStops(op, all, out);
    var m := |p.stack|;
    assert m > 0 ==> all[m - 1] == Top(p.stack);
    SameStop(all, op, m, n);
    assert all[n..] == run;
  }

  /** A ')' pops exactly the operators above the '(' it closes. */
  lemma PopToOpenRun(stack: seq<Token>, run: seq<Token>, out: seq<Token>)
    requires forall k :: 0 <= k < |run| ==> IsOperator(run[k])
    ensures PopToOpen(stack + ["("] + run, out) == Ok(State(stack, out + Reversed(run)))
  {
    var all := stack + ["("] + run;
    var n := |stack|;
    assert all[n] == "(";
    PopToOpenFinds(all, out);
    var p := PopToOpen(all, out).value;
    var m := |p.stack|;
    assert forall k :: n < k < |all| ==> all[k] == run[k - n - 1];
    assert forall k :: n < k < |all| ==> all[k] != "(";
    assert m == n;
    assert all[n + 1..] == run;
    assert all[..n] == stack;
  }

  lemma RunNumber(t: Token, st: State)
    requires IsNumber(t)
    ensures Run([t], st) == Ok(State(st.stack, st.out + [t]))
  {
    assert [t][1..] == [];
  }

  lemma RunOpen(st: State)
    ensures Run(["("], st) == Ok(State(st.stack + ["("], st.out))
  {
    assert ["("][1..] == [];
  }

  lemma RunClose(stack: seq<Token>, run: seq<Token>, out: seq<Token>)
    requires forall k :: 0 <= k < |run| ==> IsOperator(run[k])
    ensures Run([")"], State(stack + ["("] + run, out)) == Ok(State(stack, out + Reversed(run)))
  {
    var st := State(stack + ["("] + run, out);
    RunOne(")", st);
    StepClose(st);
    PopToOpenRun(stack, run, out);
  }

  lemma RunOperator(op: Token, stack: seq<Token>, run: seq<Token>, out: seq<Token>)
    requires IsOperator(op)
    requires forall k :: 0 <= k < |run| ==> IsOperator(run[k]) && Prec(run[k]) >= Prec(op)
    requires |stack| == 0 || !IsOperator(Top(stack)) || Prec(Top(stack)) < Prec(op)
    ensures Run([op], State(stack + run, out)) == Ok(State(stack + [op], out + Reversed(run)))
  {
    var st := State(stack + run, out);
    RunOne(op, st);
    StepOperator(op, st);
    PopTighterRun(op, stack, run, out);
  }

  /** A parenthesised part: '(' is pushed, the part is read above it, and
      ')' pops what the part left there. */
  lemma RunGroup(inner: seq<Token>, st: State, run: seq<Token>, done: seq<Token>)
    requires forall k :: 0 <= k < |run| ==> IsOperator(run[k])
    requires Run(inner, State(st.stack + ["("], st.out)) == Ok(State(st.stack + ["("] + run, st.out + done))
    ensures Run(["("] + inner + [")"], st) == Ok(State(st.stack, st.out + done + Reversed(run)))
  {
    var entered := State(st.stack + ["("], st.out);
    var inside := State(st.stack + ["("] + run, st.out + done);
    RunOpen(st);
    RunThen(["("], inner, st, entered);
    RunThen(["("] + inner, [")"], st, inside);
    RunClose(st.stack, run, st.out + done);
    assert st.out + done + Reversed(run) == st.out + done + Reversed(run);
  }

  /** An operator between two parts: the left part is read, the operator
      pops what the left part left and is pushed, and the right part is read
      above it. */
  lemma RunBin(left: seq<Token>, op: Token, right: seq<Token>, st: State,
               lrun: seq<Token>, ldone: seq<Token>, rrun: seq<Token>, rdone: seq<Token>)
    requires IsOperator(op)
    requires forall k :: 0 <= k < |lrun| ==> IsOperator(lrun[k]) && Prec(lrun[k]) >= Prec(op)
    requires |st.stack| == 0 || !IsOperator(Top(st.stack)) || Prec(Top(st.stack)) < Prec(op)
    requires Run(left, st) == Ok(State(st.stack + lrun, st.out + ldone))
    requires Run(right, State(st.stack + [op], st.out + ldone + Reversed(lrun))) ==
      Ok(State(st.stack + [op] + rrun, st.out + ldone + Reversed(lrun) + rdone))
    ensures Run(left + [op] + right, st) ==
      Ok(State(st.stack + [op] + rrun, st.out + ldone + Reversed(lrun) + rdone))
  {
    var mid := State(st.stack + lrun, st.out + ldone);
    var pushed := State(st.stack + [op], st.out + ldone + Reversed(lrun));
    RunOperator(op, st.stack, lrun, st.out + ldone);
    RunThen(left, [op], st, mid);
    RunThen(left + [op], right, st, pushed);
  }

  lemma GroupParts(x: Expr)
    ensures Print(Group(x)) == ["("] + Print(x) + [")"]
    ensures Spine(Group(x)) == [] && Done(Group(x)) == Postfix(x)
  {
  }

  lemma BinParts(op: char, l: Expr, r: Expr)
    ensures Print(Bin(op, l, r)) == Print(l) + [[op]] + Print(r)
    ensures Spine(Bin(op, l, r)) == [[op]] + Spine(r)
    ensures Done(Bin(op, l, r)) == Postfix(l) + Done(r)
  {
  }

  lemma RunPrintGroup(x: Expr, st: State)
    requires WF(x)
    requires Run(Print(x), State(st.stack + ["("], st.out)) ==
      Ok(State(st.stack + ["("] + Spine(x), st.out + Done(x)))
    ensures Run(Print(Group(x)), st) == Ok(State(st.stack + Spine(Group(x)), st.out + Done(Group(x))))
  {
    SpinePrec(x);
    RunGroup(Print(x), st, Spine(x), Done(x));
    DoneSpine(x);
    AppendEq(st.out, Done(x), Reversed(Spine(x)), Postfix(x));
    GroupParts(x);
    AppendNil(st.stack);
  }

  lemma RunPrintBin(op: char, l: Expr, r: Expr, st: State)
    requires WF(Bin(op, l, r)) && Guard(st.stack, Bin(op, l, r))
    requires Run(Print(l), st) == Ok(State(st.stack + Spine(l), st.out + Done(l)))
    requires Run(Print(r), State(st.stack + [[op]], st.out + Postfix(l))) ==
      Ok(State(st.stack + [[op]] + Spine(r), st.out + Postfix(l) + Done(r)))
    ensures Run(Print(Bin(op, l, r)), st) ==
      Ok(State(st.stack + Spine(Bin(op, l, r)), st.out + Done(Bin(op, l, r))))
  {
    DoneSpine(l);
    AppendEq(st.out, Done(l), Reversed(Spine(l)), Postfix(l));
    SpinePrec(l);
    RunBin(Print(l), [op], Print(r), st, Spine(l), Done(l), Spine(r), Done(r));
    BinParts(op, l, r);
    AppendAssoc(st.stack, [[op]], Spine(r));
    AppendAssoc(st.out, Postfix(l), Done(r));
  }

  /** Reading a printed expression leaves its spine on the stack and its
      finished part in the output. */
  lemma {:induction false} RunPrint(e: Expr, st: State)
    requires WF(e) && Guard(st.stack, e)
    ensures Run(Print(e), st) == Ok(State(st.stack + Spine(e), st.out + Done(e)))
  {
    match e
    case Num(t) =>
      RunNumber(t, st);
      assert st.stack + [] == st.stack;
    case Group(x) =>
      RunPrint(x, State(st.stack + ["("], st.out));
      RunPrintGroup(x, st);
    case Bin(op, l, r) =>
      RunPrint(l, st);
      RunPrint(r, State(st.stack + [[op]], st.out + Postfix(l)));
      RunPrintBin(op, l, r, st);
  }

  /** The converter turns a printed expression into its postfix form. */
  lemma PrintShunts(e: Expr)
    requires WF(e)
    ensures Shunt(Print(e)) == Ok(Postfix(e))
  {
    var st := State([], []);
    RunPrint(e, st);
    AppendNil(Spine(e));
    AppendNil(Done(e));
    SpinePrec(e);
    ShuntEnds(Print(e), Spine(e), Done(e));
    DoneSpine(e);
  }

  // ---- the evaluator on a postfix form ----

  /** Evaluating an expression's postfix form pushes its value, or stops
      with its error. */
  lemma {:induction false} ExecPostfix(e: Expr, stack: seq<real>, rest: seq<Token>)
    requires WF(e)
    ensures Exec(Postfix(e) + rest, stack) ==
      match Eval(e)
      case Err(x) => Err(x)
      case Ok(v) => Exec(rest, stack + [v])
  {
    match e
    case Num(t) =>
      assert ([t] + rest)[1..] == rest;
    case Group(x) =>
      ExecPostfix(x, stack, rest);
    case Bin(op, l, r) =>
      assert Postfix(e) + rest == Postfix(l) + (Postfix(r) + ([[op]] + rest));
      ExecPostfix(l, stack, Postfix(r) + ([[op]] + rest));
      if Eval(l).Ok? {
        var a := Eval(l).value;
        ExecPostfix(r, stack + [a], [[op]] + rest);
        if Eval(r).Ok? {
          var b := Eval(r).value;
          var s := stack + [a] + [b];
          assert s[..|s| - 2] == stack;
          assert ([[op]] + rest)[0] == [op] && ([[op]] + rest)[1..] == rest;
        }
      }
  }

  /** The evaluator computes an expression's value from its postfix form. */
  lemma PostfixValue(e: Expr)
    requires WF(e)
    ensures RpnValue(Postfix(e)) == Eval(e)
  {
    ExecPostfix(e, [], []);
    assert Postfix(e) + [] == Postfix(e);
  }

  /** Converting and then evaluating a printed expression gives its value:
      the converter respects precedence, left associativity and
      parentheses. */
  lemma RoundTrip(e: Expr)
    requires WF(e)
    ensures Shunt(Print(e)).Ok?
    ensures RpnValue(Shunt(Print(e)).value) == Eval(e)
  {
    PrintShunts(e);
    PostfixValue(e);
  }

  // ---- the tokenizer on a written-out expression ----

  /** No two numbers are adjacent in a token list. */
  predicate NumbersApart(ts: seq<Token>) {
    forall k :: 0 < k < |ts| ==> !(IsNumber(ts[k - 1]) && IsNumber(ts[k]))
  }

  predicate Lexemes(ts: seq<Token>) {
    forall k :: 0 <= k < |ts| ==> IsLexeme(ts[k])
  }

  /** Joining two lists around a token that is not a number keeps them
      lexemes with no two numbers adjacent. */
  lemma JoinApart(a: seq<Token>, x: Token, b: seq<Token>)
    requires Lexemes(a) && Lexemes(b) && NumbersApart(a) && NumbersApart(b)
    requires IsLexeme(x) && !IsNumber(x)
    ensures Lexemes(a + [x] + b) && NumbersApart(a + [x] + b)
  {
    var j := a + [x] + b;
    assert forall k :: 0 <= k < |a| ==> j[k] == a[k];
    assert j[|a|] == x;
    assert forall k :: |a| < k < |j| ==> j[k] == b[k - |a| - 1];
  }

  lemma WrapApart(a: seq<Token>)
    requires Lexemes(a) && NumbersApart(a)
    ensures Lexemes(["("] + a + [")"]) && NumbersApart(["("] + a + [")"])
  {
    SymbolLexeme('(');
    SymbolLexeme(')');
    JoinApart([], "(", a);
    assert [] + ["("] + a == ["("] + a;
    JoinApart(["("] + a, ")", []);
    assert ["("] + a + [")"] + [] == ["("] + a + [")"];
  }

  /** A printed expression consists of the tokenizer's shapes, and two
      numbers never follow each other in it. */
  lemma {:induction false} PrintApart(e: Expr)
    requires WF(e)
    ensures Lexemes(Print(e)) && NumbersApart(Print(e))
  {
    match e
    case Num(t) =>
    case Bin(op, l, r) =>
      PrintApart(l);
      PrintApart(r);
      SymbolLexeme(op);
      JoinApart(Print(l), [op], Print(r));
    case Group(x) =>
      PrintApart(x);
      WrapApart(Print(x));
  }

  /** Any blank gaps make a readable layout of a printed expression. */
  lemma PrintReadable(e: Expr, gaps: seq<string>)
    requires WF(e) && |gaps| == |Print(e)| + 1
    requires forall k :: 0 <= k < |gaps| ==> Blank(gaps[k])
    ensures Readable(Print(e), gaps)
  {
    PrintApart(e);
  }
}
