/** Tokens, character classes, number texts and the error kinds shared by the
    three stages of the calculator (src/calculator.py). A token is its text,
    as in the source: the converter and the evaluator classify token strings. */
module Tokens {

  type Token = string

  /** Why a stage gave up. One constructor per distinct failure of the source. */
  datatype ParenFault =
    | MissingOpen   // a ')' found no '(' on the operator stack
    | Unclosed      // a '(' was still on the operator stack at the final drain

  datatype Error =
    | MalformedNumber(start: nat)     // a number run with two dots, or a lone "."
    | UnsupportedChar(ch: char)       // a character outside the alphabet
    | UnbalancedParens(fault: ParenFault)
    | UnexpectedToken(token: Token)   // neither number, operator nor parenthesis
    | InsufficientOperands            // an operator met fewer than two values
    | DivisionByZero
    | MalformedExpression             // final evaluation stack does not hold one value

  datatype Result<T> = Ok(value: T) | Err(error: Error)

  /** Prefixes `ts` to a successful token list and passes errors through. */
  function Prepend(ts: seq<Token>, r: Result<seq<Token>>): (p: Result<seq<Token>>)
    ensures p.Ok? <==> r.Ok?
    ensures p.Ok? ==> p.value == ts + r.value
    ensures p.Err? ==> p.error == r.error
  {
    match r
    case Ok(us) => Ok(ts + us)
    case Err(e) => Err(e)
  }

  lemma PrependNothing(r: Result<seq<Token>>)
    ensures Prepend([], r) == r
  {
    if r.Ok? {
      assert [] + r.value == r.value;
    }
  }

  lemma PrependTwice(a: seq<Token>, b: seq<Token>, r: Result<seq<Token>>)
    ensures Prepend(a, Prepend(b, r)) == Prepend(a + b, r)
  {
    if r.Ok? {
      assert a + (b + r.value) == (a + b) + r.value;
    }
  }

  // ---- sequence identities, stated over plain variables so that they can
  // be used where the sequences are built by recursive functions ----

  lemma AppendAssoc<T>(a: seq<T>, b: seq<T>, c: seq<T>)
    ensures a + b + c == a + (b + c)
  {
  }

  lemma AppendEq<T>(a: seq<T>, b: seq<T>, c: seq<T>, d: seq<T>)
    requires b + c == d
    ensures a + b + c == a + d
  {
  }

  lemma AppendNil<T>(a: seq<T>)
    ensures a + [] == a && [] + a == a
  {
  }

  // ---- character classes (ASCII) ----

  /** The ASCII characters for which Python's str.isspace() holds. */
  predicate IsSpace(c: char) {
    c == ' ' || c == '\t' || c == '\n' || c == '\r' || c == '\U{B}' || c == '\U{C}'
    || ('\U{1C}' <= c <= '\U{1F}')
  }

  predicate IsDigit(c: char) { '0' <= c <= '9' }

  /** A character that continues a number run: a digit or a decimal point. */
  predicate IsNumChar(c: char) { IsDigit(c) || c == '.' }

  predicate IsOpChar(c: char) { c == '+' || c == '-' || c == '*' || c == '/' }

  /** The characters the tokenizer emits as one-character tokens. */
  predicate IsSymbolChar(c: char) { IsOpChar(c) || c == '(' || c == ')' }

  predicate Supported(c: char) { IsSpace(c) || IsNumChar(c) || IsSymbolChar(c) }

  // ---- token classes ----

  predicate IsOperator(t: Token) { |t| == 1 && IsOpChar(t[0]) }

  /** Binding strength of an operator: 1 for + and -, 2 for * and /. */
  function Prec(t: Token): (p: nat)
    requires IsOperator(t)
    ensures p == 1 || p == 2
    ensures p == 2 <==> t[0] == '*' || t[0] == '/'
  {
    if t[0] == '*' || t[0] == '/' then 2 else 1
  }

  function DotCount(s: string): (n: nat)
    ensures n <= |s|
  {
    if s == [] then 0
    else DotCount(s[..|s| - 1]) + (if s[|s| - 1] == '.' then 1 else 0)
  }

  /** The number shape the tokenizer produces: non-empty, digits and '.' only,
      at most one '.', and not a lone ".". */
  predicate IsNumber(t: Token) {
    && |t| > 0
    && (forall k :: 0 <= k < |t| ==> IsNumChar(t[k]))
    && DotCount(t) <= 1
    && t != "."
  }

  /** A token the infix converter accepts. */
  predicate IsInfixToken(t: Token) { IsNumber(t) || IsOperator(t) || t == "(" || t == ")" }

  // ---- number values ----

  function DigitValue(c: char): (d: nat)
    requires IsDigit(c)
    ensures d < 10
  {
    (c as int - '0' as int) as nat
  }

  /** The natural number written by a string of digits (0 for the empty string). */
  function DigitsValue(s: string): nat
    requires forall k :: 0 <= k < |s| ==> IsDigit(s[k])
  {
    if s == [] then 0 else DigitsValue(s[..|s| - 1]) * 10 + DigitValue(s[|s| - 1])
  }

  function Pow10(n: nat): (p: nat)
    ensures p >= 1
  {
    if n == 0 then 1 else 10 * Pow10(n - 1)
  }

  /** Index of the first '.' in `s`, or |s| when there is none. */
  function DotIndex(s: string): (k: nat)
    ensures k <= |s|
    ensures forall m :: 0 <= m < k ==> s[m] != '.'
    ensures k < |s| ==> s[k] == '.'
  {
    if s == [] then 0 else if s[0] == '.' then 0 else 1 + DotIndex(s[1..])
  }

  lemma {:induction false} DotCountAppend(a: string, b: string)
    ensures DotCount(a + b) == DotCount(a) + DotCount(b)
    decreases |b|
  {
    if b == [] {
      assert a + b == a;
    } else {
      var n := |b| - 1;
      assert (a + b)[..|a + b| - 1] == a + b[..n];
      DotCountAppend(a, b[..n]);
    }
  }

  lemma {:induction false} DotCountNoDot(s: string)
    requires forall k :: 0 <= k < |s| ==> s[k] != '.'
    ensures DotCount(s) == 0
    decreases |s|
  {
    if s != [] {
      DotCountNoDot(s[..|s| - 1]);
    }
  }

  /** Splitting a string at position k splits its dot count. */
  lemma DotCountAt(s: string, k: nat)
    requires k < |s|
    ensures DotCount(s) == DotCount(s[..k]) + (if s[k] == '.' then 1 else 0) + DotCount(s[k + 1..])
  {
    assert s == s[..k] + [s[k]] + s[k + 1..];
    DotCountAppend(s[..k] + [s[k]], s[k + 1..]);
    DotCountAppend(s[..k], [s[k]]);
    assert [s[k]][..0] == [];
  }

  /** Digits around a single dot make a number token. */
  lemma DecimalToken(t: string, d: nat)
    requires d < |t| && |t| > 1 && t[d] == '.'
    requires forall k :: 0 <= k < |t| && k != d ==> IsDigit(t[k])
    ensures IsNumber(t)
  {
    DotCountAt(t, d);
    DotCountNoDot(t[..d]);
    DotCountNoDot(t[d + 1..]);
  }

  /** Two dots at different positions make a dot count of at least two. */
  lemma TwoDots(s: string, d: nat, k: nat)
    requires d < k < |s|
    ensures s[d] == '.' && s[k] == '.' ==> DotCount(s) >= 2
  {
    DotCountAt(s, k);
    DotCountAt(s[..k], d);
    assert s[..k][..d] == s[..d];
  }

  /** In a number token every character outside the one dot is a digit. */
  lemma NumberParts(t: Token)
    requires IsNumber(t)
    ensures forall k :: 0 <= k < DotIndex(t) ==> IsDigit(t[k])
    ensures DotIndex(t) < |t| ==> forall k :: DotIndex(t) < k < |t| ==> IsDigit(t[k])
  {
    var d := DotIndex(t);
    if d < |t| {
      forall k | d < k < |t| ensures IsDigit(t[k]) {
        TwoDots(t, d, k);
      }
    }
  }

  /** A single digit is a number token worth that digit. */
  lemma DigitToken(c: char)
    requires IsDigit(c)
    ensures IsNumber([c]) && !IsOperator([c])
    ensures DotIndex([c]) == 1 && DigitsValue([c]) == DigitValue(c)
  {
    assert [c][..0] == [];
    assert [c][1..] == [];
  }

  /** The exact decimal value of a number token: integer part plus fraction,
      either of which may be empty ("5." is 5, ".5" is one half). */
  function NumberValue(t: Token): (v: real)
    requires IsNumber(t)
    ensures v >= 0.0
  {
    NumberParts(t);
    var d := DotIndex(t);
    var whole := DigitsValue(t[..d]) as real;
    if d == |t| then whole
    else
      var frac := t[d + 1..];
      whole + (DigitsValue(frac) as real) / (Pow10(|frac|) as real)
  }

  lemma DigitValueIs(c: char)
    requires IsDigit(c)
    ensures IsNumber([c]) && NumberValue([c]) == DigitValue(c) as real
  {
    DigitToken(c);
    assert [c][..1] == [c];
  }

  /** A string of dots only has one dot per character. */
  lemma {:induction false} DotCountAllDots(s: string)
    requires forall k :: 0 <= k < |s| ==> s[k] == '.'
    ensures DotCount(s) == |s|
    decreases |s|
  {
    if s != [] {
      DotCountAllDots(s[..|s| - 1]);
    }
  }

  /** The number shape, stated without the lone-dot exception: digits and
      dots only, at most one dot, and at least one digit. On this alphabet
      these are the texts Python's float() accepts. */
  lemma NumberShape(t: Token)
    ensures IsNumber(t) <==>
      && (forall k :: 0 <= k < |t| ==> IsNumChar(t[k]))
      && DotCount(t) <= 1
      && (exists k :: 0 <= k < |t| && IsDigit(t[k]))
  {
    if IsNumber(t) && !(exists k :: 0 <= k < |t| && IsDigit(t[k])) {
      DotCountAllDots(t);
    }
  }

  /** Digits written one after the other: the first part is shifted left by
      the length of the second. */
  lemma {:induction false} DigitsAppend(a: string, b: string)
    requires forall k :: 0 <= k < |a| ==> IsDigit(a[k])
    requires forall k :: 0 <= k < |b| ==> IsDigit(b[k])
    ensures forall k :: 0 <= k < |a + b| ==> IsDigit((a + b)[k])
    ensures DigitsValue(a + b) == DigitsValue(a) * Pow10(|b|) + DigitsValue(b)
    decreases |b|
  {
    if b == [] {
      assert a + b == a;
    } else {
      var n := |b| - 1;
      var init := b[..n];
      assert (a + b)[..|a + b| - 1] == a + init;
      DigitsAppend(a, init);
      var x, y, z, w := DigitsValue(a), Pow10(n), DigitsValue(init), DigitValue(b[n]);
      assert DigitsValue(a + b) == DigitsValue(a + init) * 10 + w;
      assert DigitsValue(b) == z * 10 + w;
      Shift(x, y, z, w);
    }
  }

  /** One more digit shifts both parts left. */
  lemma Shift(x: nat, y: nat, z: nat, w: nat)
    ensures (x * y + z) * 10 + w == x * (10 * y) + (z * 10 + w)
  {
  }

  /** `v` multiplied by ten `n` times. */
  function Scaled(v: real, n: nat): real
  {
    if n == 0 then v else Scaled(v, n - 1) * 10.0
  }

  /** Multiplying by ten n times is multiplying by the n-th power of ten. */
  lemma {:induction false} ScaledIs(v: real, n: nat)
    ensures Scaled(v, n) == v * (Pow10(n) as real)
    decreases n
  {
    if n > 0 {
      ScaledIs(v, n - 1);
      var p := Pow10(n - 1) as real;
      assert Scaled(v, n) == (v * p) * 10.0;
      assert (v * p) * 10.0 == v * (p * 10.0);
    }
  }

  /** A whole part and a fraction over p, multiplied back by p. */
  lemma MultiplyBack(w: real, f: real, p: real, m: real, v: real)
    requires p >= 1.0 && m == w * p + f
    requires v == w + f / p
    ensures v * p == m
  {
  }

  /** Whole-number arithmetic carried over to the reals. */
  lemma AsReal(a: nat, b: nat, c: nat, m: nat)
    requires m == a * b + c
    ensures m as real == (a as real) * (b as real) + c as real
  {
  }

  /** A whole part w and a fraction f over ten to the n, multiplied back by
      ten n times, give w shifted left by n places plus f. */
  lemma ScaleBack(w: nat, f: nat, n: nat, m: nat, v: real)
    requires m == w * Pow10(n) + f
    requires v == w as real + (f as real) / (Pow10(n) as real)
    ensures Scaled(v, n) == m as real
  {
    ScaledIs(v, n);
    var p := Pow10(n);
    AsReal(w, p, f, m);
    MultiplyBack(w as real, f as real, p as real, m as real, v);
  }

  /** With no dot, a number token is worth the whole number its digits write. */
  lemma NumberValueWhole(t: Token)
    requires IsNumber(t) && DotIndex(t) == |t|
    ensures forall k :: 0 <= k < |t| ==> IsDigit(t[k])
    ensures NumberValue(t) == DigitsValue(t) as real
  {
    NumberParts(t);
    assert t[..|t|] == t;
  }

  /** A whole part and a fraction written in digits, multiplied back by ten
      once per digit of the fraction, give the whole number the digits write
      together. */
  lemma ScaledDigits(whole: string, frac: string, v: real)
    requires forall k :: 0 <= k < |whole| ==> IsDigit(whole[k])
    requires forall k :: 0 <= k < |frac| ==> IsDigit(frac[k])
    requires v == DigitsValue(whole) as real + (DigitsValue(frac) as real) / (Pow10(|frac|) as real)
    ensures Scaled(v, |frac|) == DigitsValue(whole + frac) as real
  {
    DigitsAppend(whole, frac);
    ScaleBack(DigitsValue(whole), DigitsValue(frac), |frac|, DigitsValue(whole + frac), v);
  }

  /** With a dot, a number token multiplied by ten once per digit after the
      dot is worth the whole number its digits write with the dot removed. */
  lemma NumberValueScaled(t: Token)
    requires IsNumber(t) && DotIndex(t) < |t|
    ensures forall k :: 0 <= k < |t| && k != DotIndex(t) ==> IsDigit(t[k])
    ensures Scaled(NumberValue(t), |t| - DotIndex(t) - 1) == DigitsValue(t[..DotIndex(t)] + t[DotIndex(t) + 1..]) as real
  {
    NumberParts(t);
    var d := DotIndex(t);
    var whole, frac := t[..d], t[d + 1..];
    assert |frac| == |t| - d - 1;
    ScaledDigits(whole, frac, NumberValue(t));
  }

  // ---- filtering token sequences ----

  /** The elements of `s` that satisfy `p`, in their order. */
  function Filter(p: Token -> bool, s: seq<Token>): seq<Token> {
    if s == [] then []
    else Filter(p, s[..|s| - 1]) + (if p(s[|s| - 1]) then [s[|s| - 1]] else [])
  }

  lemma {:induction false} FilterAppend(p: Token -> bool, a: seq<Token>, b: seq<Token>)
    ensures Filter(p, a + b) == Filter(p, a) + Filter(p, b)
    decreases |b|
  {
    if b == [] {
      assert a + b == a;
    } else {
      var n := |b| - 1;
      assert (a + b)[..|a + b| - 1] == a + b[..n];
      FilterAppend(p, a, b[..n]);
    }
  }

  lemma FilterOne(p: Token -> bool, t: Token)
    ensures Filter(p, [t]) == if p(t) then [t] else []
  {
    assert [t][..0] == [];
  }

  lemma {:induction false} FilterAll(p: Token -> bool, s: seq<Token>)
    requires forall k :: 0 <= k < |s| ==> p(s[k])
    ensures Filter(p, s) == s
    decreases |s|
  {
    if s != [] {
      FilterAll(p, s[..|s| - 1]);
      assert s == s[..|s| - 1] + [s[|s| - 1]];
    }
  }

  lemma {:induction false} FilterNone(p: Token -> bool, s: seq<Token>)
    requires forall k :: 0 <= k < |s| ==> !p(s[k])
    ensures Filter(p, s) == []
    decreases |s|
  {
    if s != [] {
      FilterNone(p, s[..|s| - 1]);
    }
  }

  lemma {:induction false} FilterMembers(p: Token -> bool, s: seq<Token>)
    ensures forall x :: x in Filter(p, s) ==> x in s && p(x)
    decreases |s|
  {
    if s != [] {
      FilterMembers(p, s[..|s| - 1]);
    }
  }

  /** The numbers of a token sequence, in order. */
  function Numbers(ts: seq<Token>): seq<Token> { Filter(IsNumber, ts) }
}
