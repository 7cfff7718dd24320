/** The tokenizer of src/calculator.py (`tokenize`, lines 1-29): a pure
    specification `Lex`, the imperative scan `Tokenize` proved equal to it,
    and what a successful or failed scan says about the input. */
module Lexer {
  import opened Tokens

  /** End of the maximal run of digits and dots that starts at `i`. */
  function RunEnd(s: string, i: nat): (j: nat)
    requires i <= |s|
    ensures i <= j <= |s|
    ensures forall k :: i <= k < j ==> IsNumChar(s[k])
    ensures j == |s| || !IsNumChar(s[j])
    decreases |s| - i
  {
    if i < |s| && IsNumChar(s[i]) then RunEnd(s, i + 1) else i
  }

  /** A number run is accepted when it has at most one dot and is not ".". */
  predicate ValidRun(run: string) { DotCount(run) <= 1 && run != "." }

  /** The token list of `s[i..]`, scanning left to right as the source does. */
  function Lex(s: string, i: nat): Result<seq<Token>>
    requires i <= |s|
    decreases |s| - i
  {
    if i == |s| then Ok([])
    else if IsSpace(s[i]) then Lex(s, i + 1)
    else if IsNumChar(s[i]) then
      var j := RunEnd(s, i);
      var run := s[i..j];
      if !ValidRun(run) then Err(MalformedNumber(i))
      else Prepend([run], Lex(s, j))
    else if IsSymbolChar(s[i]) then Prepend([[s[i]]], Lex(s, i + 1))
    else Err(UnsupportedChar(s[i]))
  }

  /** The tokenizer: skips whitespace, takes maximal number runs (rejecting a
      second dot as soon as it is seen, and a lone "."), emits each of
      + - * / ( ) as its own token, and rejects any other character. */
  method Tokenize(expr: string) returns (r: Result<seq<Token>>)
    ensures r == Lex(expr, 0)
    ensures r.Ok? ==> Concat(r.value) == WithoutSpaces(expr)
    ensures r.Ok? ==> forall k :: 0 <= k < |r.value| ==> IsLexeme(r.value[k])
  {
    var tokens: seq<Token> := [];
    var i := 0;
    var length := |expr|;
    PrependNothing(Lex(expr, 0));
    while i < length
      invariant 0 <= i <= length
      invariant Lex(expr, 0) == Prepend(tokens, Lex(expr, i))
      decreases length - i
    {
      var ch := expr[i];
      if IsSpace(ch) {
        i := i + 1;
        continue;
      }
      if IsNumChar(ch) {
        var run := NumberRun(expr, i);
        if run.Err? {
          r := Err(run.error);
          return;
        }
        var j := run.value;
        var token := expr[i..j];
        LexRun(expr, i, j);
        if token == "." {
          r := Err(MalformedNumber(i));
          return;
        }
        PrependTwice(tokens, [token], Lex(expr, j));
        tokens := tokens + [token];
        i := j;
      } else if IsSymbolChar(ch) {
        LexSymbol(expr, i);
        PrependTwice(tokens, [[ch]], Lex(expr, i + 1));
        tokens := tokens + [[ch]];
        i := i + 1;
      } else {
        r := Err(UnsupportedChar(ch));
        return;
      }
    }
    r := Ok(tokens);
    assert tokens + [] == tokens;
    if r.Ok? {
      LexConcat(expr, 0);
      LexShape(expr, 0);
    }
  }

  /** The inner loop of the tokenizer: reads the number run that starts at
      `i`, counting its dots, and stops at its end or at a second dot. */
  method NumberRun(expr: string, i: nat) returns (r: Result<nat>)
    requires i < |expr| && IsNumChar(expr[i])
    ensures r.Err? ==> r.error == MalformedNumber(i) && Lex(expr, i) == Err(MalformedNumber(i))
    ensures r.Ok? ==> r.value == RunEnd(expr, i) && DotCount(expr[i..r.value]) <= 1
  {
    var length := |expr|;
    var j := i;
    var dotCount := 0;
    while j < length && IsNumChar(expr[j])
      invariant i <= j <= length
      invariant RunEnd(expr, j) == RunEnd(expr, i)
      invariant dotCount == DotCount(expr[i..j]) <= 1
      decreases length - j
    {
      DotCountStep(expr, i, j);
      if expr[j] == '.' {
        dotCount := dotCount + 1;
        if dotCount > 1 {
          LexSecondDot(expr, i, j);
          return Err(MalformedNumber(i));
        }
      }
      j := j + 1;
    }
    return Ok(j);
  }

  /** The scan at the start of a number run, once the run has been read. */
  lemma LexRun(s: string, i: nat, j: nat)
    requires i <= j <= |s| && i < |s| && IsNumChar(s[i])
    requires RunEnd(s, j) == RunEnd(s, i) && (j == |s| || !IsNumChar(s[j]))
    requires DotCount(s[i..j]) <= 1
    ensures s[i..j] == "." ==> Lex(s, i) == Err(MalformedNumber(i))
    ensures s[i..j] != "." ==> Lex(s, i) == Prepend([s[i..j]], Lex(s, j))
  {
  }

  /** The scan at an operator or parenthesis. */
  lemma LexSymbol(s: string, i: nat)
    requires i < |s| && IsSymbolChar(s[i])
    ensures Lex(s, i) == Prepend([[s[i]]], Lex(s, i + 1))
  {
  }

  lemma DotCountStep(s: string, i: nat, j: nat)
    requires i <= j < |s|
    ensures DotCount(s[i..j + 1]) == DotCount(s[i..j]) + (if s[j] == '.' then 1 else 0)
  {
    assert s[i..j + 1] == s[i..j] + [s[j]];
    DotCountAppend(s[i..j], [s[j]]);
    assert [s[j]][..0] == [];
  }

  /** A second dot inside a number run makes the run malformed, so the scan
      fails there at the run's start. */
  lemma LexSecondDot(s: string, i: nat, j: nat)
    requires i <= j < |s| && IsNumChar(s[i]) && IsNumChar(s[j])
    requires RunEnd(s, j) == RunEnd(s, i)
    requires DotCount(s[i..j + 1]) > 1
    ensures Lex(s, i) == Err(MalformedNumber(i))
  {
    RunPast(s, i, j);
    ManyDots(s, i, j);
    LexMalformed(s, i);
  }

  /** A number character inside a run lies before the run's end. */
  lemma RunPast(s: string, i: nat, j: nat)
    requires i <= j < |s| && IsNumChar(s[j]) && RunEnd(s, j) == RunEnd(s, i)
    ensures j < RunEnd(s, i)
  {
    assert RunEnd(s, j) == RunEnd(s, j + 1);
  }

  /** A run with two dots in a prefix is not a valid number. */
  lemma ManyDots(s: string, i: nat, j: nat)
    requires i <= j && i <= |s| && j < RunEnd(s, i) && DotCount(s[i..j + 1]) > 1
    ensures !ValidRun(s[i..RunEnd(s, i)])
  {
    var run := s[i..RunEnd(s, i)];
    DotCountPrefix(run, j + 1 - i);
    assert run[..j + 1 - i] == s[i..j + 1];
  }

  /** The scan fails at the start of an invalid run. */
  lemma LexMalformed(s: string, i: nat)
    requires i < |s| && IsNumChar(s[i]) && !ValidRun(s[i..RunEnd(s, i)])
    ensures Lex(s, i) == Err(MalformedNumber(i))
  {
    assert !IsSpace(s[i]);
  }

  /** A prefix never has more dots than the whole string. */
  lemma {:induction false} DotCountPrefix(s: string, n: nat)
    requires n <= |s|
    ensures DotCount(s[..n]) <= DotCount(s)
    decreases |s|
  {
    if n < |s| {
      DotCountPrefix(s[..|s| - 1], n);
      assert s[..|s| - 1][..n] == s[..n];
    } else {
      assert s[..n] == s;
    }
  }

  // ---- what a successful scan says about its tokens ----

  /** The tokens laid end to end. */
  function Concat(ts: seq<Token>): string {
    if ts == [] then [] else ts[0] + Concat(ts[1..])
  }

  /** The input with every whitespace character removed. */
  function WithoutSpaces(s: string): string {
    if s == [] then []
    else if IsSpace(s[0]) then WithoutSpaces(s[1..])
    else [s[0]] + WithoutSpaces(s[1..])
  }

  /** The shape of every token the tokenizer emits. */
  predicate IsLexeme(t: Token) { IsNumber(t) || (|t| == 1 && IsSymbolChar(t[0])) }

  /** A one-character symbol token is a lexeme and not a number. */
  lemma SymbolLexeme(c: char)
    requires IsSymbolChar(c)
    ensures IsLexeme([c]) && !IsNumber([c])
  {
    assert !IsNumChar([c][0]);
  }

  lemma {:induction false} WithoutSpacesAppend(a: string, b: string)
    ensures WithoutSpaces(a + b) == WithoutSpaces(a) + WithoutSpaces(b)
    decreases |a|
  {
    if a == [] {
      assert a + b == b;
    } else {
      assert (a + b)[1..] == a[1..] + b;
      WithoutSpacesAppend(a[1..], b);
    }
  }

  lemma {:induction false} WithoutSpacesNone(s: string)
    requires forall k :: 0 <= k < |s| ==> !IsSpace(s[k])
    ensures WithoutSpaces(s) == s
    decreases |s|
  {
    if s != [] {
      WithoutSpacesNone(s[1..]);
    }
  }

  /** Scanning only splits: the tokens concatenate to the input without its
      whitespace. */
  lemma {:induction false} LexConcat(s: string, i: nat)
    requires i <= |s|
    ensures Lex(s, i).Ok? ==> Concat(Lex(s, i).value) == WithoutSpaces(s[i..])
    decreases |s| - i
  {
    if i < |s| && Lex(s, i).Ok? {
      assert s[i..] == [s[i]] + s[i + 1..];
      WithoutSpacesAppend([s[i]], s[i + 1..]);
      if IsSpace(s[i]) {
        LexConcat(s, i + 1);
      } else if IsNumChar(s[i]) {
        var j := RunEnd(s, i);
        LexConcat(s, j);
        var ts := Lex(s, i).value;
        assert ts == [s[i..j]] + Lex(s, j).value;
        assert ts[1..] == Lex(s, j).value;
        assert s[i..] == s[i..j] + s[j..];
        WithoutSpacesAppend(s[i..j], s[j..]);
        WithoutSpacesNone(s[i..j]);
      } else {
        LexConcat(s, i + 1);
        var ts := Lex(s, i).value;
        assert ts[1..] == Lex(s, i + 1).value;
        assert WithoutSpaces([s[i]]) == [s[i]];
      }
    }
  }

  /** Every token of a successful scan is an operator, a parenthesis or a
      number with at most one dot that is not a lone ".". */
  lemma {:induction false} LexShape(s: string, i: nat)
    requires i <= |s|
    ensures Lex(s, i).Ok? ==> forall k :: 0 <= k < |Lex(s, i).value| ==> IsLexeme(Lex(s, i).value[k])
    decreases |s| - i
  {
    if i < |s| && Lex(s, i).Ok? {
      if IsSpace(s[i]) {
        LexShape(s, i + 1);
      } else if IsNumChar(s[i]) {
        var j := RunEnd(s, i);
        LexShape(s, j);
        var run := s[i..j];
        assert IsNumber(run);
      } else {
        LexShape(s, i + 1);
      }
    }
  }

  // ---- when a scan succeeds, and why it fails ----

  predicate AllSupported(s: string, i: nat)
    requires i <= |s|
  {
    forall k :: i <= k < |s| ==> Supported(s[k])
  }

  /** Position `a` of `s[i..]` starts a maximal run of digits and dots. */
  predicate RunStart(s: string, i: nat, a: nat) {
    i <= a < |s| && IsNumChar(s[a]) && (a == i || !IsNumChar(s[a - 1]))
  }

  /** Every maximal number run of `s[i..]` is a well-formed number. */
  ghost predicate RunsValid(s: string, i: nat)
    requires i <= |s|
  {
    forall a: nat :: RunStart(s, i, a) ==> ValidRun(s[a..RunEnd(s, a)])
  }

  /** What an error reports is really in the input: an unsupported character
      occurs in it, or a malformed number run starts at the reported place. */
  ghost predicate Explains(s: string, i: nat, e: Error)
    requires i <= |s|
  {
    match e
    case UnsupportedChar(c) => exists k :: i <= k < |s| && s[k] == c && !Supported(c)
    case MalformedNumber(p) => RunStart(s, i, p) && !ValidRun(s[p..RunEnd(s, p)])
    case _ => false
  }

  lemma {:induction false} LexOkInput(s: string, i: nat)
    requires i <= |s|
    ensures Lex(s, i).Ok? ==> AllSupported(s, i) && RunsValid(s, i)
    decreases |s| - i
  {
    if i < |s| && Lex(s, i).Ok? {
      var j := if IsNumChar(s[i]) then RunEnd(s, i) else i + 1;
      LexOkInput(s, j);
      forall a: nat | RunStart(s, i, a) ensures ValidRun(s[a..RunEnd(s, a)]) {
        if a != i {
          assert RunStart(s, j, a);
        }
      }
    }
  }

  lemma {:induction false} LexErrInput(s: string, i: nat)
    requires i <= |s|
    ensures Lex(s, i).Err? ==> Explains(s, i, Lex(s, i).error)
    decreases |s| - i
  {
    if i < |s| && Lex(s, i).Err? {
      var e := Lex(s, i).error;
      if !Supported(s[i]) {
        assert Explains(s, i, e);
      } else if IsNumChar(s[i]) && !ValidRun(s[i..RunEnd(s, i)]) {
        assert RunStart(s, i, i);
      } else {
        var j := if IsNumChar(s[i]) then RunEnd(s, i) else i + 1;
        LexErrInput(s, j);
        assert Lex(s, j).error == e;
        match e
        case UnsupportedChar(c) => {
          var k :| j <= k < |s| && s[k] == c && !Supported(c);
          assert i <= k;
        }
        case MalformedNumber(p) => {
          assert RunStart(s, j, p);
          assert RunStart(s, i, p);
        }
      }
    }
  }

  /** A scan succeeds exactly when every character is whitespace, a digit, a
      dot or one of + - * / ( ), and every maximal number run has at most one
      dot and is not a lone "."; a failure names a real offending character or
      the start of a real malformed run. */
  lemma LexSucceeds(s: string)
    ensures Lex(s, 0).Ok? <==> AllSupported(s, 0) && RunsValid(s, 0)
    ensures Lex(s, 0).Err? ==> Explains(s, 0, Lex(s, 0).error)
  {
    LexOkInput(s, 0);
    LexErrInput(s, 0);
    if Lex(s, 0).Err? {
      match Lex(s, 0).error
      case UnsupportedChar(c) => {
        var k :| 0 <= k < |s| && s[k] == c && !Supported(c);
        assert !AllSupported(s, 0);
      }
      case MalformedNumber(p) => {
        assert !RunsValid(s, 0);
      }
    }
  }

  /** A blank input (empty or whitespace only) scans to no tokens, and it is
      the only kind of input that does. */
  lemma {:induction false} LexBlank(s: string, i: nat)
    requires i <= |s|
    ensures Lex(s, i) == Ok([]) <==> forall k :: i <= k < |s| ==> IsSpace(s[k])
    decreases |s| - i
  {
    if i < |s| {
      LexBlank(s, i + 1);
      if !IsSpace(s[i]) && Lex(s, i).Ok? {
        if IsNumChar(s[i]) {
          assert Lex(s, i).value[0] == s[i..RunEnd(s, i)];
        } else {
          assert Lex(s, i).value[0] == [s[i]];
        }
      }
    }
  }

  /** `s` and `t` differ at most by one whitespace character standing for
      another. */
  predicate SameUpToSpaces(s: string, t: string) {
    |s| == |t| && forall k :: 0 <= k < |s| ==> s[k] == t[k] || (IsSpace(s[k]) && IsSpace(t[k]))
  }

  lemma {:induction false} RunEndUpToSpaces(s: string, t: string, i: nat)
    requires SameUpToSpaces(s, t) && i <= |s|
    ensures RunEnd(s, i) == RunEnd(t, i)
    ensures s[i..RunEnd(s, i)] == t[i..RunEnd(t, i)]
    decreases |s| - i
  {
    if i < |s| && IsNumChar(s[i]) {
      RunEndUpToSpaces(s, t, i + 1);
      assert s[i] == t[i];
      assert s[i..RunEnd(s, i)] == [s[i]] + s[i + 1..RunEnd(s, i)];
      assert t[i..RunEnd(t, i)] == [t[i]] + t[i + 1..RunEnd(t, i)];
    } else if i < |s| {
      assert !IsNumChar(t[i]);
    }
  }

  /** Whitespace is interchangeable: replacing whitespace characters by other
      whitespace characters yields the same tokens or the same error. */
  lemma {:induction false} LexUpToSpaces(s: string, t: string, i: nat)
    requires SameUpToSpaces(s, t) && i <= |s|
    ensures Lex(s, i) == Lex(t, i)
    decreases |s| - i
  {
    if i < |s| {
      RunEndUpToSpaces(s, t, i);
      if IsSpace(s[i]) {
        LexUpToSpaces(s, t, i + 1);
        assert IsSpace(t[i]);
      } else {
        assert s[i] == t[i];
        if IsNumChar(s[i]) {
          LexUpToSpaces(s, t, RunEnd(s, i));
        } else {
          LexUpToSpaces(s, t, i + 1);
        }
      }
    }
  }

  // ---- scanning a written-out token list gives it back ----

  /** Tokens written out with a whitespace gap before, between and after
      them: gaps[k] precedes ts[k], and the last gap ends the text. */
  function Layout(ts: seq<Token>, gaps: seq<string>): string
    requires |gaps| == |ts| + 1
    decreases |ts|
  {
    if ts == [] then gaps[0] else gaps[0] + ts[0] + Layout(ts[1..], gaps[1..])
  }

  predicate Blank(g: string) { forall k :: 0 <= k < |g| ==> IsSpace(g[k]) }

  /** A layout the scanner reads back: tokens of the scanner's shapes,
      whitespace gaps, and a non-empty gap between two adjacent numbers
      (which would otherwise run together). */
  predicate Readable(ts: seq<Token>, gaps: seq<string>) {
    && |gaps| == |ts| + 1
    && (forall k :: 0 <= k < |gaps| ==> Blank(gaps[k]))
    && (forall k :: 0 <= k < |ts| ==> IsLexeme(ts[k]))
    && (forall k :: 0 < k < |ts| && IsNumber(ts[k - 1]) && IsNumber(ts[k]) ==> gaps[k] != [])
  }

  lemma {:induction false} LexSkip(s: string, i: nat, n: nat)
    requires i + n <= |s| && forall k :: i <= k < i + n ==> IsSpace(s[k])
    ensures Lex(s, i) == Lex(s, i + n)
    decreases n
  {
    if n > 0 {
      LexSkip(s, i + 1, n - 1);
    }
  }

  lemma {:induction false} RunEndAt(s: string, i: nat, j: nat)
    requires i <= j <= |s|
    requires forall k :: i <= k < j ==> IsNumChar(s[k])
    requires j == |s| || !IsNumChar(s[j])
    ensures RunEnd(s, i) == j
    decreases j - i
  {
    if i < j {
      RunEndAt(s, i + 1, j);
    }
  }

  lemma ReadableRest(ts: seq<Token>, gaps: seq<string>)
    requires Readable(ts, gaps) && ts != []
    ensures Readable(ts[1..], gaps[1..])
  {
    var rest, more := ts[1..], gaps[1..];
    assert forall k :: 0 <= k < |more| ==> more[k] == gaps[k + 1];
    assert forall k :: 0 <= k < |rest| ==> rest[k] == ts[k + 1];
  }

  /** What follows a token in a layout: a gap character, the next token's
      first character, or the end of the text; after a number it is never a
      digit or a dot. */
  lemma LayoutNext(ts: seq<Token>, gaps: seq<string>)
    requires Readable(ts, gaps) && ts != []
    ensures var after := Layout(ts[1..], gaps[1..]);
      IsNumber(ts[0]) ==> after == [] || !IsNumChar(after[0])
  {
    var after := Layout(ts[1..], gaps[1..]);
    var g := gaps[1];
    if IsNumber(ts[0]) && after != [] {
      if |ts| == 1 {
        assert after == g;
        assert IsSpace(g[0]);
      } else if g != [] {
        assert after[0] == g[0];
        assert IsSpace(g[0]);
      } else {
        assert after == g + ts[1] + Layout(ts[2..], gaps[2..]);
        assert after[0] == ts[1][0];
        assert IsLexeme(ts[1]) && !IsNumber(ts[1]);
      }
    }
  }

  lemma LexNumberAt(s: string, a: nat, t: Token, rest: seq<Token>)
    requires IsNumber(t) && a + |t| <= |s| && s[a..a + |t|] == t
    requires a + |t| == |s| || !IsNumChar(s[a + |t|])
    requires Lex(s, a + |t|) == Ok(rest)
    ensures Lex(s, a) == Ok([t] + rest)
  {
    var b := a + |t|;
    assert forall k :: a <= k < b ==> s[k] == t[k - a];
    RunEndAt(s, a, b);
    assert s[a] == t[0];
  }

  lemma LexSymbolAt(s: string, a: nat, t: Token, rest: seq<Token>)
    requires |t| == 1 && IsSymbolChar(t[0]) && a < |s| && s[a] == t[0]
    requires Lex(s, a + 1) == Ok(rest)
    ensures Lex(s, a) == Ok([t] + rest)
  {
    assert [s[a]] == t;
  }

  /** One-character steps of the scanner: a space, a single-digit number
      and a symbol. */
  lemma LexSpaceAt(s: string, a: nat)
    requires a < |s| && IsSpace(s[a])
    ensures Lex(s, a) == Lex(s, a + 1)
  {
  }

  lemma LexDigitAt(s: string, a: nat, rest: seq<Token>)
    requires a < |s| && IsDigit(s[a]) && (a + 1 == |s| || !IsNumChar(s[a + 1]))
    requires Lex(s, a + 1) == Ok(rest)
    ensures Lex(s, a) == Ok([[s[a]]] + rest)
  {
    DigitToken(s[a]);
    LexNumberAt(s, a, [s[a]], rest);
  }

  lemma LexCharAt(s: string, a: nat, rest: seq<Token>)
    requires a < |s| && IsSymbolChar(s[a]) && Lex(s, a + 1) == Ok(rest)
    ensures Lex(s, a) == Ok([[s[a]]] + rest)
  {
  }

  /** Where the pieces of `g + t + after` lie in `s` when that is `s[i..]`. */
  lemma SliceParts(s: string, i: nat, g: string, t: string, after: string)
    requires i <= |s| && s[i..] == g + t + after
    ensures i + |g| + |t| <= |s|
    ensures forall k :: i <= k < i + |g| ==> s[k] == g[k - i]
    ensures s[i + |g|..i + |g| + |t|] == t
    ensures s[i + |g| + |t|..] == after
  {
    assert forall k :: i <= k < i + |g| ==> s[k] == s[i..][k - i];
  }

  /** A blank gap is skipped. */
  lemma LexGap(s: string, i: nat, g: string)
    requires i + |g| <= |s| && Blank(g)
    requires forall k :: i <= k < i + |g| ==> s[k] == g[k - i]
    ensures Lex(s, i) == Lex(s, i + |g|)
  {
    LexSkip(s, i, |g|);
  }

  /** A gap and then a lexeme are scanned as that lexeme, once what follows
      is scanned; a number must not be followed by a number character. */
  lemma LexTokenAfterGap(s: string, i: nat, g: string, t: Token, rest: seq<Token>)
    requires i + |g| + |t| <= |s| && Blank(g) && IsLexeme(t)
    requires forall k :: i <= k < i + |g| ==> s[k] == g[k - i]
    requires s[i + |g|..i + |g| + |t|] == t
    requires IsNumber(t) ==> i + |g| + |t| == |s| || !IsNumChar(s[i + |g| + |t|])
    requires Lex(s, i + |g| + |t|) == Ok(rest)
    ensures Lex(s, i) == Ok([t] + rest)
  {
    LexGap(s, i, g);
    var a := i + |g|;
    if IsNumber(t) {
      LexNumberAt(s, a, t, rest);
    } else {
      assert s[a] == t[0] by {
        assert s[a..a + |t|][0] == s[a];
      }
      LexSymbolAt(s, a, t, rest);
    }
  }

  /** A text that goes on with no number character ends a number run. */
  lemma NumberEnds(s: string, b: nat, t: Token, after: string)
    requires b <= |s| && s[b..] == after
    requires IsNumber(t) ==> after == [] || !IsNumChar(after[0])
    ensures IsNumber(t) ==> b == |s| || !IsNumChar(s[b])
  {
    if b < |s| {
      assert s[b] == after[0];
    }
  }

  /** What a readable layout says about the text at its first token. */
  lemma LayoutHead(s: string, i: nat, ts: seq<Token>, gaps: seq<string>)
    requires i <= |s| && Readable(ts, gaps) && ts != [] && s[i..] == Layout(ts, gaps)
    ensures i + |gaps[0]| + |ts[0]| <= |s| && Blank(gaps[0]) && IsLexeme(ts[0])
    ensures forall k :: i <= k < i + |gaps[0]| ==> s[k] == gaps[0][k - i]
    ensures s[i + |gaps[0]|..i + |gaps[0]| + |ts[0]|] == ts[0]
    ensures IsNumber(ts[0]) ==> i + |gaps[0]| + |ts[0]| == |s| || !IsNumChar(s[i + |gaps[0]| + |ts[0]|])
    ensures s[i + |gaps[0]| + |ts[0]|..] == Layout(ts[1..], gaps[1..])
  {
    var after := Layout(ts[1..], gaps[1..]);
    SliceParts(s, i, gaps[0], ts[0], after);
    LayoutNext(ts, gaps);
    NumberEnds(s, i + |gaps[0]| + |ts[0]|, ts[0], after);
  }

  /** A layout without tokens is a last gap, which scans to nothing. */
  lemma LexLayoutEnd(s: string, i: nat, ts: seq<Token>, gaps: seq<string>)
    requires i <= |s| && Readable(ts, gaps) && s[i..] == Layout(ts, gaps) && ts == []
    ensures Lex(s, i) == Ok(ts)
  {
    SliceParts(s, i, gaps[0], [], []);
    LexGap(s, i, gaps[0]);
  }

  /** What is left after the first gap and token of a layout is the layout
      of the rest. */
  lemma LayoutTail(s: string, i: nat, ts: seq<Token>, gaps: seq<string>)
    requires i <= |s| && Readable(ts, gaps) && ts != [] && s[i..] == Layout(ts, gaps)
    ensures i + |gaps[0]| + |ts[0]| <= |s| && Readable(ts[1..], gaps[1..])
    ensures s[i + |gaps[0]| + |ts[0]|..] == Layout(ts[1..], gaps[1..])
  {
    LayoutHead(s, i, ts, gaps);
    ReadableRest(ts, gaps);
  }

  /** A layout scans to its first token, followed by what the rest scans to. */
  lemma LexLayoutHead(s: string, i: nat, ts: seq<Token>, gaps: seq<string>)
    requires i <= |s| && Readable(ts, gaps) && ts != [] && s[i..] == Layout(ts, gaps)
    requires i + |gaps[0]| + |ts[0]| <= |s| && Lex(s, i + |gaps[0]| + |ts[0]|) == Ok(ts[1..])
    ensures Lex(s, i) == Ok(ts)
  {
    var g, t, rest := gaps[0], ts[0], ts[1..];
    LayoutHead(s, i, ts, gaps);
    LexTokenAfterGap(s, i, g, t, rest);
    assert ts == [t] + rest;
  }

  /** Scanning a readable layout of a token list yields that list: the
      scanner inverts writing the tokens out. */
  lemma {:induction false} LexLayout(s: string, i: nat, ts: seq<Token>, gaps: seq<string>)
    requires i <= |s| && Readable(ts, gaps) && s[i..] == Layout(ts, gaps)
    ensures Lex(s, i) == Ok(ts)
    decreases |ts|
  {
    if ts == [] {
      LexLayoutEnd(s, i, ts, gaps);
    } else {
      LayoutTail(s, i, ts, gaps);
      LexLayout(s, i + |gaps[0]| + |ts[0]|, ts[1..], gaps[1..]);
      LexLayoutHead(s, i, ts, gaps);
    }
  }
}
