# A verified model of the calculator's expression pipeline

`src/calculator.py` evaluates arithmetic text in three stages:

1. `tokenize` splits the text into tokens:
   - whitespace is skipped;
   - a maximal run of digits and dots becomes one number token;
   - each of `+ - * / ( )` becomes a token of its own;
   - anything else is refused.
2. `infix_to_rpn` converts the infix token list to postfix (reverse Polish) order with the shunting-yard algorithm. It uses an operator stack and an output queue.
3. `evaluate_rpn` runs the postfix list on a value stack.

`calculate` chains the three stages. `is_number` decides which tokens the last two stages treat as numbers.

This project models each stage the way the source writes it: an imperative Dafny method with the source's loops. Each method is proved equal to a pure specification function, and the stage's properties are proved as lemmas about that function.

| stage | method | specification |
|---|---|---|
| tokenizer | `Lexer.Tokenize` (inner loop `Lexer.NumberRun`) | `Lexer.Lex` |
| converter | `Shunting.InfixToRpn` | `Shunting.Shunt` |
| evaluator | `Rpn.EvaluateRpn` | `Rpn.RpnValue` |
| whole pipeline | `Calculator.Calculate` | `Calculator.Value` |

**Numbers and errors**
- Numbers are exact `real`s. A number token's value is its decimal value: `Tokens.NumberValue`.
- Each kind of failure the source can raise is a constructor of `Tokens.Error`. Two pairs of the source's raises share a constructor: see "## Left out".

**The expression round trip** (module `Infix`). An expression tree is printed as the token list the tokenizer would produce for it. The model proves:
- the converter turns that list into the tree's postfix form;
- the evaluator computes the tree's value from the postfix form;
- scanning any whitespace layout of the printed tokens gives the tokens back.

Together these show that `calculate` respects precedence, left associativity and parentheses on every well-formed expression.

**The repository's tests.** Module `Examples` restates each test of `tests/test_calculator.py` as a lemma, with one exception. The test at tests/test_calculator.py:131-135 expects `((2+3)*((4-1)+2))/5` to equal 25: its expected value divides by 1 instead of 5. The source computes 5 for that text. `Examples.CalculateNested` proves the model's value is 5, so the model agrees with the source, not with that test.

## Model

| member | source | states |
|---|---|---|
| Tokens.IsSpace | src/calculator.py:7 | defines the whitespace the tokenizer skips: the ASCII characters for which `str.isspace` holds (space, tab, line feed, vertical tab, form feed, carriage return and the separators 0x1c-0x1f) |
| Tokens.IsDigit | src/calculator.py:10-13 | defines `str.isdigit` on ASCII: the characters `0` to `9` |
| Tokens.IsNumber | src/calculator.py:32-37 | defines `is_number` on the texts the tokenizer produces: non-empty, digits and dots only, at most one dot, and not a lone "." |
| Tokens.NumberShape | src/calculator.py:32-37 | a text is a number token if and only if it is made of digits and dots, has at most one dot and has at least one digit: the digit-and-dot texts `float()` accepts |
| Tokens.IsOperator | src/calculator.py:43-47 | defines the tokens in the precedence table: exactly the one-character texts `+ - * /` |
| Tokens.NumberValue | src/calculator.py:78 | defines `float(token)` exactly: the digits before the dot plus the digits after it over ten to their count; never negative |
| Tokens.NumberValueWhole | src/calculator.py:78 | a number token without a dot is worth the whole number its digits write |
| Tokens.NumberValueScaled | src/calculator.py:78 | a number token with a dot, multiplied by ten once per digit after the dot, is worth the whole number its digits write with the dot removed |
| Tokens.Prec | src/calculator.py:43 | `+` and `-` bind with strength 1, `*` and `/` with strength 2, and nothing else has a precedence |
| Tokens.DecimalToken | src/calculator.py:32-37 | digits with a single dot among them form a number token |
| Tokens.DigitToken | src/calculator.py:32-37 | a single digit is a number token, not an operator, and is worth that digit |
| Lexer.Lex | src/calculator.py:1-29 | defines the tokenizer's result on the text from a position: skip whitespace, take the maximal digit-and-dot run (a malformed number at its start if it has two dots or is "."), take an operator or parenthesis as its own token, and fail on any other character |
| Lexer.RunEnd | src/calculator.py:13 | the number run that starts at a position is maximal: every character in it is a digit or a dot, and the character after it, if any, is neither |
| Lexer.Tokenize | src/calculator.py:1-29 | the tokenizer's result is exactly `Lex` of the text, error included; on success the tokens concatenate to the text without its whitespace, and every token is a number, an operator or a parenthesis |
| Lexer.NumberRun | src/calculator.py:10-18 | the inner loop either stops at the end of the maximal run, having seen at most one dot, or reports a malformed number at the run's start exactly when the scan fails there |
| Lexer.LexRun | src/calculator.py:19-23 | a run that is a lone "." fails with a malformed number at its start; any other run of at most one dot becomes a token ahead of the rest of the scan |
| Lexer.LexSymbol | src/calculator.py:24-26 | an operator or parenthesis character becomes a one-character token ahead of the rest of the scan |
| Lexer.LexSecondDot | src/calculator.py:14-17 | a second dot anywhere inside a run makes the scan fail at the run's start |
| Lexer.LexConcat | src/calculator.py:1-29 | scanning only splits the text: the tokens concatenate to the text with its whitespace removed |
| Lexer.LexShape | src/calculator.py:10-26 | every token of a successful scan is a number with at most one dot that is not ".", or one of `+ - * / ( )` |
| Lexer.LexSucceeds | src/calculator.py:1-29 | a scan succeeds if and only if every character is whitespace, a digit, a dot or one of `+ - * / ( )`, and every maximal run has at most one dot and is not "."; a failure names a character that really occurs unsupported, or the start of a run that really is malformed |
| Lexer.LexBlank | src/calculator.py:5-9 | a text scans to no tokens if and only if it is empty or all whitespace |
| Lexer.LexUpToSpaces | src/calculator.py:7-9 | exchanging whitespace characters for other whitespace characters changes neither the tokens nor the error |
| Lexer.LexLayout | src/calculator.py:1-29 | scanning the tokens written out with any whitespace gaps gives the tokens back, provided no two numbers touch; this inverts writing tokens out |
| Shunting.Step | src/calculator.py:44-65 | defines one step of the converter: a number goes to the output; an operator first pops the tighter-or-equal operators, then is pushed; '(' is pushed; ')' pops to the nearest '('; any other token is the unexpected-token error |
| Shunting.Run | src/calculator.py:44-65 | defines the converter's loop: the steps in input order, stopping at the first error |
| Shunting.Shunt | src/calculator.py:40-71 | defines the converter's result: the loop over all tokens from an empty stack and output, then the final drain |
| Shunting.PopTighter | src/calculator.py:48-54 | before an operator is pushed, the stack is cut back to a prefix, and exactly the cut-off entries go to the output, top first |
| Shunting.PopTighterStops | src/calculator.py:48-54 | every entry popped is an operator binding at least as tightly as the incoming one; what is left on top is a '(', a looser operator or nothing |
| Shunting.PopToOpen | src/calculator.py:59-63 | a ')' pops everything above the nearest '(' to the output, top first, and discards that '('; with no '(' it fails with the missing-'(' error |
| Shunting.PopToOpenFinds | src/calculator.py:59-62 | popping to '(' succeeds if and only if the stack holds a '(', and then stops at the nearest one |
| Shunting.Drain | src/calculator.py:66-70 | the final drain succeeds if and only if no parenthesis is left on the stack, and then appends the stack top first; otherwise it reports the unbalanced-parentheses error |
| Shunting.InfixToRpn | src/calculator.py:40-71 | the converter, with its inner pop loops, returns exactly `Shunt` of its input, error included |
| Shunting.ShuntFails | src/calculator.py:40-71 | conversion fails if and only if a depth count refuses some token (an unexpected token, or a ')' with no open '(') or ends above zero; it reports the count's own error, or the unclosed-'(' error |
| Shunting.BalanceTokens | src/calculator.py:64-65 | a token list the depth count accepts has only numbers, operators and parentheses |
| Shunting.ShuntNumbers | src/calculator.py:44-46 | a successful conversion outputs the input's numbers in their original order |
| Shunting.ShuntTokens | src/calculator.py:40-71 | a successful conversion outputs every number and operator of the input exactly once, and no parenthesis |
| Shunting.ShuntOutput | src/calculator.py:40-71 | a successful conversion outputs only numbers and operators: the input's numbers in order, and its numbers and operators as a multiset |
| Rpn.Exec | src/calculator.py:76-96 | defines the evaluator's loop: the steps in postfix order on a value stack, stopping at the first error |
| Rpn.RpnValue | src/calculator.py:74-100 | defines the evaluator's result: the loop from an empty stack, then the one value left, or the malformed-expression error when not exactly one value is left |
| Rpn.Apply | src/calculator.py:84-93 | the four operators on two values; only a division by zero fails, with the division error |
| Rpn.ExecStep | src/calculator.py:76-96 | one evaluation step fails if and only if the token is neither a number nor an operator (the unexpected-token error), or is an operator and either fewer than two values are on the stack (insufficient operands) or it divides by zero; otherwise a number pushes its value and an operator replaces the top two values by its result |
| Rpn.EvaluateRpn | src/calculator.py:74-100 | the evaluator's loop returns exactly `RpnValue` of its input, error included |
| Rpn.ExecFails | src/calculator.py:76-96 | an evaluation fails exactly at a first failing step, after a prefix that evaluates smoothly, with that step's error |
| Rpn.ExecFailsAt | src/calculator.py:76-96 | a failing step after a smoothly evaluating prefix is the error of the whole evaluation |
| Rpn.ExecHeight | src/calculator.py:76-96 | each number raises the stack by one value and each operator lowers it by one |
| Rpn.ExecNeverMalformed | src/calculator.py:76-96 | no evaluation step reports a malformed expression; only the final check does |
| Rpn.RpnOutcome | src/calculator.py:97-100 | the result is malformed if and only if every token evaluates but the stack does not end at one value; a value is returned if and only if it ends at one value, which is the value returned |
| Rpn.RpnCounts | src/calculator.py:74-100 | a list with a value has exactly one more number than operators |
| Rpn.RpnShortOfOperands | src/calculator.py:80-81 | the insufficient-operands error occurs if and only if some operator meets fewer than two values after a smoothly evaluating prefix |
| Rpn.RpnDividesByZero | src/calculator.py:90-92 | the division error occurs if and only if some '/' meets a zero divisor after a smoothly evaluating prefix |
| Rpn.RpnUnexpected | src/calculator.py:95-96 | the unexpected-token error occurs if and only if a token that is neither a number nor an operator is reached after a smoothly evaluating prefix |
| Infix.PopTighterRun | src/calculator.py:48-54 | an operator pops exactly the run of at least as tight operators above a looser operator, a '(' or the bottom |
| Infix.PopToOpenRun | src/calculator.py:59-63 | a ')' pops exactly the operators above the '(' it closes |
| Infix.RunPrint | src/calculator.py:44-65 | reading a printed expression leaves its right-hand spine of operators on the stack and the rest of its postfix form on the output |
| Infix.PrintShunts | src/calculator.py:40-71 | the converter turns a printed well-formed expression into its postfix form |
| Infix.ExecPostfix | src/calculator.py:76-96 | evaluating an expression's postfix form pushes the expression's value, or stops with the expression's own error |
| Infix.PostfixValue | src/calculator.py:74-100 | the evaluator computes an expression's value from its postfix form |
| Infix.RoundTrip | src/calculator.py:103-106 | converting and then evaluating a printed expression gives the expression's value |
| Infix.PrintApart | src/calculator.py:1-29 | a printed expression consists of the tokenizer's token shapes, and no two numbers are adjacent in it |
| Infix.PrintReadable | src/calculator.py:1-29 | any whitespace gaps make a layout of a printed expression that the tokenizer reads back |
| Calculator.Value | src/calculator.py:103-106 | defines `calculate`: the tokens, then their postfix form, then its value, or the error of the first stage that fails |
| Calculator.Calculate | src/calculator.py:103-106 | `calculate` returns exactly `Value` of the text: the first stage's error, or the evaluation of the converted tokens |
| Calculator.BlankHasNoValue | src/calculator.py:97-99 | an empty or all-whitespace text fails as a malformed expression |
| Calculator.ScannedValue | src/calculator.py:103-106 | a text that scans to the printed form of an expression has that expression's value |
| Calculator.TextValue | src/calculator.py:103-106 | an expression written out with any whitespace around its tokens has the expression's value |
| Examples.TokenizeSimple | tests/test_calculator.py:8 | "1+2" scans to 1, +, 2 |
| Examples.TokenizeSpaced | tests/test_calculator.py:9 | " 3 + 4 * (2 -1) " scans to its nine tokens |
| Examples.TokenizeDecimals | tests/test_calculator.py:10 | "12.34/5.6" scans to 12.34, /, 5.6 |
| Examples.TokenizeTwoDots | tests/test_calculator.py:17 | "1..2 + 3" fails as a malformed number at position 0 |
| Examples.TokenizeLetter | tests/test_calculator.py:18 | "5 + a" fails on the unsupported character 'a' |
| Examples.TokenizeLoneDot | tests/test_calculator.py:19 | "." fails as a malformed number |
| Examples.TokenizeBlank | tests/test_calculator.py:26-31 | the empty text and "   \t\n" scan to no tokens |
| Examples.ConvertPrecedence | tests/test_calculator.py:35-39 | 3 + 4 * 2 / ( 1 - 5 ) converts to 3 4 2 * 1 5 - / + |
| Examples.ConvertUnclosed | tests/test_calculator.py:43 | ( 1 + 2 fails with the unclosed-'(' error |
| Examples.ConvertUnopened | tests/test_calculator.py:44 | 1 + 2 ) fails with the missing-'(' error |
| Examples.ConvertLeftAssociative | tests/test_calculator.py:51-53 | 2 - 3 - 4 converts to 2 3 - 4 - |
| Examples.ConvertNested | tests/test_calculator.py:56-58 | ( 1 + ( 2 * 3 ) ) - 4 converts to 1 2 3 * + 4 - |
| Examples.ConvertUnexpected | tests/test_calculator.py:61-63 | 1 foo 2 fails on the unexpected token "foo" |
| Examples.EvaluateSum | tests/test_calculator.py:68 | 3 4 + is 7 |
| Examples.EvaluateQuotient | tests/test_calculator.py:69 | 10 2 / 3 * is 15 |
| Examples.EvaluateClassic | tests/test_calculator.py:70 | 5 1 2 + 4 * + 3 - is 14 |
| Examples.EvaluateDivisionByZero | tests/test_calculator.py:77-79 | 1 0 / fails with the division error |
| Examples.EvaluateShort | tests/test_calculator.py:82-84 | 1 + fails with too few operands |
| Examples.EvaluateLeftover | tests/test_calculator.py:88 | 1 2 fails as a malformed expression |
| Examples.EvaluateLeftoverAfterSum | tests/test_calculator.py:89 | 1 2 + 3 fails as a malformed expression |
| Examples.CalculateSum | tests/test_calculator.py:98 | "1 + 2" is 3 |
| Examples.CalculatePrecedence | tests/test_calculator.py:99 | "2*3 + 4" is 10 |
| Examples.CalculateGroup | tests/test_calculator.py:100 | "(2+3)*4" is 20 |
| Examples.CalculateMixed | tests/test_calculator.py:101 | "3 + 4 * 2 / (1 - 5)" is 1 |
| Examples.CalculateIncomplete | tests/test_calculator.py:108 | "1 +" fails with too few operands |
| Examples.CalculateUnclosed | tests/test_calculator.py:109 | "(" fails with the unclosed-'(' error |
| Examples.CalculateDivisionByZero | tests/test_calculator.py:110 | "2 / 0" fails with the division error |
| Examples.CalculateBlank | tests/test_calculator.py:117-120 | "" and "   " fail as malformed expressions |
| Examples.CalculateFractions | tests/test_calculator.py:124 | ".5+1" is 1.5 |
| Examples.CalculateTrailingDot | tests/test_calculator.py:125 | "5.+2" is 7 |
| Examples.CalculateNested | tests/test_calculator.py:131-135 | "((2+3)*((4-1)+2))/5" is 5, not the 25 the test expects |

## Left out

- `main` (src/calculator.py:109-123) is left out. It is the interactive read-print loop, which is console I/O.
- Floating point is not modelled. Values are exact reals, so rounding, overflow to infinity and negative zero are absent. The source's `b == 0` division check is kept as `b == 0.0`.
- Tokens.IsNumber: it models `is_number` (src/calculator.py:32-37) only on the shape the tokenizer produces: digits with at most one dot, not a lone ".". Python's `float()` also accepts texts such as "inf", "nan", "1e5", "1_0", " 1 " and signed numbers. Those texts can reach `infix_to_rpn` and `evaluate_rpn` only when the two stages are called directly on hand-made token lists. In the model such tokens are unexpected tokens.
- Tokens.NumberValue: it gives the exact decimal value of a number token, where the source uses the nearest binary float.
- Tokens.IsSpace: `str.isspace` and `str.isdigit` are modelled on ASCII only. Unicode whitespace and Unicode digits (which `isdigit` accepts but `float()` may refuse) are not covered.
- Error messages and exception classes are not modelled, only which error occurs. The source raises `ValueError` for everything except division by zero, which raises `ZeroDivisionError`. The Russian message texts are not reproduced.
- The converter's unexpected-token error (src/calculator.py:65) and the evaluator's (src/calculator.py:96) are both `UnexpectedToken` with the token. Which stage raised it is not recorded, and the two messages are not distinguished.
- The two number-format failures share one error, `MalformedNumber`, which records the run's start. The source's message for a lone "." (src/calculator.py:21) names the token instead of the position.
