# easycalc in Dafny

A model of the two calculators of the easycalc front end, with proofs of their behaviour.

**`Calculator`** (`easycalc_frontend/src/Calculator.js`) collects the keys as a token list: operands, with operators between them. On `=` it evaluates the list with a two-stack machine (`evaluateExpression`). Multiplication and division bind tighter than addition and subtraction, and equal precedence associates to the left.

**`EasyCalc`** (`easycalc_frontend/src/EasyCalc.js`) is an eager two-operand machine. A pending operation is carried out as soon as the next operator or `=` arrives, so evaluation is strictly left to right. A computed result is shown cut to twelve characters.

The project has four modules:

- `Numbers` (`numbers.dfy`):
  - JavaScript numbers, as a finite value or NaN;
  - the outcome of an evaluation, as a number or the string "Error";
  - `parseFloat` on the strings the calculators build;
  - `isValidNumber`.
- `Expression` (`expression.dfy`):
  - the `OPERATORS` table;
  - `evaluateExpression`, written twice. `EvaluateExpression` is an imperative method over two stacks, as in the source. `Run` is the same machine written as functions.
  - a precedence grammar (`Eval`), the independent reference definition. `Run` is proved equal to `Eval` on every well-formed token list.
- `Calculator` (`calculator.dfy`):
  - `handleButtonClick` as transition functions over the three state fields (`display`, `waitingForOperand`, `expr`), with the operator key as written: once the list ends in an operator, every operator key replaces it (see "## Findings");
  - the class `Calculator.Machine`, which holds those fields and updates them in place. It is proved to follow the transition functions;
  - `NextIntended` and `PressAllIntended`, the same machine with the operator key corrected. The evaluation order the calculator's tests expect ("2 + 3 × 4 =" shows 14) is proved on them.
- `EasyCalc` (`easycalc.dfy`):
  - the five handlers and `calculate` as functions of the four state fields;
  - the class `EasyCalc.Machine`, which updates the fields in place and is proved to agree with those functions.

How numbers are modelled:

- Exact reals stand for IEEE-754 doubles.
- `Number.prototype.toString` of a finite number is the parameter `render: real -> string`. It is a built-in whose formatting the model does not fix.
- `toFixed(8)` followed by `parseFloat` is modelled exactly on reals: it rounds to eight decimals, with halves going away from zero.
- Popping an empty JavaScript array gives `undefined`. Every arithmetic operation the calculators perform treats it as NaN, so the model pops NaN.

## Model

| member | source | states |
|---|---|---|
| Numbers.ValidNumberParses | easycalc_frontend/src/Calculator.js:57-59 | every string `isValidNumber` accepts is a number for `parseFloat` |
| Numbers.TrailingPointParsesButIsNotValid | easycalc_frontend/src/Calculator.js:57-59 | the converse fails: "5." reads as 5 but the regular expression refuses it |
| Numbers.ParseNatToString | easycalc_frontend/src/Calculator.js:85 | the decimal rendering of a natural number reads back as that number |
| Numbers.AppendDigitValue | easycalc_frontend/src/Calculator.js:85 | a digit appended to a whole-number string gives ten times its value plus the digit |
| Expression.SymbolRoundTrip | easycalc_frontend/src/Calculator.js:46-54 | the four operator symbols and the operators are in one-to-one correspondence |
| Expression.Precedence | easycalc_frontend/src/Calculator.js:46-54 | precedence is 1 or 2, and 2 exactly for × and ÷ |
| Expression.Apply | easycalc_frontend/src/Calculator.js:46-54 | the result is "Error" exactly for ÷ by zero; NaN in gives NaN out; finite in gives finite out |
| Expression.PopNum | easycalc_frontend/src/Calculator.js:77-78 | popping a non-empty stack gives its top and a prefix one shorter; an empty stack gives NaN (`undefined`) and stays empty |
| Expression.ReduceStacks | easycalc_frontend/src/Calculator.js:71-98 | popping and applying while the top operator has precedence at least the bound gives `Reduce` of the stacks; it fails exactly when `Reduce` is "Error" |
| Expression.ShiftToken | easycalc_frontend/src/Calculator.js:69-88 | one pass of the outer loop body gives the stacks of `Step`, and fails exactly when `Step` does |
| Expression.EvaluateExpression | easycalc_frontend/src/Calculator.js:62-100 | the in-place two-stack loop returns `Run(sequence)`, and on a well-formed list the value of the precedence grammar |
| Expression.RunAgreesWithPrecedence | easycalc_frontend/src/Calculator.js:61-100 | on every well-formed token list the stack machine equals the precedence grammar |
| Expression.RunPrefixPending | easycalc_frontend/src/Calculator.js:68-90 | after the main loop the stacks hold the pending additive operand and the pending multiplicative term of the grammar |
| Expression.FinishPending | easycalc_frontend/src/Calculator.js:91-99 | draining the stacks gives the grammar's value |
| Expression.StepMultiplicative | easycalc_frontend/src/Calculator.js:70-88 | × or ÷ followed by an operand folds only the pending term |
| Expression.StepAdditive | easycalc_frontend/src/Calculator.js:70-88 | + or − followed by an operand collapses everything pending into one number |
| Expression.PendingCollapses | easycalc_frontend/src/Calculator.js:71-82 | reducing the pending stacks at precedence 1 or lower leaves exactly the grammar's value |
| Expression.EvalAppendAdditive | easycalc_frontend/src/Calculator.js:61 | appending `+ n` or `− n` combines the whole value so far with n, left to right |
| Expression.EvalAppendMultiplicative | easycalc_frontend/src/Calculator.js:61 | appending `× n` or `÷ n` combines only the last term with n |
| Expression.MultiplicationFirst | easycalc_frontend/src/Calculator.js:71-75 | `a + b × c` is `a + (b × c)` |
| Expression.AdditiveLeftToRight | easycalc_frontend/src/Calculator.js:71-75 | `a o1 b o2 c` with additive operators is `(a o1 b) o2 c` |
| Expression.DivisionLeftToRight | easycalc_frontend/src/Calculator.js:71-75 | `a ÷ b × c` is `(a ÷ b) × c` |
| Expression.RunBinary | easycalc_frontend/src/Calculator.js:62-100 | three tokens apply the operator to the two operands |
| Expression.OperandOfNat | easycalc_frontend/src/Calculator.js:85 | the rendering of a natural number is an operand with that value |
| Expression.TwoPlusThreeTimesFour | easycalc_frontend/src/test_Calculator.js:99-102 | the list "2 + 3 × 4" evaluates to 14 |
| Expression.BadOperandIsError | easycalc_frontend/src/Calculator.js:85-86 | any token that is neither an operator nor a number makes the result "Error" |
| Expression.EmptyIsError | easycalc_frontend/src/Calculator.js:99 | an empty list is "Error" |
| Expression.TrailingOperatorIsNaN | easycalc_frontend/src/Calculator.js:91-99 | a number followed by a trailing + pops `undefined` and gives NaN |
| Expression.LeadingOperatorIsNaN | easycalc_frontend/src/Calculator.js:71-99 | a "-" before a "+" pops `undefined` twice, so "- + c" evaluates to NaN |
| Expression.WellFormedIsNeverNaN | easycalc_frontend/src/Calculator.js:62-100 | a well-formed list never evaluates to NaN |
| Expression.DivisionByZeroIsError | easycalc_frontend/src/Calculator.js:62-100 | division by a zero operand anywhere in a well-formed list gives "Error" |
| Expression.EvalDividesByZero | easycalc_frontend/src/Calculator.js:52 | in the grammar, a ÷ 0 anywhere makes the whole value "Error" |
| Calculator.Key | easycalc_frontend/src/Calculator.js:14-44 | the button with a given caption carries that caption |
| Calculator.KeysAreTheGrid | easycalc_frontend/src/Calculator.js:14-44 | every button of the grid is the one `Key` gives for its caption |
| Calculator.GridButtonsValid | easycalc_frontend/src/Calculator.js:14-44 | every grid button's kind matches its caption |
| Calculator.DigitKeepsOneDot | easycalc_frontend/src/Calculator.js:111-123 | a digit or point key keeps at most one point on the display and leaves the token list alone |
| Calculator.TypingDigitScales | easycalc_frontend/src/Calculator.js:119-122 | a digit typed onto a whole number, a lone "0" included, gives ten times its value plus the digit |
| Calculator.DigitReplacesZero | easycalc_frontend/src/Calculator.js:112-120 | on "0", "Error" or while waiting, a digit replaces the display and ends the wait |
| Calculator.PointWhileWaitingIsLost | easycalc_frontend/src/Calculator.js:112-118 | "." while waiting appends to the old display and keeps waiting, so the next digit discards it |
| Calculator.OperatorAppendsOrReplaces | easycalc_frontend/src/Calculator.js:124-143 | on a list built by the keys, the first operator key appends the display and the operator; every later one replaces the operator the list ends in, whatever was typed since |
| Calculator.OperandKept | easycalc_frontend/src/Calculator.js:130-142 | corrected key: with an operand typed, the display and the operator are appended, so "2 + 3 ×" keeps the 3 |
| Calculator.OperandDroppedAsWritten | easycalc_frontend/src/Calculator.js:134-138 | as written, an operator key after a typed operand, on a list ending in an operator, replaces that operator: the list ends two tokens shorter than with the corrected key, which appends the operand and the operator |
| Calculator.TwoPlusThreeTimesFourShows8AsWritten | easycalc_frontend/src/Calculator.js:134-138 | as written, the keys "2 + 3 × 4 =" show 8 |
| Calculator.TwoPlusTwoPlusTwoShows4AsWritten | easycalc_frontend/src/Calculator.js:134-138 | as written, the keys "2 + 2 + 2 =" show 4 |
| Calculator.KeyKeepsOnePending | easycalc_frontend/src/Calculator.js:108-176 | with the operator key as written, a list that is empty or one operand and one operator stays so after any key |
| Calculator.KeysKeepOnePending | easycalc_frontend/src/Calculator.js:134-138 | from mounting, whatever the keys, the list is empty or one operand and one operator: it never holds more than two tokens, so `=` evaluates at most three tokens, "a o b" |
| Calculator.NextKeepsAlternating | easycalc_frontend/src/Calculator.js:108-176 | every key, with the operator key as written, keeps operators exactly at the odd positions of the list, with an operator last |
| Calculator.NextKeepsOperands | easycalc_frontend/src/Calculator.js:108-176 | while the display is not an operator symbol, no key puts an operator symbol at an operand position of the list (the display can become "-": see `NegativeResultErased`) |
| Calculator.NextIntendedKeepsShape | easycalc_frontend/src/Calculator.js:124-143 | the corrected operator key keeps the same shape: operators at the odd positions, none at operand positions, an operator last |
| Calculator.NextKeepsOneDot | easycalc_frontend/src/Calculator.js:108-176 | given renderings with at most one point, every key keeps at most one point on the display |
| Calculator.AlternatingWellFormed | easycalc_frontend/src/Calculator.js:150 | such a list followed by the display is a well-formed expression |
| Calculator.EqualsFollowsPrecedence | easycalc_frontend/src/Calculator.js:144-163 | on a list built by the keys and a display that is not an operator symbol, `=` shows the precedence grammar's value of the list plus the display, and resets the list and the wait |
| Calculator.ResetKeys | easycalc_frontend/src/Calculator.js:124-167 | "C", and an operator or `=` on "Error", give the initial state; "C" after them changes nothing |
| Calculator.BackspaceKeepsDisplay | easycalc_frontend/src/Calculator.js:168-175 | "←" gives "0" on one character or "Error", otherwise drops the last character; the display is never empty |
| Calculator.BinaryKeys | easycalc_frontend/src/test_Calculator.js:34-52 | "a o b =" shows the operator applied to the two digits |
| Calculator.FivePlusSix | easycalc_frontend/src/test_Calculator.js:34-37 | "5 + 6 =" shows the rendering of 11 |
| Calculator.DivideByZeroShowsError | easycalc_frontend/src/test_Calculator.js:72-75 | "4 ÷ 0 =" shows "Error" |
| Calculator.ErrorThenReset | easycalc_frontend/src/Calculator.js:144-167 | after "Error", both "C" and `=` give the initial state |
| Calculator.ChainKeys | easycalc_frontend/src/Calculator.js:124-163 | as written, "a o1 b o2 c =" shows `a o2 c`: the operand b and the first operator are lost |
| Calculator.ChainPrefixIntended | easycalc_frontend/src/Calculator.js:124-143 | with the corrected key, "a o1 b o2" leaves all four tokens in the list |
| Calculator.ChainKeysIntended | easycalc_frontend/src/Calculator.js:124-163 | with the corrected key, "a o1 b o2 c =" shows the stack machine's value of all five tokens |
| Calculator.TwoPlusThreeTimesFourShows14 | easycalc_frontend/src/test_Calculator.js:99-102 | with the corrected key, "2 + 3 × 4 =" shows 14 |
| Calculator.TwoPlusTwoPlusTwoShows6 | easycalc_frontend/src/test_Calculator.js:104-107 | with the corrected key, "2 + 2 + 2 =" shows 6 |
| Calculator.OperatorReplacedKeys | easycalc_frontend/src/Calculator.js:134-138 | "a o1 o2 b =" applies only o2 |
| Calculator.NinePlusMinusFiveShows4 | easycalc_frontend/src/test_Calculator.js:94-97 | "9 + − 5 =" shows 4 |
| Calculator.LeadingZeros | easycalc_frontend/src/test_Calculator.js:121-124 | "0 0 1 2" shows "12" |
| Calculator.PointsTyped | easycalc_frontend/src/Calculator.js:111-123 | for digits a (not "0"), b, c: "a . b" shows "a.b" and "a . b . c" shows "a.bc", the second point being ignored |
| Calculator.SecondPointIgnored | easycalc_frontend/src/test_Calculator.js:89-92 | "1 . 2" shows "1.2" and "1 . 2 . 3" shows "1.23" |
| Calculator.ThreeDigits | easycalc_frontend/src/Calculator.js:119-123 | three digit keys, the first not "0", show the three digits in order |
| Calculator.ThreeErased | easycalc_frontend/src/Calculator.js:168-175 | "←" after three digits removes them one at a time from the right, ending at "0" |
| Calculator.ZerosDropped | easycalc_frontend/src/Calculator.js:119-123 | "0 0 b c" with b not "0" shows "bc" |
| Calculator.OneTwoThree | easycalc_frontend/src/test_Calculator.js:61-63 | "1 2 3" shows "123" |
| Calculator.BackspaceThrice | easycalc_frontend/src/test_Calculator.js:61-70 | "←" three times after "123" shows "12", "1", "0" |
| Calculator.TwoMinusFive | easycalc_frontend/src/Calculator.js:144-163 | "2 - 5 =" shows the rendering of -3 |
| Calculator.NegativeResultErased | easycalc_frontend/src/Calculator.js:168-175 | when -3 renders as "-3", "2 - 5 = ←" leaves just "-" on the display |
| Calculator.SignPushedAsOperand | easycalc_frontend/src/Calculator.js:124-142 | on a display holding just "-", an operator key pushes "-" at an operand position of the list |
| Calculator.SignOperandShowsError | easycalc_frontend/src/Calculator.js:144-163 | after that, "c =" pops `undefined` and shows "Error" |
| Calculator.NegativeErasedShowsError | easycalc_frontend/src/Calculator.js:108-176 | when -3 renders as "-3", "2 - 5 = ← + 4 =" shows "Error" |
| Calculator.Machine.constructor | easycalc_frontend/src/Calculator.js:103-105 | the fields start as "0", not waiting, empty list |
| Calculator.Machine.HandleButtonClick | easycalc_frontend/src/Calculator.js:108-176 | updating the fields in place gives the new state of `Next`, with the operator key as written |
| EasyCalc.Machine.constructor | easycalc_frontend/src/EasyCalc.js:13-16 | the fields start as "0", no operand, no operator, not waiting |
| EasyCalc.Machine.HandleDigit | easycalc_frontend/src/EasyCalc.js:19-29 | the new fields are those of `Digit` |
| EasyCalc.Machine.HandleDecimal | easycalc_frontend/src/EasyCalc.js:32-39 | the new fields are those of `Decimal` |
| EasyCalc.Machine.HandleClear | easycalc_frontend/src/EasyCalc.js:42-47 | the fields are back to their initial values |
| EasyCalc.Machine.PerformOperation | easycalc_frontend/src/EasyCalc.js:52-64 | the new fields are those of `Operation` |
| EasyCalc.Machine.HandleEquals | easycalc_frontend/src/EasyCalc.js:67-78 | the new fields are those of `Equals` |
| EasyCalc.Round8Close | easycalc_frontend/src/EasyCalc.js:101 | the rounded value is within half a unit of the eighth decimal |
| EasyCalc.Round8Exact | easycalc_frontend/src/EasyCalc.js:101 | a number with at most eight decimals is unchanged |
| EasyCalc.Round8Idempotent | easycalc_frontend/src/EasyCalc.js:101 | rounding twice is rounding once |
| EasyCalc.Round8Odd | easycalc_frontend/src/EasyCalc.js:101 | rounding commutes with negation |
| EasyCalc.Round8Integer | easycalc_frontend/src/EasyCalc.js:101 | whole numbers are unchanged |
| EasyCalc.DivisionByZeroIsError | easycalc_frontend/src/EasyCalc.js:93-94 | ÷ by zero is "Error" whatever the first operand |
| EasyCalc.UnknownOperatorGivesOperand | easycalc_frontend/src/EasyCalc.js:97-98 | an unknown operator hands back the second operand, unrounded |
| EasyCalc.CalculateIsClose | easycalc_frontend/src/EasyCalc.js:81-103 | with a known operator and two numbers, the result is within half a unit of the eighth decimal of the exact result |
| EasyCalc.CalculateExactOnIntegers | easycalc_frontend/src/EasyCalc.js:84-101 | sums, differences and products of whole numbers are exact |
| EasyCalc.FailuresPropagate | easycalc_frontend/src/EasyCalc.js:84-101 | "Error" as the first operand stays "Error"; NaN in gives NaN out |
| EasyCalc.DigitGuard | easycalc_frontend/src/EasyCalc.js:19-29 | a digit changes nothing exactly when the display is over twelve characters, or it is "0" typed onto "0" |
| EasyCalc.TypingDigitScales | easycalc_frontend/src/EasyCalc.js:19-29 | a digit typed onto a whole-number display multiplies its value by ten and adds the digit |
| EasyCalc.PressKeepsShort | easycalc_frontend/src/EasyCalc.js:19-78 | every key keeps the display at most 13 characters, or 14 ending in a point |
| EasyCalc.PressKeepsOneDot | easycalc_frontend/src/EasyCalc.js:19-78 | every key keeps at most one point on the display, given renderings with at most one |
| EasyCalc.ConsecutiveOperatorsReplace | easycalc_frontend/src/EasyCalc.js:52-64 | an operator right after an operator computes nothing, keeps the display, replaces the operator and rereads the first operand from the display |
| EasyCalc.EqualsOnlyWhenPending | easycalc_frontend/src/EasyCalc.js:67-78 | `=` changes nothing exactly when no operation is pending; otherwise it clears the operation and waits |
| EasyCalc.ResultShownCut | easycalc_frontend/src/EasyCalc.js:55-73 | a computed result is shown as at most twelve leading characters of its text, and is kept as the first operand |
| EasyCalc.ClearIsIdempotent | easycalc_frontend/src/EasyCalc.js:42-47 | "C" gives the initial state from anywhere, so twice is once |
| EasyCalc.StrictLeftToRight | easycalc_frontend/src/EasyCalc.js:52-78 | "a o1 b o2 c =" shows `(a o1 b) o2 c` whatever the operators |
| EasyCalc.TwoPlusThreeTimesFourShows20 | easycalc_frontend/src/EasyCalc.js:52-78 | "2 + 3 × 4 =" shows 20 |
| EasyCalc.FiveDividedByZeroShowsError | easycalc_frontend/src/EasyCalc.js:67-94 | "5 ÷ 0 =" shows "Error" |

## Left out

- IEEE-754 doubles: values are exact reals. Overflow to Infinity and the rounding of every operation are not modelled. Of the `Number.isFinite` test (Calculator.js:158), `Calculator.Shown` models the NaN case ("Error"); only its Infinity case, which exact reals cannot produce, is not modelled. A finite result shows as its rendering.
- `Number.prototype.toString` is the parameter `render`. Results are stated in terms of `render(x)`, not as fixed strings.
- `parseFloat` is modelled on `-?digits[.digits]`, the strings the calculators build. Its lenient prefix parsing and exponent forms ("1e5", "12abc") are not.
- `toFixed(8)` rounds the double's exact binary value. The model rounds the exact real.
- EasyCalc stores the string "Error" as its first operand. The model keeps it as a sticky "Error" outcome instead of JavaScript's string coercion ("Error" + 5 is a string, on which `toFixed` throws; "Error" − 5 is NaN).
- React state scheduling: each handler is one atomic transition over the fields as they were before the event.
- JSX, styles, CSS classes and grid placement (Calculator.js:178-293, EasyCalc.js:125-177), and App.js (layout only). `EasyCalc.Key` and `EasyCalc.Press` keep only the wiring of the buttons to their handlers (EasyCalc.js:106-123).
- `isValidNumber` is never called by either calculator. It is modelled and related to `parseFloat`.
- EasyCalc.PressKeepsOneDot: assumes `render` produces at most one point, because `toString` is not modelled.
- Calculator.NextKeepsOneDot: assumes `render` produces at most one point, for the same reason.
- Calculator.NegativeResultErased: assumes `render(-3.0)` is "-3", as `toString` gives, because `toString` is not modelled.
- Calculator.NegativeErasedShowsError: assumes `render(-3.0)` is "-3", for the same reason.

## Findings

| source | as written | input that shows it | evidently intended | confidence | as-written member | corrected member |
|---|---|---|---|---|---|---|
| easycalc_frontend/src/Calculator.js:134-138 | whenever the token list ends in an operator, an operator key overwrites it, even after a new operand was typed. After the first operator the list always ends in one, so every later operand is dropped: the list never holds more than two tokens (`Calculator.KeysKeepOnePending`) | "2 + 3 × 4 =" shows 8 (and "2 + 2 + 2 =" shows 4) | replace the operator only when no operand has been typed since (`waitingForOperand`); otherwise append the operand and the operator, so "2 + 3 × 4 =" shows 14 and "2 + 2 + 2 =" shows 6 | high; not executed | Calculator.OperandDroppedAsWritten | Calculator.OperandKept |
