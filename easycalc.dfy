/** The `EasyCalc` component: an eager two-operand calculator. A pending
    operation (first operand, operator) is carried out as soon as the next
    operator or `=` arrives, strictly from left to right, and results are
    shown cut to twelve characters.

    The handlers are given as functions of the state before the event; the
    class `Machine` holds the four fields and updates them in place, proved
    to agree with those functions. `String(x)` of a finite number is the
    parameter `render`. */
module EasyCalc {
  import opened Numbers

  datatype State = State(display: string, firstOperand: Option<Outcome>, operator: Option<string>, waitingForOperand: bool)

  /** The state after mounting and after "C". */
  const Initial := State("0", None, None, false)

  /** Digits are refused once the display is longer than this. */
  const MaxDisplay := 12

  /** `handleDigit`: nothing on a display longer than twelve characters;
      otherwise a new entry while waiting, a replaced lone "0", or the
      digit appended. */
  function Digit(s: State, digit: string): State {
    if |s.display| > MaxDisplay then s
    else if s.waitingForOperand then s.(display := digit, waitingForOperand := false)
    else if s.display == "0" then s.(display := digit)
    else s.(display := s.display + digit)
  }

  /** `handleDecimal`: "0." while waiting; otherwise a point is appended
      to a display without one. There is no length guard. */
  function Decimal(s: State): State {
    if s.waitingForOperand then s.(display := "0.", waitingForOperand := false)
    else if '.' !in s.display then s.(display := s.display + ".")
    else s
  }

  /** `inputValue`: `parseFloat` of the display. */
  function InputValue(display: string): Num {
    match Parse(display)
    case None => NaN
    case Some(x) => Finite(x)
  }

  /** 10^8: `toFixed(8)` keeps eight decimals. */
  const Scale: real := 100000000.0

  /** `+parseFloat(x.toFixed(8))`: `x` rounded to eight decimals, halves
      away from zero (`toFixed` rounds the magnitude and keeps the sign). */
  function Round8(x: real): real {
    var magnitude := if x < 0.0 then -x else x;
    var rounded := (magnitude * Scale + 0.5).Floor as real / Scale;
    if x < 0.0 then -rounded else rounded
  }

  /** Rounding a number; NaN stays NaN. */
  function Fixed(n: Num): Num {
    match n
    case NaN => NaN
    case Finite(x) => Finite(Round8(x))
  }

  /** `calculate(a, b, op)`: "Error" for `÷` by zero before anything else;
      the second operand itself for an operator it does not know; otherwise
      the rounded result. A first operand that is "Error" stays "Error". */
  function Calculate(a: Outcome, b: Num, op: string): Outcome {
    if op == "÷" && b == Finite(0.0) then Error
    else if op != "+" && op != "-" && op != "×" && op != "÷" then Number(b)
    else if a.Error? then Error
    else if a.n.NaN? || b.NaN? then Number(NaN)
    else
      var x := a.n.x;
      var y := b.x;
      Number(Finite(Round8(Arith(op, x, y))))
  }

  /** The exact value of `x op y` for the four operators. */
  function Arith(op: string, x: real, y: real): real
    requires op == "÷" ==> y != 0.0
  {
    if op == "+" then x + y
    else if op == "-" then x - y
    else if op == "×" then x * y
    else if op == "÷" then x / y
    else y
  }

  /** `String(computed)`. */
  function Text(o: Outcome, render: real -> string): string {
    match o
    case Number(Finite(x)) => render(x)
    case Number(NaN) => "NaN"
    case Error => "Error"
  }

  /** A computed result on the display: at most twelve characters. */
  function Truncated(t: string): string {
    if |t| > MaxDisplay then t[..MaxDisplay] else t
  }

  /** An operator (a non-empty string) and a first operand are set and an
      operand has been typed since. */
  predicate HasPending(s: State) {
    s.operator.Some? && s.operator.value != "" && s.firstOperand.Some? && !s.waitingForOperand
  }

  /** `performOperation(next)`: with a pending operation, compute it, show
      it and keep it as the first operand; otherwise take the display as the
      first operand. Either way `next` becomes the operator and the machine
      waits for an operand. */
  function Operation(s: State, next: string, render: real -> string): State {
    var value := InputValue(s.display);
    if HasPending(s) then
      var computed := Calculate(s.firstOperand.value, value, s.operator.value);
      State(Truncated(Text(computed, render)), Some(computed), Some(next), true)
    else
      State(s.display, Some(Number(value)), Some(next), true)
  }

  /** `handleEquals`: with a pending operation, compute and show it and
      clear the operation; otherwise nothing. */
  function Equals(s: State, render: real -> string): State {
    if HasPending(s) then
      var computed := Calculate(s.firstOperand.value, InputValue(s.display), s.operator.value);
      State(Truncated(Text(computed, render)), None, None, true)
    else s
  }

  /** The keys of the grid and the handler each one calls. */
  datatype Key = DigitKey(d: char) | PointKey | ClearKey | OperatorKey(op: string) | EqualsKey

  function Press(s: State, k: Key, render: real -> string): State {
    match k
    case DigitKey(d) => Digit(s, [d])
    case PointKey => Decimal(s)
    case ClearKey => Initial
    case OperatorKey(op) => Operation(s, op, render)
    case EqualsKey => Equals(s, render)
  }

  function PressAll(s: State, keys: seq<Key>, render: real -> string): State
    decreases |keys|
  {
    if keys == [] then s else Press(PressAll(s, keys[..|keys| - 1], render), keys[|keys| - 1], render)
  }

  class Machine {
    var display: string
    var firstOperand: Option<Outcome>
    var operator: Option<string>
    var waitingForOperand: bool

    function Snapshot(): State
      reads this
    {
      State(display, firstOperand, operator, waitingForOperand)
    }

    constructor()
      ensures Snapshot() == Initial
    {
      display := "0";
      firstOperand := None;
      operator := None;
      waitingForOperand := false;
    }

    method HandleDigit(digit: string)
      modifies this
      ensures Snapshot() == Digit(old(Snapshot()), digit)
    {
      if |display| > MaxDisplay {
        return;
      }
      if waitingForOperand {
        display := digit;
        waitingForOperand := false;
      } else if display == "0" {
        display := digit;
      } else {
        display := display + digit;
      }
    }

    method HandleDecimal()
      modifies this
      ensures Snapshot() == Decimal(old(Snapshot()))
    {
      if waitingForOperand {
        display := "0.";
        waitingForOperand := false;
      } else if '.' !in display {
        display := display + ".";
      }
    }

    method HandleClear()
      modifies this
      ensures Snapshot() == Initial
    {
      display := "0";
      firstOperand := None;
      operator := None;
      waitingForOperand := false;
    }

    method PerformOperation(nextOperator: string, render: real -> string)
      modifies this
      ensures Snapshot() == Operation(old(Snapshot()), nextOperator, render)
    {
      var value := InputValue(display);
      if operator.Some? && operator.value != "" && firstOperand.Some? && !waitingForOperand {
        var computed := Calculate(firstOperand.value, value, operator.value);
        display := Truncated(Text(computed, render));
        firstOperand := Some(computed);
      } else {
        firstOperand := Some(Number(value));
      }
      operator := Some(nextOperator);
      waitingForOperand := true;
    }

    method HandleEquals(render: real -> string)
      modifies this
      ensures Snapshot() == Equals(old(Snapshot()), render)
    {
      if operator.Some? && operator.value != "" && firstOperand.Some? && !waitingForOperand {
        var value := InputValue(display);
        var computed := Calculate(firstOperand.value, value, operator.value);
        display := Truncated(Text(computed, render));
        firstOperand := None;
        operator := None;
        waitingForOperand := true;
      }
    }
  }

  // Rounding to eight decimals

  /** The rounded value is within half a unit of the eighth decimal. */
  lemma Round8Close(x: real)
    ensures Round8(x) - x <= 0.5 / Scale
    ensures x - Round8(x) <= 0.5 / Scale
  {
    var magnitude := if x < 0.0 then -x else x;
    var n := (magnitude * Scale + 0.5).Floor;
    assert n as real <= magnitude * Scale + 0.5 < n as real + 1.0;
    assert n as real / Scale - magnitude <= 0.5 / Scale;
    assert magnitude - n as real / Scale < 0.5 / Scale;
  }

  /** A number with at most eight decimals is left alone. */
  lemma Round8Exact(k: int)
    ensures Round8(k as real / Scale) == k as real / Scale
  {
    var x := k as real / Scale;
    var m := if k < 0 then -k else k;
    assert (if x < 0.0 then -x else x) * Scale == m as real;
    assert (m as real + 0.5).Floor == m;
  }

  /** Rounding twice is rounding once. */
  lemma Round8Idempotent(x: real)
    ensures Round8(Round8(x)) == Round8(x)
  {
    var magnitude := if x < 0.0 then -x else x;
    var n := (magnitude * Scale + 0.5).Floor;
    var k := if x < 0.0 then -n else n;
    assert Round8(x) == k as real / Scale;
    Round8Exact(k);
  }

  /** Rounding commutes with negation (halves go away from zero). */
  lemma Round8Odd(x: real)
    ensures Round8(-x) == -Round8(x)
  {
    if x == 0.0 {
      assert (0.0 * Scale + 0.5).Floor == 0;
    }
  }

  /** Whole numbers are left alone. */
  lemma Round8Integer(n: int)
    ensures Round8(n as real) == n as real
  {
    var k := n * 100000000;
    assert k as real / Scale == n as real;
    Round8Exact(k);
  }

  // Properties of calculate

  /** Division by zero is "Error" whatever the first operand. */
  lemma DivisionByZeroIsError(a: Outcome)
    ensures Calculate(a, Finite(0.0), "÷") == Error
  {
  }

  /** An operator `calculate` does not know hands back the second operand,
      unrounded, even after "Error". */
  lemma UnknownOperatorGivesOperand(a: Outcome, b: Num, op: string)
    requires op != "+" && op != "-" && op != "×" && op != "÷"
    ensures Calculate(a, b, op) == Number(b)
  {
  }

  /** On two numbers and a known operator, `calculate` gives a number within
      half a unit of the eighth decimal of the exact result. */
  lemma CalculateIsClose(x: real, y: real, op: string)
    requires op == "+" || op == "-" || op == "×" || op == "÷"
    requires op == "÷" ==> y != 0.0
    ensures Calculate(Number(Finite(x)), Finite(y), op).Number?
    ensures Calculate(Number(Finite(x)), Finite(y), op).n.Finite?
    ensures Calculate(Number(Finite(x)), Finite(y), op).n.x - Arith(op, x, y) <= 0.5 / Scale
    ensures Arith(op, x, y) - Calculate(Number(Finite(x)), Finite(y), op).n.x <= 0.5 / Scale
  {
    Round8Close(Arith(op, x, y));
  }

  /** Sums, differences and products of whole numbers are exact. */
  lemma CalculateExactOnIntegers(i: int, j: int, op: string)
    requires op == "+" || op == "-" || op == "×"
    ensures Calculate(Number(Finite(i as real)), Finite(j as real), op)
         == Number(Finite((if op == "+" then i + j else if op == "-" then i - j else i * j) as real))
  {
    var r := if op == "+" then i + j else if op == "-" then i - j else i * j;
    assert Arith(op, i as real, j as real) == r as real;
    Round8Integer(r);
  }

  /** "Error" and NaN as the first operand stay what they are. */
  lemma FailuresPropagate(a: Outcome, b: Num, op: string)
    requires op == "+" || op == "-" || op == "×" || op == "÷"
    requires b != Finite(0.0) || op != "÷"
    ensures a == Error ==> Calculate(a, b, op) == Error
    ensures a == Number(NaN) ==> Calculate(a, b, op) == Number(NaN)
    ensures b == NaN && a.Number? ==> Calculate(a, b, op) == Number(NaN)
  {
  }

  // Properties of the handlers

  /** A digit changes nothing exactly when the display is over twelve
      characters, or it is a "0" typed onto a lone "0". */
  lemma DigitGuard(s: State, c: char)
    ensures Digit(s, [c]) == s
        <==> |s.display| > MaxDisplay || (!s.waitingForOperand && s.display == "0" && c == '0')
  {
    if |s.display| <= MaxDisplay && !s.waitingForOperand && s.display != "0" {
      assert |Digit(s, [c]).display| == |s.display| + 1;
    }
  }

  /** Typing a digit onto a whole-number display (not waiting, not over
      twelve characters) multiplies its value by ten and adds the digit. */
  lemma TypingDigitScales(s: State, c: char)
    requires |s.display| <= MaxDisplay && !s.waitingForOperand
    requires |s.display| > 0 && AllDigits(s.display) && IsDigit(c)
    ensures InputValue(Digit(s, [c]).display) == Finite((10 * DigitsValue(s.display) + DigitValue(c)) as real)
  {
    if s.display == "0" {
      assert DigitsValue("0") == 0 by {
        assert "0"[..0] == "";
      }
      assert DigitsValue([c]) == DigitValue(c) by {
        assert [c][..0] == "";
      }
      ParseDigits([c]);
    } else {
      AppendDigitValue(s.display, c);
    }
  }

  /** Display of at most thirteen characters, or fourteen when the last
      key was a point: digits stop after thirteen, a point has no guard,
      computed results are cut to twelve. */
  predicate ShortDisplay(s: State) {
    |s.display| <= MaxDisplay + 2 && (|s.display| > MaxDisplay + 1 ==> s.display[|s.display| - 1] == '.')
  }

  lemma {:induction false} TruncatedIsPrefix(t: string)
    ensures |Truncated(t)| <= MaxDisplay
    ensures Truncated(t) <= t
    ensures |t| <= MaxDisplay ==> Truncated(t) == t
  {
  }

  /** Every key keeps the display short. */
  lemma PressKeepsShort(s: State, k: Key, render: real -> string)
    requires ShortDisplay(s)
    ensures ShortDisplay(Press(s, k, render))
  {
    match k
    case DigitKey(d) =>
    case PointKey =>
    case ClearKey =>
    case OperatorKey(op) =>
      if HasPending(s) {
        TruncatedIsPrefix(Text(Calculate(s.firstOperand.value, InputValue(s.display), s.operator.value), render));
      }
    case EqualsKey =>
      if HasPending(s) {
        TruncatedIsPrefix(Text(Calculate(s.firstOperand.value, InputValue(s.display), s.operator.value), render));
      }
  }

  /** The text of an outcome has at most one point when renderings do. */
  lemma TextKeepsOneDot(o: Outcome, render: real -> string)
    requires forall x :: AtMostOneDot(render(x))
    ensures AtMostOneDot(Truncated(Text(o, render)))
  {
    var t := Text(o, render);
    assert AtMostOneDot(t);
    TruncatedIsPrefix(t);
    var r := Truncated(t);
    forall i, j | 0 <= i < j < |r|
      ensures !(r[i] == '.' && r[j] == '.')
    {
      assert r[i] == t[i] && r[j] == t[j];
    }
  }

  /** Every key keeps at most one point on the display, given that the
      rendering of a number has at most one. */
  lemma PressKeepsOneDot(s: State, k: Key, render: real -> string)
    requires AtMostOneDot(s.display)
    requires forall x :: AtMostOneDot(render(x))
    requires k.DigitKey? ==> IsDigit(k.d)
    ensures AtMostOneDot(Press(s, k, render).display)
  {
    match k
    case DigitKey(d) =>
    case PointKey =>
    case ClearKey =>
    case OperatorKey(op) =>
      if HasPending(s) {
        TextKeepsOneDot(Calculate(s.firstOperand.value, InputValue(s.display), s.operator.value), render);
      }
    case EqualsKey =>
      if HasPending(s) {
        TextKeepsOneDot(Calculate(s.firstOperand.value, InputValue(s.display), s.operator.value), render);
      }
  }

  /** A second operator right after the first computes nothing and keeps
      the display: it only replaces the operator, and the first operand is
      read back from the display. */
  lemma ConsecutiveOperatorsReplace(s: State, o1: string, o2: string, render: real -> string)
    ensures Operation(Operation(s, o1, render), o2, render)
         == Operation(s, o1, render).(operator := Some(o2),
                                      firstOperand := Some(Number(InputValue(Operation(s, o1, render).display))))
  {
    assert !HasPending(Operation(s, o1, render));
  }

  /** `=` changes nothing exactly when no operation is pending; when one
      is, it clears the operation and waits for an operand. */
  lemma EqualsOnlyWhenPending(s: State, render: real -> string)
    ensures Equals(s, render) == s <==> !HasPending(s)
    ensures HasPending(s) ==> Equals(s, render).firstOperand == None && Equals(s, render).operator == None
                              && Equals(s, render).waitingForOperand
  {
  }

  /** A computed result is shown as at most twelve leading characters of
      its text; after an operator it is also kept as the first operand. */
  lemma ResultShownCut(s: State, next: string, render: real -> string)
    requires HasPending(s)
    ensures |Operation(s, next, render).display| <= MaxDisplay
    ensures Operation(s, next, render).firstOperand.Some?
    ensures Operation(s, next, render).display <= Text(Operation(s, next, render).firstOperand.value, render)
    ensures Equals(s, render).display == Operation(s, next, render).display
  {
    TruncatedIsPrefix(Text(Calculate(s.firstOperand.value, InputValue(s.display), s.operator.value), render));
  }

  /** "C" from any state is the initial state, so pressing it twice is
      pressing it once. */
  lemma ClearIsIdempotent(s: State, render: real -> string)
    ensures Press(s, ClearKey, render) == Initial
    ensures Press(Press(s, ClearKey, render), ClearKey, render) == Press(s, ClearKey, render)
  {
  }

  // Key sequences

  lemma PressAllStep(s: State, keys: seq<Key>, k: Key, render: real -> string)
    ensures PressAll(s, keys + [k], render) == Press(PressAll(s, keys, render), k, render)
  {
    assert (keys + [k])[..|keys|] == keys;
  }

  /** A one-digit display reads as that digit. */
  lemma OneDigit(c: char)
    requires IsDigit(c)
    ensures InputValue([c]) == Finite(DigitValue(c) as real)
  {
    assert DigitsValue([c]) == DigitValue(c) by {
      assert [c][..0] == "";
    }
    ParseDigits([c]);
  }

  /** Operations are carried out strictly from left to right: "a o1 b o2 c ="
      shows `(a o1 b) o2 c` whatever the operators. */
  lemma StrictLeftToRight(a: char, o1: string, b: char, o2: string, c: char, render: real -> string)
    requires IsDigit(a) && IsDigit(b) && IsDigit(c)
    requires o1 != "" && o2 != ""
    ensures PressAll(Initial, [DigitKey(a), OperatorKey(o1), DigitKey(b), OperatorKey(o2), DigitKey(c), EqualsKey], render).display
         == Truncated(Text(Calculate(Calculate(Number(Finite(DigitValue(a) as real)), Finite(DigitValue(b) as real), o1),
                                     Finite(DigitValue(c) as real), o2), render))
  {
    OneDigit(a);
    OneDigit(b);
    OneDigit(c);
    var k1: seq<Key> := [DigitKey(a)];
    var k2 := k1 + [OperatorKey(o1)];
    var k3 := k2 + [DigitKey(b)];
    var k4 := k3 + [OperatorKey(o2)];
    var k5 := k4 + [DigitKey(c)];
    var k6 := k5 + [EqualsKey];
    assert k1 == [] + [DigitKey(a)];
    PressAllStep(Initial, [], DigitKey(a), render);
    PressAllStep(Initial, k1, OperatorKey(o1), render);
    PressAllStep(Initial, k2, DigitKey(b), render);
    PressAllStep(Initial, k3, OperatorKey(o2), render);
    PressAllStep(Initial, k4, DigitKey(c), render);
    PressAllStep(Initial, k5, EqualsKey, render);
    var first := Number(Finite(DigitValue(a) as real));
    var computed := Calculate(first, Finite(DigitValue(b) as real), o1);
    assert PressAll(Initial, k1, render) == State([a], None, None, false);
    assert PressAll(Initial, k2, render) == State([a], Some(first), Some(o1), true);
    assert PressAll(Initial, k3, render) == State([b], Some(first), Some(o1), false);
    assert PressAll(Initial, k4, render).firstOperand == Some(computed);
    assert PressAll(Initial, k5, render) == State([c], Some(computed), Some(o2), false);
    assert k6 == [DigitKey(a), OperatorKey(o1), DigitKey(b), OperatorKey(o2), DigitKey(c), EqualsKey];
  }

  /** "2 + 3 × 4 =" shows 20, not 14. */
  lemma TwoPlusThreeTimesFourShows20(render: real -> string)
    ensures PressAll(Initial, [DigitKey('2'), OperatorKey("+"), DigitKey('3'), OperatorKey("×"), DigitKey('4'), EqualsKey], render).display
         == Truncated(render(20.0))
  {
    StrictLeftToRight('2', "+", '3', "×", '4', render);
    assert DigitValue('2') == 2 && DigitValue('3') == 3 && DigitValue('4') == 4;
    CalculateExactOnIntegers(2, 3, "+");
    CalculateExactOnIntegers(5, 4, "×");
    assert Calculate(Calculate(Number(Finite(2 as real)), Finite(3 as real), "+"), Finite(4 as real), "×")
        == Number(Finite(20 as real));
  }

  /** "5 ÷ 0 =" shows "Error". */
  lemma FiveDividedByZeroShowsError(render: real -> string)
    ensures Equals(PressAll(Initial, [DigitKey('5'), OperatorKey("÷"), DigitKey('0')], render), render).display == "Error"
  {
    OneDigit('5');
    OneDigit('0');
    PressAllStep(Initial, [], DigitKey('5'), render);
    PressAllStep(Initial, [DigitKey('5')], OperatorKey("÷"), render);
    PressAllStep(Initial, [DigitKey('5'), OperatorKey("÷")], DigitKey('0'), render);
    assert [DigitKey('5')] == [] + [DigitKey('5')];
    assert [DigitKey('5'), OperatorKey("÷")] == [DigitKey('5')] + [OperatorKey("÷")];
    assert [DigitKey('5'), OperatorKey("÷"), DigitKey('0')] == [DigitKey('5'), OperatorKey("÷")] + [DigitKey('0')];
    assert PressAll(Initial, [DigitKey('5'), OperatorKey("÷"), DigitKey('0')], render)
        == State("0", Some(Number(Finite(5.0))), Some("÷"), false);
  }
}
