/** The `Calculator` component: a token-accumulating state machine over the
    display string, the `waitingForOperand` flag and the token list `expr`,
    driven by button clicks, which hands the finished token list to
    `evaluateExpression`.

    The transitions are given as functions of the state before the click
    (`Next`); the class `Machine` holds the three fields and updates them in
    place, proved to agree with `Next`. Number rendering
    (`Number.prototype.toString`) is the parameter `render`. */
module Calculator {
  import opened Numbers
  import opened Expression

  datatype ButtonType = DigitKey | OperatorKey | EqualKey | ControlKey

  datatype Button = Button(caption: string, kind: ButtonType)

  /** The button grid, row by row; "." is typed as a digit. */
  const Buttons: seq<seq<Button>> := [
    [Button("C", ControlKey), Button("÷", OperatorKey), Button("×", OperatorKey), Button("←", ControlKey)],
    [Button("7", DigitKey), Button("8", DigitKey), Button("9", DigitKey), Button("-", OperatorKey)],
    [Button("4", DigitKey), Button("5", DigitKey), Button("6", DigitKey), Button("+", OperatorKey)],
    [Button("1", DigitKey), Button("2", DigitKey), Button("3", DigitKey), Button("=", EqualKey)],
    [Button("0", DigitKey), Button(".", DigitKey)]
  ]

  /** The button carrying `caption`, with the type the grid gives it. */
  function Key(caption: string): (b: Button)
    ensures b.caption == caption
  {
    Button(caption,
      if caption == "=" then EqualKey
      else if caption == "C" || caption == "←" then ControlKey
      else if IsOperator(caption) then OperatorKey
      else DigitKey)
  }

  /** Every button of the grid is `Key` of its caption. */
  lemma KeysAreTheGrid(row: seq<Button>, b: Button)
    requires row in Buttons && b in row
    ensures Key(b.caption) == b
  {
  }

  /** A digit key carries one decimal digit or the point; an operator key
      carries an operator symbol. */
  predicate ValidButton(b: Button) {
    (b.kind == DigitKey ==> |b.caption| == 1 && (IsDigit(b.caption[0]) || b.caption[0] == '.')) &&
    (b.kind == OperatorKey ==> IsOperator(b.caption))
  }

  lemma GridButtonsValid(row: seq<Button>, b: Button)
    requires row in Buttons && b in row
    ensures ValidButton(b)
  {
  }

  datatype State = State(display: string, waitingForOperand: bool, expr: seq<string>)

  /** The state after mounting, after "C", and after a reset on "Error". */
  const Initial := State("0", false, [])

  /** A digit or point key. After "Error", or while waiting for an operand
      and the key is not the point, the key starts a new entry; a point is
      added only to a display without one; a lone "0" is replaced. The point
      while waiting falls through to the point branch, so it is added to the
      previous display and the flag stays set. */
  function EnterDigit(s: State, caption: string): State {
    if s.display == "Error" || (s.waitingForOperand && caption != ".") then
      State(if caption == "." then "0." else caption, false, s.expr)
    else if caption == "." then
      if '.' in s.display then s else s.(display := s.display + ".")
    else if s.display == "0" then
      s.(display := caption)
    else
      s.(display := s.display + caption)
  }

  /** An operator key. "Error" resets. Otherwise, when the list ends in an
      operator that operator is replaced, even when an operand has been
      typed since (see `OperandDroppedAsWritten`); else the display and the
      operator are appended. */
  function EnterOperator(s: State, caption: string): State {
    if s.display == "Error" then Initial
    else
      var e := s.expr;
      var newExpr := if |e| > 0 && IsOperator(e[|e| - 1]) then e[|e| - 1 := caption] else e + [s.display, caption];
      State(s.display, true, newExpr)
  }

  /** The operator key as intended: only a second operator in a row (no
      operand typed since) replaces the first; otherwise the display and the
      operator are appended. */
  function EnterOperatorIntended(s: State, caption: string): State {
    if s.display == "Error" then Initial
    else
      var e := s.expr;
      var newExpr := if s.waitingForOperand && |e| > 0 && IsOperator(e[|e| - 1]) then e[|e| - 1 := caption]
                     else e + [s.display, caption];
      State(s.display, true, newExpr)
  }

  /** What the display shows for a result: the rendering of a finite
      number, and "Error" for NaN and for the "Error" string. */
  function Shown(r: Outcome, render: real -> string): string {
    match r
    case Number(Finite(x)) => render(x)
    case Number(NaN) => "Error"
    case Error => "Error"
  }

  /** The tokens `=` evaluates: the list, then the display, without a
      trailing operator. */
  function Completed(s: State): seq<string> {
    var full := s.expr + [s.display];
    if IsOperator(full[|full| - 1]) then full[..|full| - 1] else full
  }

  /** The `=` key: a reset on "Error"; otherwise the result of the
      completed list is shown and the list and the flag are cleared. */
  function Evaluate(s: State, render: real -> string): State {
    if s.display == "Error" then Initial
    else State(Shown(Run(Completed(s)), render), false, [])
  }

  /** The "←" key: "0" for a one-character display or "Error", otherwise
      the display without its last character (`slice(0, -1)`). */
  function Backspace(s: State): State {
    if |s.display| == 1 || s.display == "Error" then s.(display := "0")
    else if |s.display| == 0 then s
    else s.(display := s.display[..|s.display| - 1])
  }

  /** `handleButtonClick`: the state after one click. */
  function Next(s: State, b: Button, render: real -> string): State {
    match b.kind
    case DigitKey => EnterDigit(s, b.caption)
    case OperatorKey => EnterOperator(s, b.caption)
    case EqualKey => Evaluate(s, render)
    case ControlKey =>
      if b.caption == "C" then Initial
      else if b.caption == "←" then Backspace(s)
      else s
  }

  /** The state after a sequence of clicks. */
  function PressAll(s: State, keys: seq<string>, render: real -> string): State
    decreases |keys|
  {
    if keys == [] then s else Next(PressAll(s, keys[..|keys| - 1], render), Key(keys[|keys| - 1]), render)
  }

  /** `Next` with the intended operator key. */
  function NextIntended(s: State, b: Button, render: real -> string): State {
    if b.kind == OperatorKey then EnterOperatorIntended(s, b.caption) else Next(s, b, render)
  }

  /** `PressAll` with the intended operator key. */
  function PressAllIntended(s: State, keys: seq<string>, render: real -> string): State
    decreases |keys|
  {
    if keys == [] then s
    else NextIntended(PressAllIntended(s, keys[..|keys| - 1], render), Key(keys[|keys| - 1]), render)
  }

  // ---------------------------------------------------------------------------
  // Digit entry.

  lemma AppendKeepsOneDot(a: string, b: string)
    requires AtMostOneDot(a) && '.' !in b
    ensures AtMostOneDot(a + b)
  {
    forall i, j | 0 <= i < j < |a + b|
      ensures !((a + b)[i] == '.' && (a + b)[j] == '.')
    {
      if j >= |a| {
        assert (a + b)[j] == b[j - |a|];
      }
    }
  }

  lemma AppendPointKeepsOneDot(a: string)
    requires '.' !in a
    ensures AtMostOneDot(a + ".")
  {
    forall i, j | 0 <= i < j < |a + "."|
      ensures !((a + ".")[i] == '.' && (a + ".")[j] == '.')
    {
      assert (a + ".")[i] == a[i];
    }
  }

  /** A digit or point key never gives the display a second point, and
      leaves the token list alone. */
  lemma DigitKeepsOneDot(s: State, caption: string)
    requires AtMostOneDot(s.display)
    requires caption == "." || '.' !in caption
    ensures AtMostOneDot(EnterDigit(s, caption).display)
    ensures EnterDigit(s, caption).expr == s.expr
  {
    var r := EnterDigit(s, caption);
    if s.display == "Error" || (s.waitingForOperand && caption != ".") {
      if caption == "." {
        assert r.display == "0.";
      }
    } else if caption == "." {
      if '.' !in s.display {
        AppendPointKeepsOneDot(s.display);
      }
    } else if s.display != "0" {
      AppendKeepsOneDot(s.display, caption);
    }
  }

  /** Typing a digit after an integer entry shifts its value one decimal
      place and adds the digit; a lone "0" is replaced, which is the same. */
  lemma TypingDigitScales(s: State, d: char)
    requires s.display != "Error" && !s.waitingForOperand
    requires |s.display| > 0 && AllDigits(s.display) && IsDigit(d)
    ensures Parse(EnterDigit(s, [d]).display).Some?
    ensures Parse(EnterDigit(s, [d]).display).value == (10 * DigitsValue(s.display) + DigitValue(d)) as real
  {
    if s.display == "0" {
      assert DigitsValue("0") == 0 by {
        assert "0"[..0] == [];
      }
      ParseDigits([d]);
      assert [d][..0] == [];
    } else {
      AppendDigitValue(s.display, d);
    }
  }

  /** A lone "0", a pending operator or "Error" is replaced by the digit
      typed, so an entry never keeps a leading zero. */
  lemma DigitReplacesZero(s: State, d: char)
    requires s.display == "0" || s.display == "Error" || s.waitingForOperand
    requires IsDigit(d)
    ensures EnterDigit(s, [d]).display == [d]
    ensures !EnterDigit(s, [d]).waitingForOperand
  {
  }

  /** The point while waiting for an operand is added to the previous
      entry and the flag stays set, so the next digit discards it: after
      "5 +", the keys ". 3" leave "3", not "0.3". */
  lemma PointWhileWaitingIsLost(s: State, d: char)
    requires s.waitingForOperand && s.display != "Error"
    requires IsDigit(d)
    ensures EnterDigit(s, ".").waitingForOperand
    ensures EnterDigit(s, ".").expr == s.expr
    ensures '.' in EnterDigit(s, ".").display
    ensures EnterDigit(EnterDigit(s, "."), [d]).display == [d]
  {
    var r := EnterDigit(s, ".");
    if '.' !in s.display {
      assert (s.display + ".")[|s.display|] == '.';
    }
  }

  // ---------------------------------------------------------------------------
  // Operator entry and the shape of the token list.

  /** Operators sit exactly at the odd positions a list of even length has
      after each operator key: operand, operator, operand, operator, ... */
  predicate Alternating(e: seq<string>) {
    |e| % 2 == 0 && forall i | 0 <= i < |e| && i % 2 == 1 :: IsOperator(e[i])
  }

  /** No operand position of the list holds an operator symbol. */
  predicate OperandsAreNumbers(e: seq<string>) {
    forall i | 0 <= i < |e| && i % 2 == 0 :: !IsOperator(e[i])
  }

  /** An operator key on a list built by the keys: the first appends the
      display and the operator; every later one replaces the operator the
      list ends in, whatever was typed since. */
  lemma OperatorAppendsOrReplaces(s: State, caption: string)
    requires s.display != "Error" && Alternating(s.expr)
    ensures var r := EnterOperator(s, caption);
      r.waitingForOperand && r.display == s.display &&
      (if |s.expr| > 0 then r.expr == s.expr[..|s.expr| - 1] + [caption]
       else r.expr == [s.display, caption])
  {
    var e := s.expr;
    if |e| > 0 {
      assert IsOperator(e[|e| - 1]);
      assert e[|e| - 1 := caption] == e[..|e| - 1] + [caption];
    }
  }

  /** The token list after one key: untouched by digits, points and "←",
      emptied by "C", `=` and the resets on "Error". */
  lemma NextExpr(s: State, b: Button, render: real -> string)
    ensures b.kind == DigitKey ==> Next(s, b, render).expr == s.expr
    ensures b.kind == EqualKey ==> Next(s, b, render).expr == []
    ensures b.kind == ControlKey ==> Next(s, b, render).expr == if b.caption == "C" then [] else s.expr
    ensures b.kind == OperatorKey ==> Next(s, b, render) == EnterOperator(s, b.caption)
  {
    match b.kind
    case DigitKey =>
    case OperatorKey =>
    case EqualKey =>
      assert Evaluate(s, render).expr == [];
    case ControlKey =>
  }

  /** Every key keeps the token list alternating, with an operator last
      when it is not empty. */
  lemma NextKeepsAlternating(s: State, b: Button, render: real -> string)
    requires Alternating(s.expr) && ValidButton(b)
    ensures Alternating(Next(s, b, render).expr)
    ensures var e := Next(s, b, render).expr; |e| > 0 ==> IsOperator(e[|e| - 1])
  {
    var e := Next(s, b, render).expr;
    NextExpr(s, b, render);
    if b.kind == OperatorKey {
      if s.display != "Error" {
        OperatorAppendsOrReplaces(s, b.caption);
        if |s.expr| > 0 {
          assert e == s.expr[..|s.expr| - 1] + [b.caption];
          assert forall i | 0 <= i < |e| - 1 :: e[i] == s.expr[i];
        } else {
          assert e == [s.display, b.caption];
        }
      }
    }
  }

  /** While the display is not an operator symbol, no key puts an operator
      symbol at an operand position of the list. */
  lemma NextKeepsOperands(s: State, b: Button, render: real -> string)
    requires Alternating(s.expr) && OperandsAreNumbers(s.expr) && !IsOperator(s.display)
    requires ValidButton(b)
    ensures OperandsAreNumbers(Next(s, b, render).expr)
  {
    var e := s.expr;
    if b.kind == OperatorKey && s.display != "Error" {
      if |e| > 0 {
        assert (|e| - 1) % 2 == 1;
        assert IsOperator(e[|e| - 1]);
      } else {
        assert Next(s, b, render).expr == [s.display, b.caption];
      }
    }
  }

  /** The intended operator key keeps the same shape of the list. */
  lemma NextIntendedKeepsShape(s: State, b: Button, render: real -> string)
    requires Alternating(s.expr) && OperandsAreNumbers(s.expr) && !IsOperator(s.display)
    requires ValidButton(b)
    ensures Alternating(NextIntended(s, b, render).expr)
    ensures OperandsAreNumbers(NextIntended(s, b, render).expr)
    ensures var e := NextIntended(s, b, render).expr; |e| > 0 ==> IsOperator(e[|e| - 1])
  {
    var e := s.expr;
    if b.kind == OperatorKey && s.display != "Error" {
      var r := NextIntended(s, b, render);
      if !(s.waitingForOperand && |e| > 0 && IsOperator(e[|e| - 1])) {
        assert forall i | 0 <= i < |e| :: r.expr[i] == e[i];
        assert r.expr[|e|] == s.display;
      }
    } else {
      NextKeepsAlternating(s, b, render);
      NextKeepsOperands(s, b, render);
    }
  }

  lemma PrefixKeepsOneDot(a: string, n: nat)
    requires AtMostOneDot(a) && n <= |a|
    ensures AtMostOneDot(a[..n])
  {
    forall i, j | 0 <= i < j < n
      ensures !(a[..n][i] == '.' && a[..n][j] == '.')
    {
      assert a[..n][i] == a[i] && a[..n][j] == a[j];
    }
  }

  /** Every key keeps at most one point on the display, given renderings
      with at most one. */
  lemma NextKeepsOneDot(s: State, b: Button, render: real -> string)
    requires AtMostOneDot(s.display) && ValidButton(b)
    requires forall x :: AtMostOneDot(render(x))
    ensures AtMostOneDot(Next(s, b, render).display)
  {
    match b.kind
    case DigitKey =>
      assert b.caption == [b.caption[0]];
      DigitKeepsOneDot(s, b.caption);
    case OperatorKey =>
      assert AtMostOneDot("0");
    case EqualKey =>
      assert AtMostOneDot("0") && AtMostOneDot("Error");
    case ControlKey =>
      assert AtMostOneDot("0");
      if b.caption == "←" && |s.display| > 1 && s.display != "Error" {
        PrefixKeepsOneDot(s.display, |s.display| - 1);
      }
  }

  lemma {:induction false} AlternatingWellFormed(e: seq<string>, d: string)
    requires Alternating(e) && OperandsAreNumbers(e) && !IsOperator(d)
    ensures WellFormed(e + [d])
    decreases |e|
  {
    var t := e + [d];
    if |e| > 0 {
      var q := e[..|e| - 2];
      assert Alternating(q) && OperandsAreNumbers(q) by {
        assert forall i | 0 <= i < |q| :: q[i] == e[i];
      }
      AlternatingWellFormed(q, e[|e| - 2]);
      assert t[..|t| - 2] == q + [e[|e| - 2]];
      assert t[|t| - 2] == e[|e| - 1];
    }
  }

  /** `=` on a list built by the keys evaluates with precedence: the display
      shows the grammar's value of the list followed by the display. */
  lemma EqualsFollowsPrecedence(s: State, render: real -> string)
    requires Alternating(s.expr) && OperandsAreNumbers(s.expr)
    requires !IsOperator(s.display) && s.display != "Error"
    ensures WellFormed(Completed(s))
    ensures Evaluate(s, render) == State(Shown(Eval(s.expr + [s.display]), render), false, [])
  {
    AlternatingWellFormed(s.expr, s.display);
    assert (s.expr + [s.display])[|s.expr|] == s.display;
    RunAgreesWithPrecedence(s.expr + [s.display]);
  }

  /** On "Error" an operator or `=` resets; "C" always resets. */
  lemma ResetKeys(s: State, b: Button, render: real -> string)
    requires (s.display == "Error" && (b.kind == OperatorKey || b.kind == EqualKey)) ||
             (b.kind == ControlKey && b.caption == "C")
    ensures Next(s, b, render) == Initial
    ensures Next(Next(s, b, render), Key("C"), render) == Next(s, b, render)
  {
  }

  /** "←" never empties a display that is not empty and touches nothing
      else; it turns a single character or "Error" into "0". */
  lemma BackspaceKeepsDisplay(s: State)
    requires |s.display| > 0
    ensures var r := Backspace(s);
      |r.display| > 0 && r.expr == s.expr && r.waitingForOperand == s.waitingForOperand &&
      (|s.display| == 1 || s.display == "Error" ==> r.display == "0") &&
      (|s.display| > 1 && s.display != "Error" ==> r.display + [s.display[|s.display| - 1]] == s.display)
  {
  }

  // ---------------------------------------------------------------------------
  // Click sequences.

  lemma PressOne(s: State, keys: seq<string>, k: string, render: real -> string)
    ensures PressAll(s, keys + [k], render) == Next(PressAll(s, keys, render), Key(k), render)
  {
    assert (keys + [k])[..|keys|] == keys;
  }

  /** Pressing `a` then `b` is pressing `a + b`. */
  lemma {:induction false} PressAllAppend(s: State, a: seq<string>, b: seq<string>, render: real -> string)
    ensures PressAll(s, a + b, render) == PressAll(PressAll(s, a, render), b, render)
    decreases |b|
  {
    if b == [] {
      assert a + b == a;
    } else {
      var c := b[..|b| - 1];
      assert (a + b)[..|a + b| - 1] == a + c;
      assert (a + b)[|a + b| - 1] == b[|b| - 1];
      PressAllAppend(s, a, c, render);
    }
  }

  /** A token list holding at most one pending operand and operator. */
  predicate AtMostOnePending(e: seq<string>) {
    e == [] || (|e| == 2 && IsOperator(e[1]))
  }

  /** With the operator key as written, no key lets the list grow past one
      operand and one operator. */
  lemma KeyKeepsOnePending(s: State, b: Button, render: real -> string)
    requires AtMostOnePending(s.expr)
    requires b.kind == OperatorKey ==> IsOperator(b.caption)
    ensures AtMostOnePending(Next(s, b, render).expr)
  {
    NextExpr(s, b, render);
    if b.kind == OperatorKey && s.display != "Error" {
      assert Alternating(s.expr);
      OperatorAppendsOrReplaces(s, b.caption);
    }
  }

  /** From mounting, whatever the clicks, the token list never holds more
      than two tokens: `=` can only ever see "a o b". */
  lemma {:induction false} KeysKeepOnePending(keys: seq<string>, render: real -> string)
    ensures AtMostOnePending(PressAll(Initial, keys, render).expr)
    ensures |PressAll(Initial, keys, render).expr| <= 2
    decreases |keys|
  {
    if keys != [] {
      var init := keys[..|keys| - 1];
      var k := keys[|keys| - 1];
      KeysKeepOnePending(init, render);
      KeyKeepsOnePending(PressAll(Initial, init, render), Key(k), render);
    }
  }

  /** A one-character digit key. */
  predicate IsDigitKey(k: string) {
    |k| == 1 && IsDigit(k[0])
  }

  lemma DigitKeyIsNotOperator(k: string)
    requires IsDigitKey(k)
    ensures !IsOperator(k) && Key(k) == Button(k, DigitKey) && k != "Error" && k != "."
  {
  }

  /** "a o" for a digit key `a` and an operator `o`. */
  lemma DigitThenOperator(a: string, o: string, render: real -> string)
    requires IsDigitKey(a) && IsOperator(o)
    ensures PressAll(Initial, [a, o], render) == State(a, true, [a, o])
  {
    DigitKeyIsNotOperator(a);
    PressOne(Initial, [], a, render);
    assert PressAll(Initial, [a], render) == State(a, false, []);
    PressOne(Initial, [a], o, render);
    assert [a] + [o] == [a, o];
  }

  /** "a o b =" for digit keys `a`, `b` and an operator `o` shows `a o b`. */
  lemma BinaryKeys(a: string, o: string, b: string, render: real -> string)
    requires IsDigitKey(a) && IsDigitKey(b) && IsOperator(o)
    ensures PressAll(Initial, [a, o, b, "="], render) ==
            State(Shown(Combine(OperatorOf(o).value, Operand(a), Operand(b)), render), false, [])
  {
    DigitKeyIsNotOperator(b);
    DigitThenOperator(a, o, render);
    PressOne(Initial, [a, o], b, render);
    assert [a, o] + [b] == [a, o, b];
    assert PressAll(Initial, [a, o, b], render) == State(b, false, [a, o]);
    PressOne(Initial, [a, o, b], "=", render);
    assert [a, o, b] + ["="] == [a, o, b, "="];
    EqualsAfterBinary(a, o, b, render);
  }

  /** "=" on "a o" with "b" displayed shows the result of "a o b". */
  lemma EqualsAfterBinary(a: string, o: string, b: string, render: real -> string)
    requires IsDigitKey(a) && IsDigitKey(b) && IsOperator(o)
    ensures Next(State(b, false, [a, o]), Key("="), render) ==
            State(Shown(Combine(OperatorOf(o).value, Operand(a), Operand(b)), render), false, [])
  {
    DigitKeyIsNotOperator(b);
    assert Completed(State(b, false, [a, o])) == [a, o, b];
    RunBinary(a, o, b);
  }

  /** "5 + 6 =" shows 11. */
  lemma FivePlusSix(render: real -> string)
    ensures PressAll(Initial, ["5", "+", "6", "="], render).display == render(11.0)
  {
    BinaryKeys("5", "+", "6", render);
    OperandOfNat(5);
    OperandOfNat(6);
    assert NatToString(5) == "5" && NatToString(6) == "6";
  }

  /** "4 ÷ 0 =" shows "Error". */
  lemma DivideByZeroShowsError(render: real -> string)
    ensures PressAll(Initial, ["4", "÷", "0", "="], render).display == "Error"
  {
    BinaryKeys("4", "÷", "0", render);
    OperandOfNat(4);
    OperandOfNat(0);
    assert NatToString(4) == "4" && NatToString(0) == "0";
  }

  /** Once "Error" shows, "C" or "=" brings back the initial state. */
  lemma ErrorThenReset(keys: seq<string>, render: real -> string)
    requires PressAll(Initial, keys, render).display == "Error"
    ensures PressAll(Initial, keys + ["C"], render) == Initial
    ensures PressAll(Initial, keys + ["="], render) == Initial
  {
    PressOne(Initial, keys, "C", render);
    PressOne(Initial, keys, "=", render);
  }

  /** "a o1 b o2": the second operator replaces the first, and the operand
      `b` typed between them is dropped. */
  lemma ChainPrefix(a: string, o1: string, b: string, o2: string, render: real -> string)
    requires IsDigitKey(a) && IsDigitKey(b) && IsOperator(o1) && IsOperator(o2)
    ensures PressAll(Initial, [a, o1, b, o2], render) == State(b, true, [a, o2])
  {
    DigitKeyIsNotOperator(b);
    DigitThenOperator(a, o1, render);
    PressOne(Initial, [a, o1], b, render);
    assert [a, o1] + [b] == [a, o1, b];
    assert PressAll(Initial, [a, o1, b], render) == State(b, false, [a, o1]);
    PressOne(Initial, [a, o1, b], o2, render);
    OperatorKeyStep(State(b, false, [a, o1]), o2, render);
    assert [a, o1][1 := o2] == [a, o2];
    assert [a, o1, b] + [o2] == [a, o1, b, o2];
  }

  /** "a o1 b o2 c =" computes `a o2 c`: only the first operand and the last
      operator and operand reach the evaluation. */
  lemma ChainKeys(a: string, o1: string, b: string, o2: string, c: string, render: real -> string)
    requires IsDigitKey(a) && IsDigitKey(b) && IsDigitKey(c) && IsOperator(o1) && IsOperator(o2)
    ensures PressAll(Initial, [a, o1, b, o2, c, "="], render) ==
            State(Shown(Combine(OperatorOf(o2).value, Operand(a), Operand(c)), render), false, [])
  {
    DigitKeyIsNotOperator(a);
    DigitKeyIsNotOperator(c);
    ChainPrefix(a, o1, b, o2, render);
    PressOne(Initial, [a, o1, b, o2], c, render);
    assert [a, o1, b, o2] + [c] == [a, o1, b, o2, c];
    assert PressAll(Initial, [a, o1, b, o2, c], render) == State(c, false, [a, o2]);
    PressOne(Initial, [a, o1, b, o2, c], "=", render);
    assert [a, o1, b, o2, c] + ["="] == [a, o1, b, o2, c, "="];
    assert Completed(State(c, false, [a, o2])) == [a, o2, c];
    RunBinary(a, o2, c);
  }

  /** As written, "2 + 3 × 4 =" shows 8, where 14 is intended. */
  lemma TwoPlusThreeTimesFourShows8AsWritten(render: real -> string)
    ensures PressAll(Initial, ["2", "+", "3", "×", "4", "="], render).display == render(8.0)
  {
    ChainKeys("2", "+", "3", "×", "4", render);
    OperandOfNat(2);
    OperandOfNat(4);
    assert NatToString(2) == "2" && NatToString(4) == "4";
    assert Apply(Times, Finite(2.0), Finite(4.0)) == Number(Finite(8.0));
  }

  /** As written, "2 + 2 + 2 =" shows 4, where 6 is intended. */
  lemma TwoPlusTwoPlusTwoShows4AsWritten(render: real -> string)
    ensures PressAll(Initial, ["2", "+", "2", "+", "2", "="], render).display == render(4.0)
  {
    ChainKeys("2", "+", "2", "+", "2", render);
    OperandOfNat(2);
    assert NatToString(2) == "2";
    assert Apply(Plus, Finite(2.0), Finite(2.0)) == Number(Finite(4.0));
  }

  /** As written, an operator key after an operand replaces the operator
      the list ends in, so the operand typed is lost; the intended key
      appends it. */
  lemma OperandDroppedAsWritten(s: State, caption: string)
    requires s.display != "Error" && !s.waitingForOperand
    requires |s.expr| > 0 && IsOperator(s.expr[|s.expr| - 1])
    ensures EnterOperator(s, caption).expr == s.expr[..|s.expr| - 1] + [caption]
    ensures EnterOperatorIntended(s, caption).expr == s.expr + [s.display, caption]
    ensures |EnterOperator(s, caption).expr| + 2 == |EnterOperatorIntended(s, caption).expr|
  {
    var e := s.expr;
    assert e[|e| - 1 := caption] == e[..|e| - 1] + [caption];
  }

  /** "a o1 o2": the second operator replaces the first. */
  lemma OperatorReplacedPrefix(a: string, o1: string, o2: string, render: real -> string)
    requires IsDigitKey(a) && IsOperator(o1) && IsOperator(o2)
    ensures PressAll(Initial, [a, o1, o2], render) == State(a, true, [a, o2])
  {
    DigitThenOperator(a, o1, render);
    PressOne(Initial, [a, o1], o2, render);
    OperatorKeyStep(State(a, true, [a, o1]), o2, render);
    assert [a, o1][1 := o2] == [a, o2];
    assert [a, o1] + [o2] == [a, o1, o2];
  }

  /** "a o1 o2 b =" computes `a o2 b`. */
  lemma OperatorReplacedKeys(a: string, o1: string, o2: string, b: string, render: real -> string)
    requires IsDigitKey(a) && IsDigitKey(b) && IsOperator(o1) && IsOperator(o2)
    ensures PressAll(Initial, [a, o1, o2, b, "="], render) ==
            State(Shown(Combine(OperatorOf(o2).value, Operand(a), Operand(b)), render), false, [])
  {
    DigitKeyIsNotOperator(a);
    DigitKeyIsNotOperator(b);
    OperatorReplacedPrefix(a, o1, o2, render);
    PressOne(Initial, [a, o1, o2], b, render);
    assert [a, o1, o2] + [b] == [a, o1, o2, b];
    assert PressAll(Initial, [a, o1, o2, b], render) == State(b, false, [a, o2]);
    PressOne(Initial, [a, o1, o2, b], "=", render);
    assert [a, o1, o2, b] + ["="] == [a, o1, o2, b, "="];
    assert Completed(State(b, false, [a, o2])) == [a, o2, b];
    RunBinary(a, o2, b);
  }

  /** "9 + - 5 =" shows 4. */
  lemma NinePlusMinusFiveShows4(render: real -> string)
    ensures PressAll(Initial, ["9", "+", "-", "5", "="], render).display == render(4.0)
  {
    OperatorReplacedKeys("9", "+", "-", "5", render);
    OperandOfNat(9);
    OperandOfNat(5);
    assert NatToString(9) == "9" && NatToString(5) == "5";
  }

  /** `=` on "- + c" shows "Error": both pops of the first "-" find an
      empty stack. */
  lemma SignOperandEquals(c: string, render: real -> string)
    requires IsDigitKey(c)
    ensures Evaluate(State(c, false, ["-", "+"]), render).display == "Error"
  {
    DigitKeyIsNotOperator(c);
    assert Completed(State(c, false, ["-", "+"])) == ["-", "+", c];
    ParseDigits(c);
    LeadingOperatorIsNaN(c, DigitsValue(c) as real);
  }

  /** A display holding only the sign: an operator key pushes "-" as an
      operand. */
  lemma SignPushedAsOperand(render: real -> string)
    ensures PressAll(State("-", false, []), ["+"], render) == State("-", true, ["-", "+"])
    ensures !OperandsAreNumbers(PressAll(State("-", false, []), ["+"], render).expr)
  {
    var s0 := State("-", false, []);
    PressOne(s0, [], "+", render);
    OperatorKeyStep(s0, "+", render);
    assert [] + ["+"] == ["+"];
    assert [] + ["-", "+"] == ["-", "+"];
    assert State("-", true, ["-", "+"]).expr[0] == "-";
  }

  lemma SignPlusDigit(c: string, render: real -> string)
    requires IsDigitKey(c)
    ensures PressAll(State("-", false, []), ["+", c], render) == State(c, false, ["-", "+"])
  {
    var s1 := State("-", true, ["-", "+"]);
    SignPushedAsOperand(render);
    PressOne(State("-", false, []), ["+"], c, render);
    TypeKey(s1, c, render);
    DigitKeyIsNotOperator(c);
    assert ["+"] + [c] == ["+", c];
  }

  /** With the sign pushed as an operand, "c =" pops `undefined` and shows
      "Error". */
  lemma SignOperandShowsError(c: string, render: real -> string)
    requires IsDigitKey(c)
    ensures PressAll(State("-", false, []), ["+", c, "="], render).display == "Error"
  {
    SignPlusDigit(c, render);
    PressOne(State("-", false, []), ["+", c], "=", render);
    assert ["+", c] + ["="] == ["+", c, "="];
    SignOperandEquals(c, render);
  }

  /** "2 - 5 =" shows the rendering of -3. */
  lemma TwoMinusFive(render: real -> string)
    ensures PressAll(Initial, ["2", "-", "5", "="], render) == State(render(-3.0), false, [])
  {
    BinaryKeys("2", "-", "5", render);
    OperandOfNat(2);
    OperandOfNat(5);
    assert NatToString(2) == "2" && NatToString(5) == "5";
    assert Apply(Minus, Finite(2.0), Finite(5.0)) == Number(Finite(-3.0));
  }

  /** "2 - 5 =" shows "-3" (as `toString` renders -3), and "←" leaves the
      sign alone on the display. */
  lemma NegativeResultErased(render: real -> string)
    requires render(-3.0) == "-3"
    ensures PressAll(Initial, ["2", "-", "5", "=", "←"], render) == State("-", false, [])
  {
    var k := ["2", "-", "5", "="];
    TwoMinusFive(render);
    PressOne(Initial, k, "←", render);
    EraseKey(State("-3", false, []), render);
    assert "-3"[..1] == "-";
    assert k + ["←"] == ["2", "-", "5", "=", "←"];
  }

  /** "2 - 5 = ← + 4 =" shows "Error": the display does not always hold a
      number when an operator key pushes it. */
  lemma NegativeErasedShowsError(render: real -> string)
    requires render(-3.0) == "-3"
    ensures PressAll(Initial, ["2", "-", "5", "=", "←", "+", "4", "="], render).display == "Error"
  {
    var k1 := ["2", "-", "5", "=", "←"];
    NegativeResultErased(render);
    assert IsDigitKey("4");
    SignOperandShowsError("4", render);
    PressAllAppend(Initial, k1, ["+", "4", "="], render);
    assert k1 + ["+", "4", "="] == ["2", "-", "5", "=", "←", "+", "4", "="];
  }

  // ---------------------------------------------------------------------------
  // The intended operator key.

  /** As intended, an operator key after an operand keeps the operand:
      "2 + 3 ×" leaves the list "2 + 3 ×". */
  lemma OperandKept(s: State, caption: string)
    requires s.display != "Error" && !s.waitingForOperand
    ensures EnterOperatorIntended(s, caption) == State(s.display, true, s.expr + [s.display, caption])
    ensures EnterOperatorIntended(State("3", false, ["2", "+"]), "×") == State("3", true, ["2", "+", "3", "×"])
  {
    assert ["2", "+"] + ["3", "×"] == ["2", "+", "3", "×"];
  }

  lemma PressOneIntended(s: State, keys: seq<string>, k: string, render: real -> string)
    ensures PressAllIntended(s, keys + [k], render) == NextIntended(PressAllIntended(s, keys, render), Key(k), render)
  {
    assert (keys + [k])[..|keys|] == keys;
  }

  /** "a o" with the intended key: the display and the operator are listed. */
  lemma DigitThenOperatorIntended(a: string, o: string, render: real -> string)
    requires IsDigitKey(a) && IsOperator(o)
    ensures PressAllIntended(Initial, [a, o], render) == State(a, true, [a, o])
  {
    DigitKeyIsNotOperator(a);
    PressOneIntended(Initial, [], a, render);
    assert [] + [a] == [a];
    assert PressAllIntended(Initial, [a], render) == State(a, false, []);
    PressOneIntended(Initial, [a], o, render);
    assert [a] + [o] == [a, o];
  }

  /** "a o1 b o2" with the intended key keeps every token. */
  lemma ChainPrefixIntended(a: string, o1: string, b: string, o2: string, render: real -> string)
    requires IsDigitKey(a) && IsDigitKey(b) && IsOperator(o1) && IsOperator(o2)
    ensures PressAllIntended(Initial, [a, o1, b, o2], render) == State(b, true, [a, o1, b, o2])
  {
    DigitKeyIsNotOperator(b);
    DigitThenOperatorIntended(a, o1, render);
    PressOneIntended(Initial, [a, o1], b, render);
    assert [a, o1] + [b] == [a, o1, b];
    assert PressAllIntended(Initial, [a, o1, b], render) == State(b, false, [a, o1]);
    PressOneIntended(Initial, [a, o1, b], o2, render);
    assert [a, o1, b] + [o2] == [a, o1, b, o2];
  }

  /** "a o1 b o2 c =" with the intended key evaluates the whole list. */
  lemma ChainKeysIntended(a: string, o1: string, b: string, o2: string, c: string, render: real -> string)
    requires IsDigitKey(a) && IsDigitKey(b) && IsDigitKey(c) && IsOperator(o1) && IsOperator(o2)
    ensures PressAllIntended(Initial, [a, o1, b, o2, c, "="], render) ==
            State(Shown(Run([a, o1, b, o2, c]), render), false, [])
  {
    DigitKeyIsNotOperator(c);
    ChainPrefixIntended(a, o1, b, o2, render);
    PressOneIntended(Initial, [a, o1, b, o2], c, render);
    assert [a, o1, b, o2] + [c] == [a, o1, b, o2, c];
    assert PressAllIntended(Initial, [a, o1, b, o2, c], render) == State(c, false, [a, o1, b, o2]);
    PressOneIntended(Initial, [a, o1, b, o2, c], "=", render);
    assert [a, o1, b, o2, c] + ["="] == [a, o1, b, o2, c, "="];
    assert Completed(State(c, false, [a, o1, b, o2])) == [a, o1, b, o2, c];
  }

  /** With the intended key, "2 + 3 × 4 =" shows 14: multiplication first. */
  lemma TwoPlusThreeTimesFourShows14(render: real -> string)
    ensures PressAllIntended(Initial, ["2", "+", "3", "×", "4", "="], render).display == render(14.0)
  {
    ChainKeysIntended("2", "+", "3", "×", "4", render);
    TwoPlusThreeTimesFour();
  }

  /** With the intended key, "2 + 2 + 2 =" shows 6. */
  lemma TwoPlusTwoPlusTwoShows6(render: real -> string)
    ensures PressAllIntended(Initial, ["2", "+", "2", "+", "2", "="], render).display == render(6.0)
  {
    ChainKeysIntended("2", "+", "2", "+", "2", render);
    OperandOfNat(2);
    assert NatToString(2) == "2";
    AdditiveLeftToRight("2", "+", "2", "+", "2");
  }

  /** A digit or point key goes to the digit branch. */
  lemma TypeKey(s: State, k: string, render: real -> string)
    requires IsDigitKey(k) || k == "."
    ensures Next(s, Key(k), render) == EnterDigit(s, k)
  {
    if k != "." {
      DigitKeyIsNotOperator(k);
    }
  }

  /** An operator key goes to the operator branch. */
  lemma OperatorKeyStep(s: State, k: string, render: real -> string)
    requires IsOperator(k)
    ensures Next(s, Key(k), render) == EnterOperator(s, k)
  {
  }

  lemma EraseKey(s: State, render: real -> string)
    ensures Next(s, Key("←"), render) == Backspace(s)
  {
  }

  /** Three digit keys, the first not "0", show the three digits. */
  lemma ThreeDigits(a: string, b: string, c: string, render: real -> string)
    requires IsDigitKey(a) && IsDigitKey(b) && IsDigitKey(c) && a != "0"
    ensures PressAll(Initial, [a, b], render) == State(a + b, false, [])
    ensures PressAll(Initial, [a, b, c], render) == State(a + b + c, false, [])
  {
    PressOne(Initial, [], a, render);
    TypeKey(Initial, a, render);
    assert [] + [a] == [a];
    assert PressAll(Initial, [a], render) == State(a, false, []);
    PressOne(Initial, [a], b, render);
    TypeKey(State(a, false, []), b, render);
    assert [a] + [b] == [a, b];
    PressOne(Initial, [a, b], c, render);
    TypeKey(State(a + b, false, []), c, render);
    assert [a, b] + [c] == [a, b, c];
  }

  /** "←" after three digits takes them back one at a time, down to "0". */
  lemma ThreeErased(a: string, b: string, c: string, render: real -> string)
    requires IsDigitKey(a) && IsDigitKey(b) && IsDigitKey(c) && a != "0"
    ensures PressAll(Initial, [a, b, c, "←"], render) == State(a + b, false, [])
    ensures PressAll(Initial, [a, b, c, "←", "←"], render) == State(a, false, [])
    ensures PressAll(Initial, [a, b, c, "←", "←", "←"], render) == State("0", false, [])
  {
    ThreeDigits(a, b, c, render);
    var k3 := [a, b, c];
    var k4 := k3 + ["←"];
    var k5 := k4 + ["←"];
    PressOne(Initial, k3, "←", render);
    EraseKey(State(a + b + c, false, []), render);
    assert (a + b + c)[..2] == a + b;
    PressOne(Initial, k4, "←", render);
    EraseKey(State(a + b, false, []), render);
    assert (a + b)[..1] == a;
    PressOne(Initial, k5, "←", render);
    EraseKey(State(a, false, []), render);
    assert k4 == [a, b, c, "←"];
    assert k5 == [a, b, c, "←", "←"];
    assert k5 + ["←"] == [a, b, c, "←", "←", "←"];
  }

  /** Leading "0" keys are dropped: "0 0 b c" shows `b c` for `b` not "0". */
  lemma ZerosDropped(b: string, c: string, render: real -> string)
    requires IsDigitKey(b) && IsDigitKey(c) && b != "0"
    ensures PressAll(Initial, ["0", "0", b, c], render) == State(b + c, false, [])
  {
    assert IsDigitKey("0");
    PressOne(Initial, [], "0", render);
    TypeKey(Initial, "0", render);
    assert [] + ["0"] == ["0"];
    assert PressAll(Initial, ["0"], render) == Initial;
    PressOne(Initial, ["0"], "0", render);
    assert ["0"] + ["0"] == ["0", "0"];
    assert PressAll(Initial, ["0", "0"], render) == Initial;
    PressOne(Initial, ["0", "0"], b, render);
    TypeKey(Initial, b, render);
    assert ["0", "0"] + [b] == ["0", "0", b];
    assert PressAll(Initial, ["0", "0", b], render) == State(b, false, []);
    PressOne(Initial, ["0", "0", b], c, render);
    TypeKey(State(b, false, []), c, render);
    assert ["0", "0", b] + [c] == ["0", "0", b, c];
  }

  /** "a . b . c": the second point is ignored. */
  lemma PointsTyped(a: string, b: string, c: string, render: real -> string)
    requires IsDigitKey(a) && IsDigitKey(b) && IsDigitKey(c) && a != "0"
    ensures PressAll(Initial, [a, ".", b], render) == State(a + "." + b, false, [])
    ensures PressAll(Initial, [a, ".", b, ".", c], render) == State(a + "." + b + c, false, [])
  {
    var k1 := [a];
    var k2 := k1 + ["."];
    var k3 := k2 + [b];
    var k4 := k3 + ["."];
    PressOne(Initial, [], a, render);
    TypeKey(Initial, a, render);
    assert [] + [a] == k1;
    assert PressAll(Initial, k1, render) == State(a, false, []);
    PressOne(Initial, k1, ".", render);
    TypeKey(State(a, false, []), ".", render);
    assert PressAll(Initial, k2, render) == State(a + ".", false, []);
    PressOne(Initial, k2, b, render);
    TypeKey(State(a + ".", false, []), b, render);
    assert PressAll(Initial, k3, render) == State(a + "." + b, false, []);
    PressOne(Initial, k3, ".", render);
    TypeKey(State(a + "." + b, false, []), ".", render);
    assert (a + "." + b)[1] == '.';
    assert PressAll(Initial, k4, render) == State(a + "." + b, false, []);
    PressOne(Initial, k4, c, render);
    TypeKey(State(a + "." + b, false, []), c, render);
    assert k3 == [a, ".", b];
    assert k4 + [c] == [a, ".", b, ".", c];
  }

  /** "0 0 1 2" shows "12": leading zeros are dropped. */
  lemma LeadingZeros(render: real -> string)
    ensures PressAll(Initial, ["0", "0", "1", "2"], render).display == "12"
  {
    ZerosDropped("1", "2", render);
    assert "1" + "2" == "12";
  }

  /** "1 . 2" shows "1.2" and "1 . 2 . 3" shows "1.23". */
  lemma SecondPointIgnored(render: real -> string)
    ensures PressAll(Initial, ["1", ".", "2"], render).display == "1.2"
    ensures PressAll(Initial, ["1", ".", "2", ".", "3"], render).display == "1.23"
  {
    PointsTyped("1", "2", "3", render);
    assert "1" + "." + "2" == "1.2";
    assert "1" + "." + "2" + "3" == "1.23";
  }

  /** "1 2 3" shows "123". */
  lemma OneTwoThree(render: real -> string)
    ensures PressAll(Initial, ["1", "2", "3"], render).display == "123"
  {
    ThreeDigits("1", "2", "3", render);
    assert "1" + "2" + "3" == "123";
  }

  /** "1 2 3" then "←" three times shows "12", "1", then "0". */
  lemma BackspaceThrice(render: real -> string)
    ensures PressAll(Initial, ["1", "2", "3", "←"], render).display == "12"
    ensures PressAll(Initial, ["1", "2", "3", "←", "←"], render).display == "1"
    ensures PressAll(Initial, ["1", "2", "3", "←", "←", "←"], render).display == "0"
  {
    ThreeErased("1", "2", "3", render);
    assert "1" + "2" == "12";
  }

  class Machine {
    var display: string
    var waitingForOperand: bool
    var expr: seq<string>

    function Snapshot(): State
      reads this
    {
      State(display, waitingForOperand, expr)
    }

    constructor()
      ensures Snapshot() == Initial
    {
      display := "0";
      waitingForOperand := false;
      expr := [];
    }

    /** `handleButtonClick`, one click, on the fields in place. */
    method HandleButtonClick(btn: Button, render: real -> string)
      modifies this
      ensures Snapshot() == Next(old(Snapshot()), btn, render)
    {
      var caption := btn.caption;
      if btn.kind == DigitKey {
        if display == "Error" || (waitingForOperand && caption != ".") {
          display := if caption == "." then "0." else caption;
          waitingForOperand := false;
        } else if caption == "." {
          if '.' !in display {
            display := display + ".";
          }
        } else if display == "0" {
          display := caption;
        } else {
          display := display + caption;
        }
      } else if btn.kind == OperatorKey {
        if display == "Error" {
          display := "0";
          expr := [];
          waitingForOperand := false;
        } else {
          var newExpr := expr;
          if |newExpr| > 0 && IsOperator(newExpr[|newExpr| - 1]) {
            newExpr := newExpr[|newExpr| - 1 := caption];
          } else {
            newExpr := newExpr + [display, caption];
          }
          expr := newExpr;
          waitingForOperand := true;
        }
      } else if btn.kind == EqualKey {
        if display == "Error" {
          display := "0";
          expr := [];
          waitingForOperand := false;
        } else {
          var fullExpr := expr + [display];
          if IsOperator(fullExpr[|fullExpr| - 1]) {
            fullExpr := fullExpr[..|fullExpr| - 1];
          }
          var result := EvaluateExpression(fullExpr);
          display := Shown(result, render);
          expr := [];
          waitingForOperand := false;
        }
      } else if caption == "C" {
        display := "0";
        expr := [];
        waitingForOperand := false;
      } else if caption == "←" {
        if |display| == 1 || display == "Error" {
          display := "0";
        } else if |display| > 0 {
          display := display[..|display| - 1];
        }
      }
    }
  }
}
