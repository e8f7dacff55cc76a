/** `evaluateExpression`: the two-stack operator-precedence sweep over a token
    list (operand strings and the operator symbols "+", "-", "×", "÷").

    The stack machine is given twice: as the functions `Step`, `Reduce` and
    `Run`, which say what the source does token by token, and as the method
    `EvaluateExpression`, which does it with two mutable stacks and nested
    loops. The grammar `Eval` (expr := expr (+|-) term | term;
    term := term (×|÷) operand | operand) is the independent reference:
    on every well-formed token list the machine computes `Eval`. */
module Expression {
  import opened Numbers

  datatype Operator = Plus | Minus | Times | Divide

  /** The keys of the `OPERATORS` table. */
  function OperatorOf(s: string): Option<Operator> {
    if |s| != 1 then None
    else if s[0] == '+' then Some(Plus)
    else if s[0] == '-' then Some(Minus)
    else if s[0] == '×' then Some(Times)
    else if s[0] == '÷' then Some(Divide)
    else None
  }

  function Symbol(op: Operator): string {
    match op
    case Plus => "+"
    case Minus => "-"
    case Times => "×"
    case Divide => "÷"
  }

  /** The symbols and the operators are in one-to-one correspondence. */
  lemma SymbolRoundTrip(op: Operator, s: string)
    ensures OperatorOf(Symbol(op)) == Some(op)
    ensures OperatorOf(s) == Some(op) ==> s == Symbol(op)
  {
  }

  predicate IsOperator(s: string) { OperatorOf(s).Some? }

  /** `×` and `÷` bind tighter than `+` and `-`. */
  function Precedence(op: Operator): (p: nat)
    ensures p == 1 || p == 2
    ensures p == 2 <==> op == Times || op == Divide
  {
    match op
    case Plus => 1
    case Minus => 1
    case Times => 2
    case Divide => 2
  }

  predicate IsAdditive(op: Operator) { op == Plus || op == Minus }

  /** `OPERATORS[op].fn(a, b)`: a zero divisor gives "Error" before any
      arithmetic; NaN (or `undefined`) in either operand gives NaN. */
  function Apply(op: Operator, a: Num, b: Num): (r: Outcome)
    ensures r.Error? <==> op == Divide && b == Finite(0.0)
    ensures r.Number? && (a.NaN? || b.NaN?) ==> r.n.NaN?
    ensures r.Number? && a.Finite? && b.Finite? ==> r.n.Finite?
  {
    if op == Divide && b == Finite(0.0) then Error
    else if a.NaN? || b.NaN? then Number(NaN)
    else
      match op
      case Plus => Number(Finite(a.x + b.x))
      case Minus => Number(Finite(a.x - b.x))
      case Times => Number(Finite(a.x * b.x))
      case Divide => Number(Finite(a.x / b.x))
  }

  /** The two arrays of the sweep; the top of each is its last element. */
  datatype Stacks = Stacks(nums: seq<Num>, ops: seq<Operator>)

  const Empty := Stacks([], [])

  /** `nums.pop()`: the top and the rest. An empty array yields `undefined`,
      which acts as NaN, and stays empty. */
  function PopNum(nums: seq<Num>): (p: (Num, seq<Num>))
    ensures |nums| > 0 ==> p.0 == nums[|nums| - 1] && p.1 <= nums && |p.1| == |nums| - 1
    ensures |nums| == 0 ==> p.0 == NaN && p.1 == []
  {
    if |nums| == 0 then (NaN, []) else (nums[|nums| - 1], nums[..|nums| - 1])
  }

  /** The inner `while`: pop and apply operators while the one on top has
      precedence at least `minPrec`; `None` is the early "Error" return.
      The final loop of the source, which empties the operator stack, is
      `Reduce(s, 0)`. */
  function Reduce(s: Stacks, minPrec: nat): Option<Stacks>
    decreases |s.ops|
  {
    if |s.ops| == 0 || Precedence(s.ops[|s.ops| - 1]) < minPrec then Some(s)
    else
      var op := s.ops[|s.ops| - 1];
      var pb := PopNum(s.nums);
      var pa := PopNum(pb.1);
      match Apply(op, pa.0, pb.0)
      case Error => None
      case Number(v) => Reduce(Stacks(pa.1 + [v], s.ops[..|s.ops| - 1]), minPrec)
  }

  /** One iteration of the outer `while` on token `tok`. */
  function Step(s: Stacks, tok: string): Option<Stacks> {
    match OperatorOf(tok)
    case Some(op) =>
      (match Reduce(s, Precedence(op))
       case None => None
       case Some(r) => Some(Stacks(r.nums, r.ops + [op])))
    case None =>
      (match Parse(tok)
       case None => None
       case Some(x) => Some(Stacks(s.nums + [Finite(x)], s.ops)))
  }

  function StepFrom(o: Option<Stacks>, tok: string): Option<Stacks> {
    match o
    case None => None
    case Some(s) => Step(s, tok)
  }

  /** The stacks after the outer loop has consumed `t`, or `None` once it has
      returned "Error". */
  function RunPrefix(t: seq<string>): Option<Stacks>
    decreases |t|
  {
    if t == [] then Some(Empty) else StepFrom(RunPrefix(t[..|t| - 1]), t[|t| - 1])
  }

  /** The final loop and `nums.length === 1 ? nums[0] : "Error"`. */
  function Finish(o: Option<Stacks>): Outcome {
    match o
    case None => Error
    case Some(s) =>
      match Reduce(s, 0)
      case None => Error
      case Some(f) => if |f.nums| == 1 then Number(f.nums[0]) else Error
  }

  /** What `evaluateExpression(t)` returns. */
  function Run(t: seq<string>): Outcome {
    Finish(RunPrefix(t))
  }

  // ---------------------------------------------------------------------------
  // The reference: a left-associative two-level grammar.

  /** Operands at even positions, operators at odd positions, odd length:
      an operand, or a well-formed list followed by an operator and an operand. */
  predicate WellFormed(t: seq<string>)
    decreases |t|
  {
    |t| % 2 == 1 && !IsOperator(t[|t| - 1]) &&
    (|t| == 1 || (IsOperator(t[|t| - 2]) && WellFormed(t[..|t| - 2])))
  }

  lemma {:induction false} WellFormedAt(t: seq<string>, i: nat)
    requires WellFormed(t) && i < |t|
    ensures IsOperator(t[i]) <==> i % 2 == 1
    decreases |t|
  {
    if i < |t| - 2 {
      WellFormedAt(t[..|t| - 2], i);
    }
  }

  lemma {:induction false} WellFormedPrefix(t: seq<string>, j: nat)
    requires WellFormed(t) && j % 2 == 1 && j <= |t|
    ensures WellFormed(t[..j])
    decreases |t|
  {
    if j < |t| {
      WellFormedPrefix(t[..|t| - 2], j);
      assert t[..|t| - 2][..j] == t[..j];
    } else {
      assert t[..j] == t;
    }
  }

  lemma {:induction false} WellFormedSuffix(t: seq<string>, k: nat)
    requires WellFormed(t) && k % 2 == 0 && k < |t|
    ensures WellFormed(t[k..])
    decreases |t|
  {
    if k < |t| - 1 {
      WellFormedSuffix(t[..|t| - 2], k);
      assert t[k..][..|t| - k - 2] == t[..|t| - 2][k..];
    }
  }

  function OpAt(t: seq<string>, i: nat): Operator
    requires i < |t| && IsOperator(t[i])
  {
    OperatorOf(t[i]).value
  }

  /** An operand token: its number, or "Error" when it is not one. */
  function Operand(s: string): Outcome {
    match Parse(s)
    case None => Error
    case Some(x) => Number(Finite(x))
  }

  /** Applying an operator to two evaluated subexpressions; errors propagate. */
  function Combine(op: Operator, a: Outcome, b: Outcome): Outcome {
    if a.Error? || b.Error? then Error else Apply(op, a.n, b.n)
  }

  /** `t` without its last operator and operand. */
  function Init2(t: seq<string>): (r: seq<string>)
    requires WellFormed(t) && |t| >= 3
    ensures WellFormed(r) && r == t[..|t| - 2]
  {
    t[..|t| - 2]
  }

  /** term := term (×|÷) operand | operand, read on a list whose operators
      are all multiplicative. */
  function Term(t: seq<string>): (r: Outcome)
    requires WellFormed(t)
    ensures r.Number? ==> r.n.Finite?
    decreases |t|
  {
    if |t| == 1 then Operand(t[0])
    else Combine(OpAt(t, |t| - 2), Term(Init2(t)), Operand(t[|t| - 1]))
  }

  /** Where the last term of `t` starts: just after its last `+` or `-`. */
  function TermStart(t: seq<string>): (k: nat)
    requires WellFormed(t)
    ensures k < |t| && k % 2 == 0
    ensures k > 0 ==> IsOperator(t[k - 1]) && IsAdditive(OpAt(t, k - 1))
    decreases |t|
  {
    if |t| == 1 then 0
    else if IsAdditive(OpAt(t, |t| - 2)) then |t| - 1
    else TermStart(Init2(t))
  }

  /** Everything before the last `+` or `-`. */
  function Head(t: seq<string>): (h: seq<string>)
    requires WellFormed(t) && TermStart(t) > 0
    ensures WellFormed(h) && h == t[..TermStart(t) - 1]
  {
    WellFormedPrefix(t, TermStart(t) - 1);
    t[..TermStart(t) - 1]
  }

  /** The last term: everything after the last `+` or `-`. */
  function LastTerm(t: seq<string>): (r: seq<string>)
    requires WellFormed(t)
    ensures WellFormed(r) && r == t[TermStart(t)..]
  {
    WellFormedSuffix(t, TermStart(t));
    t[TermStart(t)..]
  }

  /** expr := expr (+|-) term | term. */
  function Eval(t: seq<string>): (r: Outcome)
    requires WellFormed(t)
    ensures r.Number? ==> r.n.Finite?
    decreases |t|
  {
    if TermStart(t) == 0 then Term(t)
    else Combine(OpAt(t, TermStart(t) - 1), Eval(Head(t)), Term(LastTerm(t)))
  }

  // ---------------------------------------------------------------------------
  // The machine computes the grammar.

  function PushValue(o: Option<Stacks>, v: Outcome): Option<Stacks> {
    if o.Some? && v.Number? then Some(Stacks(o.value.nums + [v.n], o.value.ops)) else None
  }

  function PushOperator(o: Option<Stacks>, op: Operator): Option<Stacks> {
    if o.Some? then Some(Stacks(o.value.nums, o.value.ops + [op])) else None
  }

  function ReduceFrom(o: Option<Stacks>, minPrec: nat): Option<Stacks> {
    match o
    case None => None
    case Some(s) => Reduce(s, minPrec)
  }

  /** The bottom of the stacks: empty, or a value under a `+`/`-`. */
  function Bottom(below: Option<(Outcome, Operator)>): Option<Stacks> {
    match below
    case None => Some(Empty)
    case Some(p) => if p.0.Number? then Some(Stacks([p.0.n], [p.1])) else None
  }

  /** A bottom, then optionally a term value under a `×`/`÷`, then an operand. */
  function Layer(lower: Option<Stacks>, pending: Option<(Outcome, Operator)>, last: Outcome): Option<Stacks> {
    match pending
    case None => PushValue(lower, last)
    case Some(p) => PushValue(PushOperator(PushValue(lower, p.0), p.1), last)
  }

  /** What the term on top of the stacks amounts to once its operator is applied. */
  function Settle(pending: Option<(Outcome, Operator)>, last: Outcome): Outcome {
    match pending
    case None => last
    case Some(p) => Combine(p.1, p.0, last)
  }

  /** The value of everything before the last `+`/`-` of `t`, with that operator. */
  function Below(t: seq<string>): Option<(Outcome, Operator)>
    requires WellFormed(t)
  {
    if TermStart(t) == 0 then None else Some((Eval(Head(t)), OpAt(t, TermStart(t) - 1)))
  }

  /** The last term of `t` without its last operand, with the operator before that operand. */
  function Within(t: seq<string>): Option<(Outcome, Operator)>
    requires WellFormed(t)
  {
    var tail := LastTerm(t);
    if |tail| == 1 then None else Some((Term(Init2(tail)), OpAt(t, |t| - 2)))
  }

  /** The stacks the machine holds after a well-formed prefix `t`: at the
      bottom the value of everything before the last `+`/`-` under that
      operator, then the last term so far under its pending `×`/`÷`, then
      the last operand; `None` if any of these is an error. */
  function Pending(t: seq<string>): Option<Stacks>
    requires WellFormed(t)
  {
    Layer(Bottom(Below(t)), Within(t), Operand(t[|t| - 1]))
  }

  lemma ReducePop(ns: seq<Num>, a: Num, b: Num, os: seq<Operator>, op: Operator, p: nat)
    requires Precedence(op) >= p
    ensures Reduce(Stacks(ns + [a, b], os + [op]), p) ==
            match Apply(op, a, b)
            case Error => None
            case Number(v) => Reduce(Stacks(ns + [v], os), p)
  {
    var s := Stacks(ns + [a, b], os + [op]);
    assert s.ops[..|s.ops| - 1] == os;
    assert s.nums[..|s.nums| - 1] == ns + [a];
    assert (ns + [a])[..|ns|] == ns;
  }

  /** Any operator first pops a pending `×`/`÷`. */
  lemma LayerReduces(lower: Option<Stacks>, pending: Option<(Outcome, Operator)>, last: Outcome, p: nat)
    requires p <= 2
    requires pending.Some? ==> Precedence(pending.value.1) == 2
    ensures ReduceFrom(Layer(lower, pending, last), p) == ReduceFrom(PushValue(lower, Settle(pending, last)), p)
  {
    if pending.Some? && lower.Some? && pending.value.0.Number? && last.Number? {
      var ns := lower.value.nums;
      var os := lower.value.ops;
      var a := pending.value.0.n;
      var b := last.n;
      var mop := pending.value.1;
      assert Layer(lower, pending, last) == Some(Stacks(ns + [a] + [b], os + [mop]));
      assert ns + [a] + [b] == ns + [a, b];
      ReducePop(ns, a, b, os, mop, p);
    }
  }

  /** A `×`/`÷` stops above the bottom. */
  lemma BottomStays(below: Option<(Outcome, Operator)>, v: Outcome)
    requires below.Some? ==> Precedence(below.value.1) == 1
    ensures ReduceFrom(PushValue(Bottom(below), v), 2) == PushValue(Bottom(below), v)
  {
  }

  /** The value of a bottom combined with the term above it. */
  function Total(below: Option<(Outcome, Operator)>, v: Outcome): Outcome {
    match below
    case None => v
    case Some(p) => Combine(p.1, p.0, v)
  }

  /** The stacks holding just the value `o`, or `None` when it is "Error". */
  function Collapsed(o: Outcome): Option<Stacks> {
    match o
    case Error => None
    case Number(w) => Some(Stacks([w], []))
  }

  /** Two values under one operator reduce to the operator applied. */
  lemma PairCollapses(a: Num, b: Num, op: Operator, p: nat)
    requires Precedence(op) >= p
    ensures Reduce(Stacks([a, b], [op]), p) == Collapsed(Apply(op, a, b))
  {
    var ns: seq<Num> := [];
    assert PopNum([a, b]) == (b, [a]) by {
      assert [a, b][..1] == [a];
    }
    assert PopNum([a]) == (a, ns);
    assert [op][..0] == [];
    if Apply(op, a, b).Number? {
      assert ns + [Apply(op, a, b).n] == [Apply(op, a, b).n];
    }
  }

  /** A `+`, a `-` or the end pops the bottom too. */
  lemma BottomCollapses(below: Option<(Outcome, Operator)>, v: Outcome, p: nat)
    requires below.Some? ==> IsAdditive(below.value.1)
    requires p < 2
    ensures ReduceFrom(PushValue(Bottom(below), v), p) == Collapsed(Total(below, v))
  {
    if below.Some? && below.value.0.Number? && v.Number? {
      var e := below.value.0.n;
      assert [e] + [v.n] == [e, v.n];
      PairCollapses(e, v.n, below.value.1, p);
    } else if below.None? && v.Number? {
      assert Empty.nums + [v.n] == [v.n];
    }
  }

  /** The last term of `t` is its pending term settled with the last operand. */
  lemma LastTermSettles(t: seq<string>)
    requires WellFormed(t)
    ensures Term(LastTerm(t)) == Settle(Within(t), Operand(t[|t| - 1]))
    ensures Within(t).Some? ==> Precedence(Within(t).value.1) == 2
  {
    var tail := LastTerm(t);
    assert tail[|tail| - 1] == t[|t| - 1];
    if |tail| > 1 {
      assert tail[|tail| - 2] == t[|t| - 2];
      assert TermStart(t) < |t| - 2;
      NoAdditiveAfterTermStart(t);
    }
  }

  lemma {:induction false} NoAdditiveAfterTermStart(t: seq<string>)
    requires WellFormed(t) && TermStart(t) < |t| - 1
    ensures IsOperator(t[|t| - 2]) && !IsAdditive(OpAt(t, |t| - 2))
  {
  }

  /** Below a `+`/`-` the value is the whole of `t`. */
  lemma EvalSettles(t: seq<string>)
    requires WellFormed(t)
    ensures Eval(t) == Total(Below(t), Term(LastTerm(t)))
  {
    if TermStart(t) == 0 {
      assert LastTerm(t) == t;
    }
  }

  lemma StepOperator(o: Option<Stacks>, tok: string)
    requires IsOperator(tok)
    ensures StepFrom(o, tok) == PushOperator(ReduceFrom(o, Precedence(OperatorOf(tok).value)), OperatorOf(tok).value)
  {
  }

  lemma StepOperand(o: Option<Stacks>, tok: string)
    requires !IsOperator(tok)
    ensures StepFrom(o, tok) == PushValue(o, Operand(tok))
  {
  }

  /** The pieces of `Pending(t)` make up the value of `t`. */
  lemma PendingParts(t: seq<string>)
    requires WellFormed(t)
    ensures Eval(t) == Total(Below(t), Settle(Within(t), Operand(t[|t| - 1])))
    ensures Below(t).Some? ==> IsAdditive(Below(t).value.1)
    ensures Within(t).Some? ==> Precedence(Within(t).value.1) == 2
  {
    LastTermSettles(t);
    EvalSettles(t);
  }

  /** A `+`, a `-` or the end of the input reduces the stacks to the value
      of the whole prefix. */
  lemma PendingCollapses(t: seq<string>, p: nat)
    requires WellFormed(t) && p <= 1
    ensures ReduceFrom(Pending(t), p) == Collapsed(Eval(t))
  {
    var below := Below(t);
    var within := Within(t);
    var last := Operand(t[|t| - 1]);
    PendingParts(t);
    assert Pending(t) == Layer(Bottom(below), within, last);
    LayerReduces(Bottom(below), within, last, p);
    BottomCollapses(below, Settle(within, last), p);
    assert Eval(t) == Total(below, Settle(within, last));
  }

  /** The machine on `× n` or `÷ n`: the pending term absorbs the last
      operand and waits under the new operator. */
  lemma MachineMultiplicative(before: Option<Stacks>, after: Option<Stacks>,
                              below: Option<(Outcome, Operator)>, within: Option<(Outcome, Operator)>,
                              last: Outcome, o: string, n: string)
    requires below.Some? ==> IsAdditive(below.value.1)
    requires within.Some? ==> Precedence(within.value.1) == 2
    requires IsOperator(o) && !IsAdditive(OperatorOf(o).value) && !IsOperator(n)
    requires before == Layer(Bottom(below), within, last)
    requires after == Layer(Bottom(below), Some((Settle(within, last), OperatorOf(o).value)), Operand(n))
    ensures StepFrom(StepFrom(before, o), n) == after
  {
    StepOperator(before, o);
    LayerReduces(Bottom(below), within, last, 2);
    BottomStays(below, Settle(within, last));
    StepOperand(StepFrom(before, o), n);
  }

  /** The machine on `+ n` or `- n`: everything so far collapses to one
      value, which goes under the new operator. */
  lemma MachineAdditive(before: Option<Stacks>, after: Option<Stacks>,
                        below: Option<(Outcome, Operator)>, within: Option<(Outcome, Operator)>,
                        last: Outcome, value: Outcome, o: string, n: string)
    requires below.Some? ==> IsAdditive(below.value.1)
    requires within.Some? ==> Precedence(within.value.1) == 2
    requires IsOperator(o) && IsAdditive(OperatorOf(o).value) && !IsOperator(n)
    requires before == Layer(Bottom(below), within, last)
    requires value == Total(below, Settle(within, last))
    requires after == Layer(Bottom(Some((value, OperatorOf(o).value))), None, Operand(n))
    ensures StepFrom(StepFrom(before, o), n) == after
  {
    var op := OperatorOf(o).value;
    var mid := StepFrom(before, o);
    StepOperator(before, o);
    LayerReduces(Bottom(below), within, last, 1);
    BottomCollapses(below, Settle(within, last), 1);
    assert mid == PushOperator(Collapsed(value), op);
    CollapsedThenOperator(value, op);
    StepOperand(mid, n);
  }

  /** The collapsed value with an operator pushed is the bottom layer. */
  lemma CollapsedThenOperator(v: Outcome, op: Operator)
    ensures PushOperator(Collapsed(v), op) == Bottom(Some((v, op)))
  {
    if v.Number? {
      assert [] + [op] == [op];
    }
  }

  /** A `×` or `÷` extends the last term. */
  lemma LastTermExtends(t: seq<string>, o: string, n: string)
    requires WellFormed(t + [o, n])
    requires IsOperator(o) && !IsAdditive(OperatorOf(o).value)
    ensures WellFormed(t)
    ensures TermStart(t + [o, n]) == TermStart(t)
    ensures LastTerm(t + [o, n]) == LastTerm(t) + [o, n]
  {
    var t' := t + [o, n];
    assert Init2(t') == t;
    assert t'[|t'| - 2] == o;
  }

  lemma BelowUnchanged(t: seq<string>, o: string, n: string)
    requires WellFormed(t + [o, n])
    requires IsOperator(o) && !IsAdditive(OperatorOf(o).value)
    ensures WellFormed(t)
    ensures Below(t + [o, n]) == Below(t)
  {
    var t' := t + [o, n];
    LastTermExtends(t, o, n);
    var k := TermStart(t);
    if k > 0 {
      assert t'[..k - 1] == t[..k - 1];
      assert t'[k - 1] == t[k - 1];
    }
  }

  lemma GrammarMultiplicative(t: seq<string>, o: string, n: string)
    requires WellFormed(t + [o, n])
    requires IsOperator(o) && !IsAdditive(OperatorOf(o).value)
    ensures WellFormed(t) && !IsOperator(n)
    ensures Below(t + [o, n]) == Below(t)
    ensures Within(t + [o, n]) == Some((Term(LastTerm(t)), OperatorOf(o).value))
    ensures Pending(t + [o, n]) == Layer(Bottom(Below(t)), Some((Term(LastTerm(t)), OperatorOf(o).value)), Operand(n))
  {
    var t' := t + [o, n];
    LastTermExtends(t, o, n);
    BelowUnchanged(t, o, n);
    assert t'[|t'| - 2] == o && t'[|t'| - 1] == n;
    var tail := LastTerm(t');
    assert Init2(tail) == LastTerm(t);
  }

  lemma GrammarAdditive(t: seq<string>, o: string, n: string)
    requires WellFormed(t + [o, n])
    requires IsOperator(o) && IsAdditive(OperatorOf(o).value)
    ensures WellFormed(t) && !IsOperator(n)
    ensures Below(t + [o, n]) == Some((Eval(t), OperatorOf(o).value))
    ensures Within(t + [o, n]) == None
    ensures Pending(t + [o, n]) == Layer(Bottom(Some((Eval(t), OperatorOf(o).value))), None, Operand(n))
  {
    var t' := t + [o, n];
    assert Init2(t') == t;
    assert t'[|t'| - 2] == o && t'[|t'| - 1] == n;
    assert TermStart(t') == |t| + 1;
    assert Head(t') == t;
    assert LastTerm(t') == [n];
  }

  lemma StepMultiplicative(t: seq<string>, o: string, n: string)
    requires WellFormed(t + [o, n])
    requires IsOperator(o) && !IsAdditive(OperatorOf(o).value)
    ensures WellFormed(t)
    ensures StepFrom(StepFrom(Pending(t), o), n) == Pending(t + [o, n])
  {
    GrammarMultiplicative(t, o, n);
    LastTermSettles(t);
    PendingParts(t);
    MachineMultiplicative(Pending(t), Pending(t + [o, n]), Below(t), Within(t), Operand(t[|t| - 1]), o, n);
  }

  lemma StepAdditive(t: seq<string>, o: string, n: string)
    requires WellFormed(t + [o, n])
    requires IsOperator(o) && IsAdditive(OperatorOf(o).value)
    ensures WellFormed(t)
    ensures StepFrom(StepFrom(Pending(t), o), n) == Pending(t + [o, n])
  {
    GrammarAdditive(t, o, n);
    PendingParts(t);
    MachineAdditive(Pending(t), Pending(t + [o, n]), Below(t), Within(t), Operand(t[|t| - 1]), Eval(t), o, n);
  }

  lemma {:induction false} RunPrefixPending(t: seq<string>)
    requires WellFormed(t)
    ensures RunPrefix(t) == Pending(t)
    decreases |t|
  {
    if |t| == 1 {
      assert t[..0] == [];
      assert LastTerm(t) == t;
      StepOperand(Some(Empty), t[0]);
    } else {
      var q := Init2(t);
      var o := t[|t| - 2];
      var n := t[|t| - 1];
      assert t == q + [o, n];
      assert t[..|t| - 1] == q + [o];
      assert (q + [o])[..|q|] == q;
      if IsAdditive(OperatorOf(o).value) {
        StepAdditive(q, o, n);
      } else {
        StepMultiplicative(q, o, n);
      }
      RunPrefixPending(q);
    }
  }

  lemma FinishPending(t: seq<string>)
    requires WellFormed(t)
    ensures Finish(Pending(t)) == Eval(t)
  {
    PendingCollapses(t, 0);
  }

  /** On a well-formed token list the stack machine computes the grammar:
      `×`/`÷` before `+`/`-`, equal precedence from left to right. */
  lemma RunAgreesWithPrecedence(t: seq<string>)
    requires WellFormed(t)
    ensures Run(t) == Eval(t)
  {
    RunPrefixPending(t);
    FinishPending(t);
  }

  // ---------------------------------------------------------------------------
  // The sweep with two mutable stacks.

  /** Once the sweep has returned "Error" on a prefix it has returned it on
      the whole list. */
  lemma {:induction false} RunPrefixStaysFailed(t: seq<string>, j: nat)
    requires j <= |t| && RunPrefix(t[..j]) == None
    ensures RunPrefix(t) == None
    decreases |t| - j
  {
    if j < |t| {
      assert t[..j + 1][..j] == t[..j];
      RunPrefixStaysFailed(t, j + 1);
    } else {
      assert t[..j] == t;
    }
  }

  /** The inner `while` of `evaluateExpression` and, with `minPrec` 0, its
      final one: pop the top operator and two numbers, apply, push the
      value, while the top operator has precedence at least `minPrec`;
      `ok` is false where the source returns "Error". */
  method ReduceStacks(nums0: seq<Num>, ops0: seq<Operator>, minPrec: nat) returns (ok: bool, nums: seq<Num>, ops: seq<Operator>)
    ensures ok ==> Reduce(Stacks(nums0, ops0), minPrec) == Some(Stacks(nums, ops))
    ensures !ok ==> Reduce(Stacks(nums0, ops0), minPrec) == None
  {
    nums, ops := nums0, ops0;
    while |ops| > 0 && Precedence(ops[|ops| - 1]) >= minPrec
      invariant Reduce(Stacks(nums, ops), minPrec) == Reduce(Stacks(nums0, ops0), minPrec)
      decreases |ops|
    {
      var top := ops[|ops| - 1];
      ops := ops[..|ops| - 1];
      var pb := PopNum(nums);
      var b := pb.0;
      var pa := PopNum(pb.1);
      var a := pa.0;
      nums := pa.1;
      var value := Apply(top, a, b);
      if value.Error? {
        return false, nums, ops;
      }
      nums := nums + [value.n];
    }
    return true, nums, ops;
  }

  /** The body of the outer `while` on token `curr`: an operator reduces
      the stacks down to its precedence and is pushed; anything else is
      read with `parseFloat` and pushed, or is "Error" (`ok` false). */
  method ShiftToken(nums0: seq<Num>, ops0: seq<Operator>, curr: string) returns (ok: bool, nums: seq<Num>, ops: seq<Operator>)
    ensures ok ==> Step(Stacks(nums0, ops0), curr) == Some(Stacks(nums, ops))
    ensures !ok ==> Step(Stacks(nums0, ops0), curr) == None
  {
    match OperatorOf(curr) {
      case Some(op) =>
        var reduced, rest;
        ok, reduced, rest := ReduceStacks(nums0, ops0, Precedence(op));
        nums, ops := reduced, rest + [op];
      case None =>
        var num := Parse(curr);
        if num.None? {
          return false, nums0, ops0;
        }
        ok, nums, ops := true, nums0 + [Finite(num.value)], ops0;
    }
  }

  /** `evaluateExpression`: the outer loop shifts the tokens one by one;
      the last loop empties the operator stack. */
  method EvaluateExpression(sequence: seq<string>) returns (r: Outcome)
    ensures r == Run(sequence)
    ensures WellFormed(sequence) ==> r == Eval(sequence)
  {
    if WellFormed(sequence) {
      RunAgreesWithPrecedence(sequence);
    }
    var nums: seq<Num> := [];
    var ops: seq<Operator> := [];
    var i := 0;
    while i < |sequence|
      invariant i <= |sequence|
      invariant RunPrefix(sequence[..i]) == Some(Stacks(nums, ops))
    {
      assert sequence[..i + 1][..i] == sequence[..i];
      var ok;
      ok, nums, ops := ShiftToken(nums, ops, sequence[i]);
      if !ok {
        RunPrefixStaysFailed(sequence, i + 1);
        return Error;
      }
      i := i + 1;
    }
    assert sequence[..i] == sequence;
    var ok, reduced, rest := ReduceStacks(nums, ops, 0);
    if !ok {
      return Error;
    }
    r := if |reduced| == 1 then Number(reduced[0]) else Error;
  }

  // ---------------------------------------------------------------------------
  // What the evaluation promises.

  /** No operator symbol is a number for `parseFloat`. */
  lemma OperatorIsNotNumber(s: string)
    ensures IsOperator(s) ==> Parse(s) == None
  {
    if IsOperator(s) && s[0] != '-' {
      assert DotIndex(s[1..]) == 0;
      assert s[..1] == s;
    }
  }

  /** A single operand evaluates to its number. */
  lemma EvalSingle(a: string)
    requires !IsOperator(a)
    ensures WellFormed([a]) && Eval([a]) == Operand(a)
  {
  }

  /** Appending `+ n` or `- n` combines the value so far with `n`. */
  lemma EvalAppendAdditive(t: seq<string>, o: string, n: string)
    requires WellFormed(t + [o, n])
    requires IsOperator(o) && IsAdditive(OperatorOf(o).value)
    ensures WellFormed(t)
    ensures Eval(t + [o, n]) == Combine(OperatorOf(o).value, Eval(t), Operand(n))
  {
    GrammarAdditive(t, o, n);
    PendingParts(t + [o, n]);
    assert (t + [o, n])[|t| + 1] == n;
  }

  /** Appending `× n` or `÷ n` combines the last term with `n`, before
      anything below it. */
  lemma EvalAppendMultiplicative(t: seq<string>, o: string, n: string)
    requires WellFormed(t + [o, n])
    requires IsOperator(o) && !IsAdditive(OperatorOf(o).value)
    ensures WellFormed(t)
    ensures Eval(t + [o, n]) == Total(Below(t), Combine(OperatorOf(o).value, Term(LastTerm(t)), Operand(n)))
  {
    GrammarMultiplicative(t, o, n);
    PendingParts(t + [o, n]);
    assert (t + [o, n])[|t| + 1] == n;
  }

  /** After `a + b` the sum waits below and `b` is the open term. */
  lemma SumPending(a: string, b: string)
    requires !IsOperator(a) && !IsOperator(b)
    ensures WellFormed([a, "+", b])
    ensures Below([a, "+", b]) == Some((Operand(a), Plus)) && Term(LastTerm([a, "+", b])) == Operand(b)
  {
    var t2 := [a] + ["+", b];
    assert t2 == [a, "+", b];
    EvalSingle(a);
    GrammarAdditive([a], "+", b);
    assert LastTerm(t2) == [b];
  }

  /** After `a ÷ b` nothing waits below and the open term is the quotient. */
  lemma QuotientPending(a: string, b: string)
    requires !IsOperator(a) && !IsOperator(b)
    ensures WellFormed([a, "÷", b])
    ensures Below([a, "÷", b]) == None && Term(LastTerm([a, "÷", b])) == Combine(Divide, Operand(a), Operand(b))
  {
    var t2 := [a] + ["÷", b];
    assert t2 == [a, "÷", b];
    EvalSingle(a);
    EvalAppendMultiplicative([a], "÷", b);
    LastTermExtends([a], "÷", b);
    assert LastTerm([a]) == [a];
    assert Init2(LastTerm(t2)) == [a];
  }

  /** In the grammar, `a + b × c` adds `a` to the product. */
  lemma SumTimes(a: string, b: string, c: string)
    requires !IsOperator(a) && !IsOperator(b) && !IsOperator(c)
    ensures WellFormed([a, "+", b, "×", c])
    ensures Eval([a, "+", b, "×", c]) == Combine(Plus, Operand(a), Combine(Times, Operand(b), Operand(c)))
  {
    var t2 := [a, "+", b];
    var t3 := t2 + ["×", c];
    assert [a, "+", b, "×", c] == t3;
    SumPending(a, b);
    assert WellFormed(t3);
    EvalAppendMultiplicative(t2, "×", c);
  }

  /** Multiplication before addition: `a + b × c` is `a + (b × c)`. */
  lemma MultiplicationFirst(a: string, b: string, c: string)
    requires !IsOperator(a) && !IsOperator(b) && !IsOperator(c)
    ensures Run([a, "+", b, "×", c]) == Combine(Plus, Operand(a), Combine(Times, Operand(b), Operand(c)))
  {
    SumTimes(a, b, c);
    RunAgreesWithPrecedence([a, "+", b, "×", c]);
  }

  /** Equal precedence associates to the left: `a - b - c` is `(a - b) - c`,
      and `a + b + c` is `(a + b) + c`. */
  lemma AdditiveLeftToRight(a: string, o1: string, b: string, o2: string, c: string)
    requires !IsOperator(a) && !IsOperator(b) && !IsOperator(c)
    requires IsOperator(o1) && IsAdditive(OperatorOf(o1).value)
    requires IsOperator(o2) && IsAdditive(OperatorOf(o2).value)
    ensures Run([a, o1, b, o2, c]) ==
            Combine(OperatorOf(o2).value, Combine(OperatorOf(o1).value, Operand(a), Operand(b)), Operand(c))
  {
    var t2 := [a] + [o1, b];
    var t3 := t2 + [o2, c];
    assert [a, o1, b, o2, c] == t3;
    EvalSingle(a);
    EvalAppendAdditive([a], o1, b);
    EvalAppendAdditive(t2, o2, c);
    RunAgreesWithPrecedence(t3);
  }

  /** In the grammar, `a ÷ b × c` multiplies the quotient by `c`. */
  lemma QuotientTimes(a: string, b: string, c: string)
    requires !IsOperator(a) && !IsOperator(b) && !IsOperator(c)
    ensures WellFormed([a, "÷", b, "×", c])
    ensures Eval([a, "÷", b, "×", c]) == Combine(Times, Combine(Divide, Operand(a), Operand(b)), Operand(c))
  {
    var t2 := [a, "÷", b];
    var t3 := t2 + ["×", c];
    assert [a, "÷", b, "×", c] == t3;
    QuotientPending(a, b);
    assert WellFormed(t3);
    EvalAppendMultiplicative(t2, "×", c);
  }

  /** `a ÷ b × c` is `(a ÷ b) × c`. */
  lemma DivisionLeftToRight(a: string, b: string, c: string)
    requires !IsOperator(a) && !IsOperator(b) && !IsOperator(c)
    ensures Run([a, "÷", b, "×", c]) == Combine(Times, Combine(Divide, Operand(a), Operand(b)), Operand(c))
  {
    QuotientTimes(a, b, c);
    RunAgreesWithPrecedence([a, "÷", b, "×", c]);
  }

  /** A single operator between two operands. */
  lemma RunBinary(a: string, o: string, b: string)
    requires !IsOperator(a) && IsOperator(o) && !IsOperator(b)
    ensures Run([a, o, b]) == Combine(OperatorOf(o).value, Operand(a), Operand(b))
  {
    var t := [a] + [o, b];
    assert [a, o, b] == t;
    EvalSingle(a);
    if IsAdditive(OperatorOf(o).value) {
      EvalAppendAdditive([a], o, b);
    } else {
      EvalAppendMultiplicative([a], o, b);
      assert LastTerm([a]) == [a];
    }
    RunAgreesWithPrecedence(t);
  }

  /** The decimal rendering of a natural number is an operand with that value. */
  lemma OperandOfNat(n: nat)
    ensures !IsOperator(NatToString(n))
    ensures Operand(NatToString(n)) == Number(Finite(n as real))
  {
    ParseNatToString(n);
    OperatorIsNotNumber(NatToString(n));
  }

  /** `2 + 3 × 4` is 14. */
  lemma TwoPlusThreeTimesFour()
    ensures Run(["2", "+", "3", "×", "4"]) == Number(Finite(14.0))
  {
    assert Operand("2") == Number(Finite(2.0)) && !IsOperator("2") by {
      OperandOfNat(2);
      assert NatToString(2) == "2";
    }
    assert Operand("3") == Number(Finite(3.0)) && !IsOperator("3") by {
      OperandOfNat(3);
      assert NatToString(3) == "3";
    }
    assert Operand("4") == Number(Finite(4.0)) && !IsOperator("4") by {
      OperandOfNat(4);
      assert NatToString(4) == "4";
    }
    MultiplicationFirst("2", "3", "4");
    assert Combine(Times, Number(Finite(3.0)), Number(Finite(4.0))) == Number(Finite(12.0));
  }

  /** Any operand token that is not a number makes the result "Error",
      whatever the rest of the list. */
  lemma BadOperandIsError(t: seq<string>, i: nat)
    requires i < |t| && !IsOperator(t[i]) && Parse(t[i]).None?
    ensures Run(t) == Error
  {
    assert t[..i + 1][..i] == t[..i];
    assert RunPrefix(t[..i + 1]) == None;
    RunPrefixStaysFailed(t, i + 1);
  }

  /** An empty list evaluates to "Error": no value is left on the stack. */
  lemma EmptyIsError()
    ensures Run([]) == Error
  {
  }

  /** A dangling operator pops `undefined` and yields NaN: `5 +` is NaN. */
  lemma TrailingOperatorIsNaN(a: string, x: real)
    requires Parse(a) == Some(x)
    ensures Run([a, "+"]) == Number(NaN)
  {
    OperatorIsNotNumber(a);
    var t := [a, "+"];
    var ns: seq<Num> := [];
    var os: seq<Operator> := [];
    assert t[..1] == [a];
    assert [a][..0] == [];
    StepOperand(Some(Empty), a);
    assert ns + [Finite(x)] == [Finite(x)];
    assert RunPrefix([a]) == Some(Stacks([Finite(x)], []));
    StepOperator(RunPrefix([a]), "+");
    assert os + [Plus] == [Plus];
    assert RunPrefix(t) == Some(Stacks([Finite(x)], [Plus]));
    assert PopNum([Finite(x)]) == (Finite(x), ns);
    assert Reduce(Stacks([Finite(x)], [Plus]), 0) == Reduce(Stacks(ns + [NaN], os), 0);
    assert ns + [NaN] == [NaN];
  }

  /** "- +": the "+" pops `undefined` twice for the "-". */
  lemma LeadingOperatorsPop(m: string, p: string)
    requires OperatorOf(m) == Some(Minus) && OperatorOf(p) == Some(Plus)
    ensures RunPrefix([m, p]) == Some(Stacks([NaN], [Plus]))
  {
    var ns: seq<Num> := [];
    var os: seq<Operator> := [];
    assert [m, p][..1] == [m] && [m][..0] == [];
    assert RunPrefix([m]) == StepFrom(RunPrefix([]), m);
    StepOperator(Some(Empty), m);
    assert os + [Minus] == [Minus];
    assert RunPrefix([m]) == Some(Stacks([], [Minus]));
    StepOperator(RunPrefix([m]), p);
    assert os + [Plus] == [Plus];
    assert PopNum(ns) == (NaN, ns);
    assert Reduce(Stacks([], [Minus]), 1) == Reduce(Stacks(ns + [NaN], []), 1);
    assert ns + [NaN] == [NaN];
  }

  /** One more token is one more step. */
  lemma RunPrefixSnoc(t: seq<string>, tok: string)
    ensures RunPrefix(t + [tok]) == StepFrom(RunPrefix(t), tok)
  {
    assert (t + [tok])[..|t|] == t;
  }

  /** A number token pushes its value onto the operand stack. */
  lemma OperandPushed(t: seq<string>, st: Stacks, c: string, x: real)
    requires RunPrefix(t) == Some(st) && Parse(c) == Some(x)
    ensures RunPrefix(t + [c]) == Some(Stacks(st.nums + [Finite(x)], st.ops))
  {
    OperatorIsNotNumber(c);
    RunPrefixSnoc(t, c);
    StepOperand(RunPrefix(t), c);
  }

  /** "- + c": the operand lands above the NaN the "+" left. */
  lemma LeadingOperatorsThenOperand(m: string, p: string, c: string, x: real)
    requires OperatorOf(m) == Some(Minus) && OperatorOf(p) == Some(Plus) && Parse(c) == Some(x)
    ensures RunPrefix([m, p, c]) == Some(Stacks([NaN, Finite(x)], [Plus]))
  {
    LeadingOperatorsPop(m, p);
    OperandPushed([m, p], Stacks([NaN], [Plus]), c, x);
    assert [NaN] + [Finite(x)] == [NaN, Finite(x)];
    assert [m, p] + [c] == [m, p, c];
  }

  /** A leading operator pops `undefined` twice and yields NaN:
      `- + c` is NaN. */
  lemma LeadingOperatorIsNaN(c: string, x: real)
    requires Parse(c) == Some(x)
    ensures Run(["-", "+", c]) == Number(NaN)
  {
    LeadingOperatorsThenOperand("-", "+", c, x);
    PairCollapses(NaN, Finite(x), Plus, 0);
  }

  /** On a well-formed list the stacks never underflow: the result is
      "Error" or a finite number, never NaN. */
  lemma WellFormedIsNeverNaN(t: seq<string>)
    requires WellFormed(t)
    ensures Run(t).Number? ==> Run(t).n.Finite?
  {
    RunAgreesWithPrecedence(t);
  }

  /** A `÷` whose operand reads as zero makes a term "Error". */
  lemma {:induction false} TermDividesByZero(t: seq<string>, i: nat)
    requires WellFormed(t) && i + 1 < |t| && t[i] == "÷" && Parse(t[i + 1]) == Some(0.0)
    ensures Term(t) == Error
    decreases |t|
  {
    WellFormedAt(t, i);
    if i + 2 < |t| {
      var q := Init2(t);
      assert q[i] == t[i] && q[i + 1] == t[i + 1];
      TermDividesByZero(q, i);
    } else {
      assert OpAt(t, |t| - 2) == Divide;
    }
  }

  /** A division by zero inside the last term. */
  lemma LastTermDividesByZero(t: seq<string>, i: nat)
    requires WellFormed(t) && i + 1 < |t| && t[i] == "÷" && Parse(t[i + 1]) == Some(0.0)
    requires i > TermStart(t)
    ensures Term(LastTerm(t)) == Error
  {
    var k := TermStart(t);
    var tail := LastTerm(t);
    var j := i - k;
    assert WellFormed(tail) && tail == t[k..];
    assert j + 1 < |tail| && tail[j] == "÷" && Parse(tail[j + 1]) == Some(0.0) by {
      assert tail[j] == t[i] && tail[j + 1] == t[i + 1];
    }
    TermDividesByZero(tail, j);
  }

  /** A division by zero before the last `+` or `-`. */
  lemma HeadHoldsDivision(t: seq<string>, i: nat)
    requires WellFormed(t) && i + 1 < |t| && t[i] == "÷"
    requires i <= TermStart(t)
    ensures TermStart(t) > 0 && i + 1 < |Head(t)| && Head(t)[i] == t[i] && Head(t)[i + 1] == t[i + 1]
  {
    WellFormedAt(t, i);
    assert OperatorOf(t[i]) == Some(Divide);
  }

  /** A `÷` whose operand reads as zero makes the whole expression "Error". */
  lemma {:induction false} EvalDividesByZero(t: seq<string>, i: nat)
    requires WellFormed(t) && i + 1 < |t| && t[i] == "÷" && Parse(t[i + 1]) == Some(0.0)
    ensures Eval(t) == Error
    decreases |t|
  {
    if i > TermStart(t) {
      LastTermDividesByZero(t, i);
      EvalSettles(t);
    } else {
      HeadHoldsDivision(t, i);
      EvalDividesByZero(Head(t), i);
    }
  }

  /** Division by zero anywhere in a well-formed list gives "Error". */
  lemma DivisionByZeroIsError(t: seq<string>, i: nat)
    requires WellFormed(t) && i + 1 < |t| && t[i] == "÷" && Parse(t[i + 1]) == Some(0.0)
    ensures Run(t) == Error
  {
    EvalDividesByZero(t, i);
    RunAgreesWithPrecedence(t);
  }
}
