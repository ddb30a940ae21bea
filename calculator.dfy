/**
 * The calculator app: a display typed digit by digit, one pending operation
 * applied as soon as the next operator or `=` arrives (no precedence), and a
 * history tape of finished calculations of which the last ten are shown.
 *
 * JavaScript numbers are modelled as exact reals plus NaN and the two
 * infinities, so `calculate` follows the IEEE-754 rules for the special
 * values; rounding and the sign of zero are not modelled. `parseFloat` and
 * `String(number)` are parameters of the handlers that use them.
 */
module Calculator {
  import opened Wrappers
  import opened Strings

  // --------------------------------------------------------------- numbers

  datatype Number = Finite(value: real) | NaN | Infinity(negative: bool)

  function Negate(a: Number): Number {
    match a
    case Finite(v) => Finite(-v)
    case NaN => NaN
    case Infinity(n) => Infinity(!n)
  }

  function Add(a: Number, b: Number): Number {
    match (a, b)
    case (NaN, _) => NaN
    case (_, NaN) => NaN
    case (Infinity(m), Infinity(n)) => if m == n then a else NaN
    case (Infinity(_), Finite(_)) => a
    case (Finite(_), Infinity(_)) => b
    case (Finite(v), Finite(w)) => Finite(v + w)
  }

  function Multiply(a: Number, b: Number): Number {
    match (a, b)
    case (NaN, _) => NaN
    case (_, NaN) => NaN
    case (Infinity(m), Infinity(n)) => Infinity(m != n)
    case (Infinity(m), Finite(w)) => if w == 0.0 then NaN else Infinity(m != (w < 0.0))
    case (Finite(v), Infinity(n)) => if v == 0.0 then NaN else Infinity(n != (v < 0.0))
    case (Finite(v), Finite(w)) => Finite(v * w)
  }

  function Divide(a: Number, b: Number): Number {
    match (a, b)
    case (NaN, _) => NaN
    case (_, NaN) => NaN
    case (Infinity(_), Infinity(_)) => NaN
    case (Infinity(m), Finite(w)) => Infinity(m != (w < 0.0))
    case (Finite(_), Infinity(_)) => Finite(0.0)
    case (Finite(v), Finite(w)) =>
      if w != 0.0 then Finite(v / w) else if v == 0.0 then NaN else Infinity(v < 0.0)
  }

  /** `calculate`: the four operators by their button symbols; any other
      operation yields the second operand. NaN in gives NaN out, and finite
      operands give a finite result except on division by zero. */
  function Calculate(first: Number, second: Number, operation: string): (r: Number)
    ensures operation !in {"+", "-", "×", "÷"} ==> r == second
    ensures operation in {"+", "-", "×", "÷"} && (first == NaN || second == NaN) ==> r == NaN
    ensures first.Finite? && second.Finite? && !(operation == "÷" && second.value == 0.0) ==> r.Finite?
  {
    if operation == "+" then Add(first, second)
    else if operation == "-" then Add(first, Negate(second))
    else if operation == "×" then Multiply(first, second)
    else if operation == "÷" then Divide(first, second)
    else second
  }

  /** On finite operands the operators are the arithmetic ones; dividing a
      non-zero number by zero is infinite and zero by zero is NaN; an unknown
      operation returns the second operand. */
  lemma CalculateFinite(v: real, w: real, operation: string)
    ensures Calculate(Finite(v), Finite(w), "+") == Finite(v + w)
    ensures Calculate(Finite(v), Finite(w), "-") == Finite(v - w)
    ensures Calculate(Finite(v), Finite(w), "×") == Finite(v * w)
    ensures w != 0.0 ==> Calculate(Finite(v), Finite(w), "÷") == Finite(v / w)
    ensures Calculate(Finite(v), Finite(0.0), "÷") == if v == 0.0 then NaN else Infinity(v < 0.0)
    ensures operation !in {"+", "-", "×", "÷"} ==> Calculate(Finite(v), Finite(w), operation) == Finite(w)
  {
  }

  /** Addition and multiplication commute, NaN and infinities included, and NaN
      absorbs every operator. */
  lemma CalculateAlgebra(a: Number, b: Number)
    ensures Calculate(a, b, "+") == Calculate(b, a, "+")
    ensures Calculate(a, b, "×") == Calculate(b, a, "×")
    ensures Calculate(NaN, b, "+") == NaN && Calculate(NaN, b, "-") == NaN
    ensures Calculate(NaN, b, "×") == NaN && Calculate(NaN, b, "÷") == NaN
  {
  }

  /** `x || 0` on a number: NaN and zero become zero, everything else stays. */
  function OrZero(a: Number): (r: Number)
    ensures r == if a == NaN || a == Finite(0.0) then Finite(0.0) else a
  {
    match a
    case NaN => Finite(0.0)
    case Finite(v) => if v == 0.0 then Finite(0.0) else a
    case Infinity(_) => a
  }

  /** Operators apply as they arrive, left to right: 2 + 3 × 4 is 20, not 14. */
  lemma LeftToRight()
    ensures Calculate(Calculate(Finite(2.0), Finite(3.0), "+"), Finite(4.0), "×") == Finite(20.0)
    ensures Calculate(Finite(2.0), Calculate(Finite(3.0), Finite(4.0), "×"), "+") == Finite(14.0)
  {
  }

  // ----------------------------------------------------------------- state

  /** `CalculationStep`: one line of the tape. */
  datatype CalculationStep = CalculationStep(expression: string, result: string)

  /** The component's state, as one value. */
  datatype State = State(
    display: string,
    previousValue: Option<Number>,
    operation: Option<string>,
    waitingForOperand: bool,
    history: seq<CalculationStep>)

  const Initial: State := State("0", None, None, false, [])

  /** A value is pending exactly when an operation is. */
  predicate Pending(s: State) {
    s.previousValue.Some? <==> s.operation.Some?
  }

  /** `inputNumber`: a digit replaces the display after an operator or a lone
      "0", and is appended otherwise. */
  function InputNumber(s: State, num: string): (r: State)
    ensures r.history == s.history && r.previousValue == s.previousValue && r.operation == s.operation
    ensures !r.waitingForOperand
    ensures r.display == if s.waitingForOperand || s.display == "0" then num else s.display + num
  {
    if s.waitingForOperand then s.(display := num, waitingForOperand := false)
    else s.(display := if s.display == "0" then num else s.display + num)
  }

  /** `inputDecimal`: after an operator the display becomes "0."; otherwise a
      point is appended unless there is one already. */
  function InputDecimal(s: State): (r: State)
    ensures r.history == s.history && r.previousValue == s.previousValue && r.operation == s.operation
  {
    if s.waitingForOperand then s.(display := "0.", waitingForOperand := false)
    else if IndexOf(s.display, ".").None? then s.(display := s.display + ".")
    else s
  }

  function DotCount(text: string): nat {
    if |text| == 0 then 0 else DotCount(text[..|text| - 1]) + (if text[|text| - 1] == '.' then 1 else 0)
  }

  lemma {:induction false} DotCountZero(text: string)
    ensures DotCount(text) == 0 <==> forall k :: 0 <= k < |text| ==> text[k] != '.'
  {
    if |text| > 0 {
      DotCountZero(text[..|text| - 1]);
      assert forall k :: 0 <= k < |text| - 1 ==> text[..|text| - 1][k] == text[k];
    }
  }

  /** After `inputDecimal` the display has a decimal point, and a display with at
      most one point keeps exactly one. */
  lemma DecimalOnce(s: State)
    ensures var r := InputDecimal(s);
      && DotCount(r.display) >= 1
      && (DotCount(s.display) <= 1 ==> DotCount(r.display) == 1)
      && (!s.waitingForOperand ==> (r.display == s.display || r.display == s.display + "."))
  {
    var r := InputDecimal(s);
    assert DotCount("0.") == 1 by {
      assert "0."[..1] == "0" && "0"[..0] == "";
    }
    if !s.waitingForOperand {
      var d := s.display;
      if IndexOf(d, ".").None? {
        assert (d + ".")[..|d + "."| - 1] == d;
        forall k | 0 <= k < |d| ensures d[k] != '.' {
          PointAt(d, k);
        }
        DotCountZero(d);
      } else {
        PointAt(d, IndexOf(d, ".").value);
        DotCountZero(d);
      }
    }
  }

  /** A point occurs at `k` exactly when the character there is one. */
  lemma PointAt(d: string, k: nat)
    requires k < |d|
    ensures OccursAt(d, ".", k) <==> d[k] == '.'
  {
    assert d[k..k + 1][0] == d[k];
  }

  /** `inputOperation`: the first operator stores the display's value; a later
      one applies the pending operation to `previousValue || 0` and the display's
      value, and shows the result. Either way the new operator waits for its
      operand. */
  function InputOperation(s: State, nextOperation: string, parse: string -> Number, show: Number -> string): (r: State)
    ensures r.history == s.history && r.waitingForOperand && r.operation == Some(nextOperation)
    ensures s.previousValue.None? ==> r.previousValue == Some(parse(s.display)) && r.display == s.display
    ensures s.previousValue.Some? && s.operation.Some? ==>
      var v := Calculate(OrZero(s.previousValue.value), parse(s.display), s.operation.value);
      r.previousValue == Some(v) && r.display == show(v)
  {
    var inputValue := parse(s.display);
    var s' := if s.previousValue.None? then s.(previousValue := Some(inputValue))
      else if s.operation.Some? then
        var newValue := Calculate(OrZero(s.previousValue.value), inputValue, s.operation.value);
        s.(display := show(newValue), previousValue := Some(newValue))
      else s;
    s'.(waitingForOperand := true, operation := Some(nextOperation))
  }

  /** The tape entry for `previous operation input = result`. */
  function Entry(previous: Number, operation: string, input: Number, show: Number -> string): CalculationStep {
    CalculationStep(show(previous) + " " + operation + " " + show(input), show(Calculate(previous, input, operation)))
  }

  /** `performCalculation` (`=`): with an operation pending, the result is shown,
      one entry is appended to the history and nothing stays pending; without
      one, nothing changes. */
  function PerformCalculation(s: State, parse: string -> Number, show: Number -> string): (r: State)
    ensures s.previousValue.Some? && s.operation.Some? ==>
      && r.history == s.history + [Entry(s.previousValue.value, s.operation.value, parse(s.display), show)]
      && r.display == show(Calculate(s.previousValue.value, parse(s.display), s.operation.value))
      && r.previousValue.None? && r.operation.None? && r.waitingForOperand
    ensures !(s.previousValue.Some? && s.operation.Some?) ==> r == s
  {
    if s.previousValue.Some? && s.operation.Some? then
      var inputValue := parse(s.display);
      var newValue := Calculate(s.previousValue.value, inputValue, s.operation.value);
      var expression := show(s.previousValue.value) + " " + s.operation.value + " " + show(inputValue);
      State(show(newValue), None, None, true, s.history + [CalculationStep(expression, show(newValue))])
    else s
  }

  /** `clearAll` (AC): everything but the history back to the start. */
  function ClearAll(s: State): (r: State)
    ensures r == Initial.(history := s.history)
  {
    State("0", None, None, false, s.history)
  }

  /** `clearEntry` (CE): only the display is reset. */
  function ClearEntry(s: State): (r: State)
    ensures r == s.(display := "0")
  {
    s.(display := "0")
  }

  /** Every handler keeps a value pending exactly when an operation is. */
  lemma PendingKept(s: State, num: string, op: string, parse: string -> Number, show: Number -> string)
    requires Pending(s)
    ensures Pending(InputNumber(s, num)) && Pending(InputDecimal(s)) && Pending(InputOperation(s, op, parse, show))
    ensures Pending(PerformCalculation(s, parse, show)) && Pending(ClearAll(s)) && Pending(ClearEntry(s))
  {
  }

  /** Only `=` changes the history, and then by one entry at the end: the tape
      never loses a calculation, not even on AC. */
  lemma HistoryOnlyGrows(s: State, num: string, op: string, parse: string -> Number, show: Number -> string)
    ensures InputNumber(s, num).history == s.history && InputDecimal(s).history == s.history
    ensures InputOperation(s, op, parse, show).history == s.history
    ensures ClearAll(s).history == s.history && ClearEntry(s).history == s.history
    ensures var h := PerformCalculation(s, parse, show).history;
      |h| <= |s.history| + 1 && h[..|s.history|] == s.history
  {
  }

  /** Typing `a`, an operator, `b` and a second operator applies the first one:
      the display and the pending value become `(a || 0) op b`. */
  lemma ImmediateExecution(s: State, op1: string, num: string, op2: string, parse: string -> Number, show: Number -> string)
    requires s.previousValue.None?
    ensures var r := InputOperation(InputNumber(InputOperation(s, op1, parse, show), num), op2, parse, show);
      var v := Calculate(OrZero(parse(s.display)), parse(num), op1);
      r.previousValue == Some(v) && r.display == show(v) && r.operation == Some(op2) && r.waitingForOperand
  {
  }

  /** Pressing two operators in a row applies the first to the displayed value
      twice: with 5 displayed, `+` then `×` shows 10 and waits for `×`'s operand. */
  lemma OperatorTwice(parse: string -> Number, show: Number -> string)
    requires parse("5") == Finite(5.0)
    ensures var r := InputOperation(InputOperation(Initial.(display := "5"), "+", parse, show), "×", parse, show);
      r.previousValue == Some(Finite(10.0)) && r.display == show(Finite(10.0)) && r.operation == Some("×")
  {
  }

  /** `history.slice(-10)`: the last ten entries, or all of them when there are
      fewer. */
  function Tape(history: seq<CalculationStep>): (r: seq<CalculationStep>)
    ensures |r| == if |history| < 10 then |history| else 10
    ensures r == history[|history| - |r|..]
  {
    if |history| <= 10 then history else history[|history| - 10..]
  }

  /** The tape shows the newest entry last, and an entry added to a full tape
      pushes out the oldest one shown. */
  lemma TapeShowsNewest(history: seq<CalculationStep>, step: CalculationStep)
    ensures var t := Tape(history + [step]);
      && t[|t| - 1] == step
      && (|history| >= 10 ==> t == Tape(history)[1..] + [step])
      && (|history| < 10 ==> t == Tape(history) + [step])
  {
  }

  // ----------------------------------------------------------------- class

  /** The component, its `useState` values as fields. */
  class Calculator {
    var display: string
    var previousValue: Option<Number>
    var operation: Option<string>
    var waitingForOperand: bool
    var history: seq<CalculationStep>

    function Current(): State
      reads this
    {
      State(display, previousValue, operation, waitingForOperand, history)
    }

    constructor()
      ensures Current() == Initial
    {
      display := "0";
      previousValue := None;
      operation := None;
      waitingForOperand := false;
      history := [];
    }

    method HandleInputNumber(num: string)
      modifies this
      ensures Current() == InputNumber(old(Current()), num)
    {
      if waitingForOperand {
        display := num;
        waitingForOperand := false;
      } else {
        display := if display == "0" then num else display + num;
      }
    }

    method HandleInputDecimal()
      modifies this
      ensures Current() == InputDecimal(old(Current()))
    {
      if waitingForOperand {
        display := "0.";
        waitingForOperand := false;
      } else if IndexOf(display, ".").None? {
        display := display + ".";
      }
    }

    method HandleInputOperation(nextOperation: string, parse: string -> Number, show: Number -> string)
      modifies this
      ensures Current() == InputOperation(old(Current()), nextOperation, parse, show)
    {
      var inputValue := parse(display);
      if previousValue.None? {
        previousValue := Some(inputValue);
      } else if operation.Some? {
        var newValue := Calculate(OrZero(previousValue.value), inputValue, operation.value);
        display := show(newValue);
        previousValue := Some(newValue);
      }
      waitingForOperand := true;
      operation := Some(nextOperation);
    }

    method HandlePerformCalculation(parse: string -> Number, show: Number -> string)
      modifies this
      ensures Current() == PerformCalculation(old(Current()), parse, show)
    {
      var inputValue := parse(display);
      if previousValue.Some? && operation.Some? {
        var newValue := Calculate(previousValue.value, inputValue, operation.value);
        var expression := show(previousValue.value) + " " + operation.value + " " + show(inputValue);
        history := history + [CalculationStep(expression, show(newValue))];
        display := show(newValue);
        previousValue := None;
        operation := None;
        waitingForOperand := true;
      }
    }

    method HandleClearAll()
      modifies this
      ensures Current() == ClearAll(old(Current()))
    {
      display := "0";
      previousValue := None;
      operation := None;
      waitingForOperand := false;
    }

    method HandleClearEntry()
      modifies this
      ensures Current() == ClearEntry(old(Current()))
    {
      display := "0";
    }
  }
}
