/** The calculator of src/calc.rs as values: the record `CalculatorState`, the
    operator enum `Op`, and one pure step function per command. The class in
    calc.dfy updates its fields in place and is proved to follow these functions. */
module CalcSpec {

  datatype Option<T> = None | Some(value: T)

  /** The four operators of `enum Op`. */
  datatype Op = Add | Sub | Mul | Div

  /** The host's conversions between `f64` and text, left uninterpreted:
      `parse` stands for `str::parse::<f64>` and `show` for `f64::to_string`. */
  datatype FloatText = FloatText(parse: string -> Option<real>, show: real -> string)

  /** The only fact about parsing the model relies on: the empty string is not a number. */
  predicate RejectsEmpty(t: FloatText)
  {
    t.parse("") == None
  }

  /** The digits 0 to 9 that the user interface hands to `input_digit`. */
  type Digit = d: int | 0 <= d <= 9

  /** The six fields of `CalculatorState`; `f64` is modelled by `real`. */
  datatype State = State(
    current: string,
    stored: real,
    op: Option<Op>,
    lastOperand: Option<real>,
    lastOp: Option<Op>,
    error: bool)

  /** `CalculatorState::default()`: empty entry, zero accumulator, no operator, no history, no error. */
  const Default := State("", 0.0, None, None, None, false)

  /** At most one decimal point in an entry. */
  predicate AtMostOneDot(s: string)
  {
    multiset(s)['.'] <= 1
  }

  /** `char::from(b'0' + digit)`. */
  function DigitChar(d: Digit): (c: char)
    ensures '0' <= c <= '9'
    ensures c as int - '0' as int == d
  {
    (48 + d) as char
  }

  /** The arithmetic that `evaluate` writes out twice: `None` stands for the
      division by zero that sets the error latch. */
  function Apply(op: Op, left: real, right: real): (r: Option<real>)
    ensures r.None? <==> op == Div && right == 0.0
    ensures r.Some? && op == Add ==> r.value - right == left
    ensures r.Some? && op == Sub ==> r.value + right == left
  {
    match op
    case Add => Some(left + right)
    case Sub => Some(left - right)
    case Mul => Some(left * right)
    case Div => if right == 0.0 then None else Some(left / right)
  }

  /** Multiplying and dividing by a non-zero right operand undo each other. */
  lemma ApplyInverse(left: real, right: real)
    requires right != 0.0
    ensures Apply(Mul, left, right).value / right == left
    ensures Apply(Div, left, right).value * right == left
  {
  }

  /** `input_digit`: the placeholder "0" is replaced, otherwise the digit is appended. */
  function InputDigit(s: State, d: Digit): (r: State)
    ensures s.error ==> r == s
    ensures !s.error ==> r == s.(current := r.current)
    ensures !s.error ==> r.current == (if s.current == "0" then "" else s.current) + [DigitChar(d)]
    ensures AtMostOneDot(s.current) ==> AtMostOneDot(r.current)
  {
    if s.error then s
    else
      var kept := if s.current == "0" then "" else s.current;
      s.(current := kept + [DigitChar(d)])
  }

  /** `input_decimal`: one '.' per entry, with a leading '0' on an empty entry. */
  function InputDecimal(s: State): (r: State)
    ensures s.error || '.' in s.current ==> r == s
    ensures !s.error && '.' !in s.current ==>
              r == s.(current := (if s.current == "" then "0" else s.current) + ".")
    ensures !s.error ==> '.' in r.current
    ensures AtMostOneDot(s.current) ==> AtMostOneDot(r.current)
  {
    if s.error || '.' in s.current then s
    else
      var seeded := if s.current == "" then "0" else s.current;
      s.(current := seeded + ".")
  }

  /** `backspace`: `pop`, then an emptied entry becomes "0". */
  function Backspace(s: State): (r: State)
    ensures s.error ==> r == s
    ensures !s.error ==> r == s.(current := r.current) && r.current != ""
    ensures !s.error ==> r.current == (if |s.current| <= 1 then "0" else s.current[..|s.current| - 1])
    ensures AtMostOneDot(s.current) ==> AtMostOneDot(r.current)
  {
    if s.error then s
    else
      var popped := if s.current == "" then "" else s.current[..|s.current| - 1];
      assert s.current == popped + s.current[|popped|..];
      assert multiset(s.current) == multiset(popped) + multiset(s.current[|popped|..]);
      assert |popped| == if s.current == "" then 0 else |s.current| - 1;
      s.(current := if popped == "" then "0" else popped)
  }

  /** `toggle_sign`: remove a leading '-', or prepend one unless the entry is "0". */
  function ToggleSign(s: State): (r: State)
    ensures r == s.(current := r.current)
    ensures s.error || s.current == "" || s.current == "0" ==> r == s
    ensures !s.error && s.current != "" && s.current[0] == '-' ==> r.current == s.current[1..]
    ensures !s.error && s.current != "" && s.current != "0" && s.current[0] != '-' ==>
              r.current == "-" + s.current
    ensures AtMostOneDot(s.current) ==> AtMostOneDot(r.current)
  {
    if s.error || s.current == "" then s
    else if s.current[0] == '-' then
      assert s.current == [s.current[0]] + s.current[1..];
      s.(current := s.current[1..])
    else if s.current != "0" then s.(current := "-" + s.current)
    else s
  }

  /** `set_op`: commit the entry as the left operand, or, with no entry, replace
      a pending operator; an entry that does not parse sets the error latch. */
  function SetOp(t: FloatText, s: State, op: Op): (r: State)
    ensures r.lastOp == s.lastOp && r.lastOperand == s.lastOperand
    ensures s.error ==> r == s
    ensures !s.error && s.current == "" ==> r == (if s.op.None? then s else s.(op := Some(op)))
    ensures !s.error && s.current != "" && t.parse(s.current).Some? ==>
              r == s.(stored := t.parse(s.current).value, current := "", op := Some(op))
    ensures !s.error && s.current != "" && t.parse(s.current).None? ==> r == s.(error := true)
    ensures r.error <==> s.error || (s.current != "" && t.parse(s.current).None?)
  {
    if s.error then s
    else if s.current == "" then
      if s.op.Some? then s.(op := Some(op)) else s
    else
      match t.parse(s.current)
      case Some(num) => s.(stored := num, current := "", op := Some(op))
      case None => s.(error := true)
  }

  /** The operator and right operand `evaluate` applies to the accumulator: the
      pending operator with the parsed entry, or else the remembered pair. */
  function Operands(t: FloatText, s: State): Option<(Op, real)>
  {
    if s.op.Some? then
      match t.parse(s.current)
      case Some(right) => Some((s.op.value, right))
      case None => None
    else if s.lastOp.Some? && s.lastOperand.Some? then Some((s.lastOp.value, s.lastOperand.value))
    else None
  }

  /** Lines 112-113 and 135-136: display the result, or "Error" after a division by
      zero. The model keeps `stored` there, where the source writes NaN. */
  function Commit(t: FloatText, s: State, res: Option<real>): State
  {
    match res
    case Some(v) => s.(current := t.show(v), stored := v)
    case None => s.(current := "Error", error := true)
  }

  /** `evaluate`: apply the pending operation, or repeat the last one. */
  function Evaluate(t: FloatText, s: State): (r: State)
    ensures s.error ==> r == s
    // the one path taken is fixed by `op`; any failure sets the latch
    ensures !s.error && Operands(t, s).None? ==> r == s.(error := true)
    ensures !s.error && Operands(t, s).Some? ==>
              var (o, x) := Operands(t, s).value;
              && r.error == Apply(o, s.stored, x).None?
              && (r.error ==> r.current == "Error" && r.stored == s.stored)
              && (!r.error ==> r.stored == Apply(o, s.stored, x).value && r.current == t.show(r.stored))
              && r.op == None && r.lastOp == Some(o) && r.lastOperand == Some(x)
    // pressing "=" straight after an operator fails: the empty entry does not parse
    ensures RejectsEmpty(t) && !s.error && s.op.Some? && s.current == "" ==> r.error
  {
    if s.error then s
    else if s.op.Some? then
      match t.parse(s.current)
      case Some(right) =>
        var o := s.op.value;
        Commit(t, s.(lastOperand := Some(right), lastOp := Some(o), op := None), Apply(o, s.stored, right))
      case None => s.(error := true)
    else if s.lastOp.Some? && s.lastOperand.Some? then
      Commit(t, s, Apply(s.lastOp.value, s.stored, s.lastOperand.value))
    else s.(error := true)
  }
}
