/** `CalculatorState` of src/calc.rs as a class whose commands update its six
    fields in place. Each command is proved to take the state it finds to the
    one the matching function of CalcSpec describes. */
module Calc {
  import opened CalcSpec

  /** `Apply` as the two copies of the arithmetic in `evaluate` spell it out. */
  lemma ApplyWrittenOut(op: Op, left: real, right: real)
    ensures Apply(op, left, right) ==
              match op
              case Add => Some(left + right)
              case Sub => Some(left - right)
              case Mul => Some(left * right)
              case Div => if right == 0.0 then None else Some(left / right)
  {
  }

  class CalculatorState {
    var current: string
    var stored: real
    var op: Option<Op>
    var lastOperand: Option<real>
    var lastOp: Option<Op>
    var error: bool

    /** The host's `str::parse::<f64>` and `f64::to_string`. */
    const text: FloatText

    /** The fields as one value. */
    function Snapshot(): State
      reads this
    {
      State(current, stored, op, lastOperand, lastOp, error)
    }

    /** `CalculatorState::default()`. */
    constructor (text: FloatText)
      ensures Snapshot() == Default && this.text == text
    {
      this.text := text;
      current := "";
      stored := 0.0;
      op := None;
      lastOperand := None;
      lastOp := None;
      error := false;
    }

    method InputDigit(digit: Digit)
      modifies this
      ensures Snapshot() == CalcSpec.InputDigit(old(Snapshot()), digit)
    {
      if error {
        return;
      }
      if current == "0" {
        current := "";
      }
      current := current + [DigitChar(digit)];
    }

    method InputDecimal()
      modifies this
      ensures Snapshot() == CalcSpec.InputDecimal(old(Snapshot()))
    {
      if error {
        return;
      }
      if '.' !in current {
        if current == "" {
          current := current + "0";
        }
        current := current + ".";
      }
    }

    method Backspace()
      modifies this
      ensures Snapshot() == CalcSpec.Backspace(old(Snapshot()))
    {
      if error {
        return;
      }
      if current != "" {
        current := current[..|current| - 1];
      }
      if current == "" {
        current := current + "0";
      }
    }

    method ToggleSign()
      modifies this
      ensures Snapshot() == CalcSpec.ToggleSign(old(Snapshot()))
    {
      if error || current == "" {
        return;
      }
      if current[0] == '-' {
        current := current[1..];
      } else if current != "0" {
        current := "-" + current;
      }
    }

    method SetOp(newOp: Op)
      modifies this
      ensures Snapshot() == CalcSpec.SetOp(text, old(Snapshot()), newOp)
    {
      if error {
        return;
      }
      if current == "" {
        if op.Some? {
          op := Some(newOp);
        }
        return;
      }
      var parsed := text.parse(current);
      if parsed.Some? {
        stored := parsed.value;
        current := "";
        op := Some(newOp);
      } else {
        error := true;
      }
    }

    /** `stored` keeps its value where the source writes NaN after a division by zero. */
    method Evaluate()
      modifies this
      ensures Snapshot() == CalcSpec.Evaluate(text, old(Snapshot()))
    {
      if error {
        return;
      }
      var left := stored;
      if op.Some? {
        var parsed := text.parse(current);
        if parsed.Some? {
          var right, o := parsed.value, op.value;
          var res := left;
          match o {
            case Add => res := left + right;
            case Sub => res := left - right;
            case Mul => res := left * right;
            case Div =>
              if right == 0.0 {
                error := true;
              } else {
                res := left / right;
              }
          }
          ApplyWrittenOut(o, left, right);
          current := if error then "Error" else text.show(res);
          stored := res;
          lastOperand := Some(right);
          lastOp := Some(o);
          op := None;
        } else {
          error := true;
        }
      } else if lastOp.Some? && lastOperand.Some? {
        var o, right := lastOp.value, lastOperand.value;
        var res := left;
        match o {
          case Add => res := left + right;
          case Sub => res := left - right;
          case Mul => res := left * right;
          case Div =>
            if right == 0.0 {
              error := true;
            } else {
              res := left / right;
            }
        }
        ApplyWrittenOut(o, left, right);
        current := if error then "Error" else text.show(res);
        stored := res;
      } else {
        error := true;
      }
    }

    method Clear()
      modifies this
      ensures Snapshot() == Default
    {
      current := "";
      stored := 0.0;
      op := None;
      lastOperand := None;
      lastOp := None;
      error := false;
    }
  }
}
