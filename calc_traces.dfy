/** Sequences of button presses, as the user interface dispatches them to the
    commands of `CalculatorState`, and what holds along them. */
module CalcTraces {
  import opened CalcSpec

  /** One button press: one call of a `CalculatorState` command. */
  datatype Command =
    | PressDigit(d: Digit)
    | PressDecimal
    | PressBackspace
    | PressToggleSign
    | PressOp(op: Op)
    | PressEquals
    | PressClear

  function Step(t: FloatText, s: State, c: Command): State
  {
    match c
    case PressDigit(d) => InputDigit(s, d)
    case PressDecimal => InputDecimal(s)
    case PressBackspace => Backspace(s)
    case PressToggleSign => ToggleSign(s)
    case PressOp(op) => SetOp(t, s, op)
    case PressEquals => Evaluate(t, s)
    case PressClear => Default
  }

  /** The state after the presses `cmds`, in order, starting from `s`. */
  function Run(t: FloatText, s: State, cmds: seq<Command>): State
    decreases |cmds|
  {
    if cmds == [] then s
    else Step(t, Run(t, s, cmds[..|cmds| - 1]), cmds[|cmds| - 1])
  }

  lemma {:induction false} RunAppend(t: FloatText, s: State, a: seq<Command>, b: seq<Command>)
    ensures Run(t, s, a + b) == Run(t, Run(t, s, a), b)
    decreases |b|
  {
    if b == [] {
      assert a + b == a;
    } else {
      assert (a + b)[..|a + b| - 1] == a + b[..|b| - 1];
      RunAppend(t, s, a, b[..|b| - 1]);
    }
  }

  predicate NoClear(cmds: seq<Command>)
  {
    forall i :: 0 <= i < |cmds| ==> !cmds[i].PressClear?
  }

  /** The error latch: once set, no press but Clear changes anything. */
  lemma {:induction false} ErrorLatch(t: FloatText, s: State, cmds: seq<Command>)
    requires s.error && NoClear(cmds)
    ensures Run(t, s, cmds) == s
    decreases |cmds|
  {
    if cmds != [] {
      var init := cmds[..|cmds| - 1];
      assert forall i :: 0 <= i < |init| ==> init[i] == cmds[i];
      ErrorLatch(t, s, init);
    }
  }

  /** Clear resets everything, error latch included. */
  lemma ClearResets(t: FloatText, s: State, cmds: seq<Command>)
    ensures Run(t, s, cmds + [PressClear]) == Default
    ensures !Run(t, s, cmds + [PressClear]).error
  {
  }

  /** The host never prints a number with two decimal points. */
  ghost predicate ShowsOneDot(t: FloatText)
  {
    forall x :: AtMostOneDot(t.show(x))
  }

  lemma StepKeepsOneDot(t: FloatText, s: State, c: Command)
    requires ShowsOneDot(t) && AtMostOneDot(s.current)
    ensures AtMostOneDot(Step(t, s, c).current)
  {
  }

  /** No sequence of presses puts a second '.' into the entry. */
  lemma {:induction false} OneDotInvariant(t: FloatText, s: State, cmds: seq<Command>)
    requires ShowsOneDot(t) && AtMostOneDot(s.current)
    ensures AtMostOneDot(Run(t, s, cmds).current)
    decreases |cmds|
  {
    if cmds != [] {
      OneDotInvariant(t, s, cmds[..|cmds| - 1]);
      StepKeepsOneDot(t, Run(t, s, cmds[..|cmds| - 1]), cmds[|cmds| - 1]);
    }
  }

  /** The presses for a run of digit keys. */
  function Digits(ds: seq<Digit>): (cmds: seq<Command>)
    ensures |cmds| == |ds|
  {
    seq(|ds|, i requires 0 <= i < |ds| => PressDigit(ds[i]))
  }

  function DigitText(ds: seq<Digit>): (text: string)
    ensures |text| == |ds|
  {
    seq(|ds|, i requires 0 <= i < |ds| => DigitChar(ds[i]))
  }

  /** An entry with every leading '0' that a digit follows dropped, as typing a
      digit onto the placeholder "0" does; a lone "0" and the '0' of "0." stay. */
  function StripLeadingZeros(x: string): string
  {
    if |x| > 1 && x[0] == '0' && '0' <= x[1] <= '9' then StripLeadingZeros(x[1..]) else x
  }

  lemma {:induction false} StripAppend(x: string, c: char)
    requires '0' <= c <= '9'
    ensures StripLeadingZeros(x + [c]) ==
              (if StripLeadingZeros(x) == "0" then [c] else StripLeadingZeros(x) + [c])
    decreases |x|
  {
    if |x| > 1 && x[0] == '0' && '0' <= x[1] <= '9' {
      assert (x + [c])[1..] == x[1..] + [c];
      StripAppend(x[1..], c);
    } else if |x| == 1 && x[0] == '0' {
      assert (x + [c])[1..] == [c];
    }
  }

  /** Typing digits onto an entry without a leading '0' that a digit follows (such
      as the empty entry, the placeholder "0" or "0.") gives that entry followed by the digits,
      with the placeholder zero replaced rather than kept; nothing else changes. */
  lemma {:induction false} TypeDigits(t: FloatText, s: State, ds: seq<Digit>)
    requires !s.error && StripLeadingZeros(s.current) == s.current
    ensures Run(t, s, Digits(ds)) == s.(current := StripLeadingZeros(s.current + DigitText(ds)))
    decreases |ds|
  {
    if ds == [] {
      assert s.current + DigitText(ds) == s.current;
    } else {
      var init := ds[..|ds| - 1];
      var c := DigitChar(ds[|ds| - 1]);
      assert Digits(ds)[..|ds| - 1] == Digits(init);
      assert s.current + DigitText(ds) == (s.current + DigitText(init)) + [c];
      TypeDigits(t, s, init);
      StripAppend(s.current + DigitText(init), c);
    }
  }

  /** Digits typed after a fresh start or a Clear are the entry, exactly, once the first is not 0. */
  lemma TypeDigitsFresh(t: FloatText, ds: seq<Digit>)
    ensures Run(t, Default, Digits(ds)).current == StripLeadingZeros(DigitText(ds))
    ensures ds != [] && ds[0] != 0 ==> Run(t, Default, Digits(ds)).current == DigitText(ds)
  {
    TypeDigits(t, Default, ds);
    assert "" + DigitText(ds) == DigitText(ds);
  }

  /** Backspace undoes a digit, except on the empty entry, which comes back as "0". */
  lemma BackspaceUndoesDigit(s: State, d: Digit)
    ensures Backspace(InputDigit(s, d)) == s <==> s.error || s.current != ""
  {
    if !s.error {
      var kept := if s.current == "0" then "" else s.current;
      var typed := kept + [DigitChar(d)];
      assert typed[..|typed| - 1] == kept;
    }
  }

  /** The entries toggle_sign prepends a '-' to. */
  predicate Negatable(x: string)
  {
    x != "" && x != "0" && x[0] != '-'
  }

  /** Toggling twice restores the entry except on "-", "-0" and entries starting "--". */
  lemma ToggleTwice(s: State)
    ensures ToggleSign(ToggleSign(s)) == s <==>
              s.error || s.current == "" || s.current[0] != '-' || Negatable(s.current[1..])
  {
  }

  /** The presses of "=" n times. */
  function Presses(n: nat): (cmds: seq<Command>)
    ensures |cmds| == n
  {
    seq(n, _ => PressEquals)
  }

  /** `op` applied n times with the same right operand, starting from `left`. */
  function RepeatedApply(op: Op, left: real, right: real, n: nat): Option<real>
  {
    if n == 0 then Some(left)
    else
      match RepeatedApply(op, left, right, n - 1)
      case Some(v) => Apply(op, v, right)
      case None => None
  }

  lemma {:induction false} RepeatedApplyDefined(op: Op, left: real, right: real, n: nat)
    requires op != Div || right != 0.0
    ensures RepeatedApply(op, left, right, n).Some?
  {
    if n > 0 {
      RepeatedApplyDefined(op, left, right, n - 1);
    }
  }

  /** Repeated additions add up. */
  lemma {:induction false} RepeatedAdd(left: real, right: real, n: nat)
    ensures RepeatedApply(Add, left, right, n) == Some(left + (n as real) * right)
  {
    if n > 0 {
      var m: nat := n - 1;
      RepeatedAdd(left, right, m);
      var before, after := (m as real) * right, (n as real) * right;
      assert after == before + right;
      assert RepeatedApply(Add, left, right, n) == Apply(Add, left + before, right);
    }
  }

  /** Repeated subtractions add up. */
  lemma {:induction false} RepeatedSub(left: real, right: real, n: nat)
    ensures RepeatedApply(Sub, left, right, n) == Some(left - (n as real) * right)
  {
    if n > 0 {
      var m: nat := n - 1;
      RepeatedSub(left, right, m);
      var before, after := (m as real) * right, (n as real) * right;
      assert after == before + right;
      assert RepeatedApply(Sub, left, right, n) == Apply(Sub, left - before, right);
    }
  }

  /** With no pending operator, each "=" applies the remembered operation once
      more to the accumulator and leaves the memory as it was. */
  lemma {:induction false} RepeatChain(t: FloatText, s: State, n: nat)
    requires !s.error && s.op.None? && s.lastOp.Some? && s.lastOperand.Some?
    requires s.lastOp.value != Div || s.lastOperand.value != 0.0
    ensures RepeatedApply(s.lastOp.value, s.stored, s.lastOperand.value, n).Some?
    ensures var v := RepeatedApply(s.lastOp.value, s.stored, s.lastOperand.value, n).value;
            Run(t, s, Presses(n)) == if n == 0 then s else s.(stored := v, current := t.show(v))
    decreases n
  {
    RepeatedApplyDefined(s.lastOp.value, s.stored, s.lastOperand.value, n);
    if n > 0 {
      assert Presses(n)[..n - 1] == Presses(n - 1);
      RepeatChain(t, s, n - 1);
    }
  }

  /** A repeated division by zero sets the latch on the first "=". */
  lemma RepeatDivByZero(t: FloatText, s: State, n: nat)
    requires !s.error && s.op.None? && s.lastOp == Some(Div) && s.lastOperand == Some(0.0)
    requires n > 0
    ensures Run(t, s, Presses(n)) == s.(error := true, current := "Error")
  {
    var first := Run(t, s, Presses(1));
    assert Presses(1)[..0] == [];
    assert first == s.(error := true, current := "Error");
    assert Presses(n) == Presses(1) + Presses(n - 1);
    RunAppend(t, s, Presses(1), Presses(n - 1));
    assert NoClear(Presses(n - 1));
    ErrorLatch(t, first, Presses(n - 1));
  }

  /** An operator, then digits: the entry is committed as the left operand, the
      operator is pending, and the digits form the new entry. */
  lemma OperatorThenDigits(t: FloatText, s: State, op: Op, ds: seq<Digit>, left: real)
    requires !s.error && s.current != "" && t.parse(s.current) == Some(left)
    ensures Run(t, s, [PressOp(op)] + Digits(ds)) ==
              s.(stored := left, current := StripLeadingZeros(DigitText(ds)), op := Some(op))
  {
    var afterOp := SetOp(t, s, op);
    assert [PressOp(op)][..0] == [];
    assert Run(t, s, [PressOp(op)]) == afterOp;
    TypeDigits(t, afterOp, ds);
    assert "" + DigitText(ds) == DigitText(ds);
    RunAppend(t, s, [PressOp(op)], Digits(ds));
  }

  /** Operator, a fresh right operand, then "=": the operator is applied to the
      committed entry and the typed operand, and becomes the remembered operation. */
  lemma BinaryOperation(t: FloatText, s: State, op: Op, ds: seq<Digit>, left: real, right: real)
    requires !s.error && s.current != "" && t.parse(s.current) == Some(left)
    requires t.parse(StripLeadingZeros(DigitText(ds))) == Some(right)
    ensures var r := Run(t, s, [PressOp(op)] + Digits(ds) + [PressEquals]);
            && r.op == None && r.lastOp == Some(op) && r.lastOperand == Some(right)
            && (r.error <==> op == Div && right == 0.0)
            && (!r.error ==> r.stored == Apply(op, left, right).value && r.current == t.show(r.stored))
  {
    var cmds := [PressOp(op)] + Digits(ds);
    OperatorThenDigits(t, s, op, ds, left);
    var typed := Run(t, s, cmds);
    assert (cmds + [PressEquals])[..|cmds|] == cmds;
    assert Run(t, s, cmds + [PressEquals]) == Evaluate(t, typed);
    assert Operands(t, typed) == Some((op, right));
  }


}
