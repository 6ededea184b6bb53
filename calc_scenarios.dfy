/** Short desk calculator sessions, one command after another, and their outcomes,
    stated for any host whose parser reads the entries involved as the expected numbers. */
module CalcScenarios {
  import opened CalcSpec
  import Calc

  /** "5 + 2 = =": the second "=" adds 2 again. */
  lemma RepeatEquals(t: FloatText)
    requires t.parse("5") == Some(5.0) && t.parse("2") == Some(2.0)
    ensures var r := Evaluate(t, Evaluate(t, InputDigit(SetOp(t, InputDigit(Default, 5), Add), 2)));
            !r.error && r.stored == 9.0 && r.current == t.show(9.0)
            && r.lastOp == Some(Add) && r.lastOperand == Some(2.0)
  {
    var s1 := InputDigit(Default, 5);
    assert s1.current == "5";
    var s2 := SetOp(t, s1, Add);
    assert s2 == Default.(stored := 5.0, op := Some(Add));
    var s3 := InputDigit(s2, 2);
    assert s3.current == "2";
  }

  /** "9 / 0 =": the error latch is set and the display reads "Error". */
  lemma DivideByZero(t: FloatText)
    requires t.parse("9") == Some(9.0) && t.parse("0") == Some(0.0)
    ensures var r := Evaluate(t, InputDigit(SetOp(t, InputDigit(Default, 9), Div), 0));
            r.error && r.current == "Error"
  {
    var s1 := InputDigit(Default, 9);
    assert s1.current == "9";
    var s2 := SetOp(t, s1, Div);
    assert s2 == Default.(stored := 9.0, op := Some(Div));
    assert InputDigit(s2, 0).current == "0";
  }

  /** "5 * 0 =": the result is zero. */
  lemma TimesZero(t: FloatText)
    requires t.parse("5") == Some(5.0) && t.parse("0") == Some(0.0)
    ensures var r := Evaluate(t, InputDigit(SetOp(t, InputDigit(Default, 5), Mul), 0));
            !r.error && r.stored == 0.0 && r.current == t.show(0.0)
  {
    var s1 := InputDigit(Default, 5);
    assert s1.current == "5";
    var s2 := SetOp(t, s1, Mul);
    assert s2 == Default.(stored := 5.0, op := Some(Mul));
    assert InputDigit(s2, 0).current == "0";
  }

  /** "1 0 ⌫ ⌫": backspacing the entry away leaves "0". */
  lemma BackspaceToZero()
    ensures Backspace(Backspace(InputDigit(InputDigit(Default, 1), 0))).current == "0"
  {
  }

  /** "1 . . 2": the second decimal point is ignored. */
  lemma SecondDecimalIgnored()
    ensures InputDigit(InputDecimal(InputDecimal(InputDigit(Default, 1))), 2).current == "1.2"
  {
  }

  /** "5 ± ±": the sign comes and goes. */
  lemma ToggleFive()
    ensures ToggleSign(InputDigit(Default, 5)).current == "-5"
    ensures ToggleSign(ToggleSign(InputDigit(Default, 5))) == InputDigit(Default, 5)
  {
  }

  /** "5 ± ⌫ ±": backspace leaves "-", and removing the sign leaves the entry empty. */
  lemma ToggleEmptiesEntry()
    ensures Backspace(ToggleSign(InputDigit(Default, 5))).current == "-"
    ensures ToggleSign(Backspace(ToggleSign(InputDigit(Default, 5)))).current == ""
  {
    var negated := ToggleSign(InputDigit(Default, 5));
    assert negated.current == "-5";
  }

  /** "5 + =": the empty entry does not parse, so only the latch is set; the
      display stays "" rather than "Error", and digit, decimal point and
      backspace keep it so. */
  lemma EqualsAfterOperatorBlanks(t: FloatText, d: Digit)
    requires RejectsEmpty(t) && t.parse("5") == Some(5.0)
    ensures var r := Evaluate(t, SetOp(t, InputDigit(Default, 5), Add));
            && r.error && r.current == ""
            && InputDigit(r, d).current == "" && InputDecimal(r).current == "" && Backspace(r).current == ""
  {
    var s1 := InputDigit(Default, 5);
    assert s1.current == "5";
    assert SetOp(t, s1, Add) == Default.(stored := 5.0, op := Some(Add));
  }

  /** An operator pressed before any entry, with none pending, is ignored. */
  lemma OperatorFirstIgnored(t: FloatText, op: Op)
    ensures SetOp(t, Default, op) == Default
  {
  }

  /** "5 + 3 + 2 =" gives 5, not 10: a second operator commits the new entry as
      the accumulator and drops the pending addition instead of applying it. */
  lemma SecondOperatorDropsPending(t: FloatText)
    requires t.parse("5") == Some(5.0) && t.parse("3") == Some(3.0) && t.parse("2") == Some(2.0)
    ensures var r := Evaluate(t, InputDigit(SetOp(t, InputDigit(SetOp(t, InputDigit(Default, 5), Add), 3), Add), 2));
            !r.error && r.stored == 5.0
  {
    var s1 := InputDigit(Default, 5);
    assert s1.current == "5";
    var s2 := SetOp(t, s1, Add);
    assert s2 == Default.(stored := 5.0, op := Some(Add));
    var s3 := InputDigit(s2, 3);
    assert s3.current == "3";
    var s4 := SetOp(t, s3, Add);
    assert s4 == Default.(stored := 3.0, op := Some(Add));
    assert InputDigit(s4, 2).current == "2";
  }

  /** The same "5 + 2 = =" session on a `CalculatorState` object, as the user
      interface drives it; returns the display text. */
  method RepeatEqualsOnObject(t: FloatText) returns (display: string, error: bool)
    requires t.parse("5") == Some(5.0) && t.parse("2") == Some(2.0)
    ensures display == t.show(9.0) && !error
  {
    var state := new Calc.CalculatorState(t);
    state.InputDigit(5);
    state.SetOp(Add);
    state.InputDigit(2);
    state.Evaluate();
    state.Evaluate();
    RepeatEquals(t);
    display, error := state.current, state.error;
  }
}
