# Desk calculator state machine, modelled in Dafny

This project models `CalculatorState` from src/calc.rs. That file is the whole logic of a four-function desk calculator with a Slint user interface. The state machine holds an entry buffer (`current`), an accumulator (`stored`) and a pending operator (`op`). It also holds the last operator and right operand, so that pressing "=" again repeats the last operation, and a sticky `error` latch. Seven commands update it in place:
- digit entry;
- decimal point;
- backspace;
- sign toggle;
- operator selection;
- evaluate;
- clear.

Files:

- `calc_spec.dfy`, module `CalcSpec`. It holds the record as a value `State`, the operator `Op`, and the host's number conversions as `FloatText`, uninterpreted. It also holds the arithmetic `Apply` and one pure step function per command. Each function's contract states what that command does: the error gate, which fields change, and what the entry becomes.
- `calc.dfy`, module `Calc`. It holds the class `CalculatorState`, with the six mutable fields and one `modifies this` method per command. Each method edits the fields as the Rust code does (`push`, `pop`, `insert(0, '-')`, `remove(0)`, and overwriting the whole record on clear). Each is proved to leave the object in the state that the matching `CalcSpec` function gives for the state it started from.
- `calc_traces.dfy`, module `CalcTraces`. Sequences of button presses, as the user interface dispatches them, and inductive lemmas over those sequences. They cover the error latch, the single decimal point, how typed digits become the entry, the repeat-last-operation chain, and a whole "operand, operator, operand, =" round.
- `calc_scenarios.dfy`, module `CalcScenarios`. Concrete sessions such as "5 + 2 = =" and "9 / 0 =", plus one session driven through the class.

Numbers are modelled as follows:
- `f64` is `real`.
- `str::parse::<f64>` and `f64::to_string` are two function values, `parse` and `show`, fixed when the object is built.
- The model assumes only that `parse` rejects the empty string (`RejectsEmpty`), as Rust's parser does.
- The one-dot invariant also assumes that `show` never prints two decimal points (`ShowsOneDot`).

Behaviour of the code worth knowing, which the model follows:

- The entry can be empty: in the default state, after clear, after a successful `set_op`, and after `toggle_sign` on "-" (`ToggleEmptiesEntry`: "5 ± ⌫ ±" leaves ""). The default entry is `""`, not `"0"`. With the latch clear, `input_digit`, `input_decimal` and `backspace` always leave it non-empty, and only `backspace` replaces an emptied entry with "0".
- "=" straight after an operator ("5 + =") fails to parse the empty entry and sets only the latch (src/calc.rs:98, 118): the display shows "" rather than "Error", and while the latch holds, every command but clear leaves that empty entry (`EqualsAfterOperatorBlanks`).
- `evaluate` with no pending operator and no remembered operation sets the error latch (src/calc.rs:138-140). It is not a no-op.
- There is no `expression` display field and no 16-character input cap in this code.
- `set_op` overwrites `stored` with the new entry and never applies the pending operator (src/calc.rs:81-84), so "5 + 3 + 2 =" gives 5 (`SecondOperatorDropsPending`).

## Model

| member | source | states |
|---|---|---|
| CalcSpec.DigitChar | src/calc.rs:28 | the character pushed for digit d is the digit character whose code is '0' + d |
| CalcSpec.Apply | src/calc.rs:99-111 | the arithmetic of both evaluate paths: no result exactly when dividing by zero; addition and subtraction are undone by the right operand |
| CalcSpec.ApplyInverse | src/calc.rs:102-109 | for a non-zero right operand, multiplication is undone by division and division by multiplication |
| CalcSpec.InputDigit | src/calc.rs:21-29 | with the latch set nothing changes; otherwise only `current` changes, becoming the old entry plus the digit, or just the digit when the entry was the placeholder "0"; an entry with at most one '.' keeps at most one |
| CalcSpec.InputDecimal | src/calc.rs:32-42 | nothing changes with the latch set or a '.' already present; otherwise exactly one '.' is appended, after a '0' when the entry was empty; afterwards the entry contains a '.', and never a second one |
| CalcSpec.Backspace | src/calc.rs:45-53 | with the latch set nothing changes; otherwise only `current` changes, it is never empty, and it is the old entry minus its last character, or "0" when that would leave nothing |
| CalcSpec.ToggleSign | src/calc.rs:56-65 | only `current` can change; no-op with the latch set or on "" or "0"; a leading '-' is removed; any other entry gets a '-' prepended |
| CalcSpec.SetOp | src/calc.rs:68-88 | never touches the remembered operation; no-op with the latch set; with an empty entry only a pending operator is replaced; a parseable entry becomes `stored`, the entry is emptied and the operator is pending; an unparseable one sets only the latch, and that is the only way the latch gets set |
| CalcSpec.Evaluate | src/calc.rs:91-141 | no-op with the latch set; the pending operator with the parsed entry, or else the remembered pair, is applied to `stored`; with neither, only the latch is set; a division by zero sets the latch and shows "Error", success shows `show(stored)` with the result in `stored`; either way no operator is pending and that pair is remembered; "=" right after an operator fails because "" does not parse |
| Calc.CalculatorState.constructor | src/calc.rs:9-17 | a new object is in the derived default state |
| Calc.CalculatorState.InputDigit | src/calc.rs:21-29 | the in-place edit leaves exactly the state CalcSpec.InputDigit gives |
| Calc.CalculatorState.InputDecimal | src/calc.rs:32-42 | the in-place edit leaves exactly the state CalcSpec.InputDecimal gives |
| Calc.CalculatorState.Backspace | src/calc.rs:45-53 | the in-place edit leaves exactly the state CalcSpec.Backspace gives |
| Calc.CalculatorState.ToggleSign | src/calc.rs:56-65 | the in-place edit leaves exactly the state CalcSpec.ToggleSign gives |
| Calc.CalculatorState.SetOp | src/calc.rs:68-88 | the in-place update leaves exactly the state CalcSpec.SetOp gives |
| Calc.CalculatorState.Evaluate | src/calc.rs:91-141 | the in-place update, with its two copies of the arithmetic, leaves exactly the state CalcSpec.Evaluate gives |
| Calc.CalculatorState.Clear | src/calc.rs:144-146 | every field is back at its default, whatever the latch said |
| CalcTraces.ErrorLatch | src/calc.rs:22-24 | once the latch is set, any sequence of presses without Clear leaves the whole state unchanged (each command's early return) |
| CalcTraces.ClearResets | src/calc.rs:144-146 | any session ending in Clear ends in the default state, with the latch cleared |
| CalcTraces.StepKeepsOneDot | src/calc.rs:36-41 | every command keeps the entry at no more than one '.', given a host that never prints two |
| CalcTraces.OneDotInvariant | src/calc.rs:36-41 | no sequence of presses puts a second '.' into the entry |
| CalcTraces.StripAppend | src/calc.rs:25-28 | appending a digit after dropping every leading '0' that a digit follows is the same as dropping them after the digit, with the placeholder "0" replaced |
| CalcTraces.TypeDigits | src/calc.rs:25-28 | typing digits onto an entry with no leading '0' that a digit follows (such as "", "0" or "0.") gives the entry followed by the digits, placeholder zero replaced; nothing else changes |
| CalcTraces.TypeDigitsFresh | src/calc.rs:25-28 | digits typed after start or Clear give exactly the digit string once the first digit is not 0 |
| CalcTraces.BackspaceUndoesDigit | src/calc.rs:49-52 | backspace undoes a digit exactly when the entry was not empty (the empty entry comes back as "0") |
| CalcTraces.ToggleTwice | src/calc.rs:60-64 | toggling twice restores the state exactly unless the entry is "-", "-0" or starts with "--" |
| CalcTraces.RepeatedApplyDefined | src/calc.rs:126-133 | repeating an operation never fails unless it divides by zero |
| CalcTraces.RepeatedAdd | src/calc.rs:123 | n repeats of "+ x" add n·x |
| CalcTraces.RepeatedSub | src/calc.rs:124 | n repeats of "- x" subtract n·x |
| CalcTraces.RepeatChain | src/calc.rs:120-137 | with no pending operator, n presses of "=" apply the remembered operation n times to `stored`, show the result, and keep the memory |
| CalcTraces.RepeatDivByZero | src/calc.rs:126-130 | a remembered division by zero sets the latch on the first repeat, and later presses change nothing |
| CalcTraces.OperatorThenDigits | src/calc.rs:81-84 | an operator after a parseable entry commits it to `stored` and leaves that operator pending; the digits typed next become the entry, leading zeros dropped |
| CalcTraces.BinaryOperation | src/calc.rs:81-116 | operator, typed digits, "=": the operator is applied to the committed entry and the typed operand, the pair becomes the memory, and the latch is set exactly for a division by zero |
| CalcScenarios.RepeatEquals | src/calc.rs:120-137 | "5 + 2 = =" ends with 9 stored and shown |
| CalcScenarios.DivideByZero | src/calc.rs:103-106 | "9 / 0 =" sets the latch and shows "Error" |
| CalcScenarios.TimesZero | src/calc.rs:102 | "5 * 0 =" ends with 0 stored and shown |
| CalcScenarios.BackspaceToZero | src/calc.rs:49-52 | "1 0 ⌫ ⌫" leaves "0" |
| CalcScenarios.SecondDecimalIgnored | src/calc.rs:36-41 | "1 . . 2" gives "1.2" |
| CalcScenarios.ToggleFive | src/calc.rs:60-64 | "5 ±" shows "-5", and a second "±" gives back the "5" state |
| CalcScenarios.ToggleEmptiesEntry | src/calc.rs:45-64 | "5 ± ⌫ ±" leaves the entry empty: backspace leaves "-", and removing its sign leaves "" |
| CalcScenarios.EqualsAfterOperatorBlanks | src/calc.rs:91-118 | "5 + =" sets the latch with the entry left "", not "Error", and digit, decimal point and backspace keep it "" |
| CalcScenarios.OperatorFirstIgnored | src/calc.rs:73-79 | an operator with no entry and none pending leaves the default state |
| CalcScenarios.SecondOperatorDropsPending | src/calc.rs:81-84 | "5 + 3 + 2 =" gives 5: the second operator replaces the accumulator instead of applying the pending addition |
| CalcScenarios.RepeatEqualsOnObject | src/calc.rs:91-141 | the "5 + 2 = =" session run on a `CalculatorState` object shows `show(9)` without error |

## Left out

- src/main.rs: the Slint window, its callbacks and the `Rc<RefCell<…>>`/`Weak` sharing are presentation plumbing over a library that is not part of this model. The one fact taken from it is that `input_digit` only ever receives 0 to 9 (`to_digit(10)`), modelled by the type `Digit`. Because of that, the `u8` overflow of `b'0' + digit` cannot happen.
- CalcSpec.Evaluate: after a division by zero it keeps `stored` unchanged; src/calc.rs:113 writes NaN there, which `real` cannot represent. The value is never observed before a Clear, because the latch blocks every other command.
- Calc.CalculatorState.Evaluate: the same gap; `stored` keeps its value where the source writes NaN after a division by zero.
- IEEE-754 semantics are not modelled: overflow to infinity, rounding, NaN and the equality of -0.0 with 0.0. Arithmetic is exact on `real`, and division by zero is checked as `right == 0.0`.
- The exact text produced by `f64::to_string` and accepted by `str::parse::<f64>` is not modelled. Both stay uninterpreted. The properties hold for every host conversion, assuming only that "" does not parse and, where stated, that numbers are printed with at most one '.'.
- The `expression` display field and the input-length cap are not modelled, because src/calc.rs does not have them.
- `#[derive(Copy, Clone, Debug)]` has no behaviour to model.
