# pyfsr in Dafny

A model of the core of pyfsr, a small Python library of feedback shift registers:

- `FSRFunction` (`pyfsr/fsr_function.py`): a boolean function over a register state.
  It is written in reverse Polish notation over state indices and the operators
  `"+"` (XOR) and `"*"` (AND). The constructor validates the tokens and the
  operand/operator balance. `solve` checks the indices against the state length
  once, on its first call, then evaluates the expression with a stack.
- `LFSR` (`pyfsr/lfsr.py`): a linear feedback shift register given by a tap
  polynomial, with external (Fibonacci) or internal (Galois) feedback.
  It covers construction (seed, feedback type, sorting and checking the poly,
  default output function, warm-up), `shift`, `sequence`, `reset` and
  `change_poly`.
- `NLFSR` (`pyfsr/nlfsr.py`): a nonlinear feedback shift register whose feedback
  is an `FSRFunction`. It covers construction, `shift`, `sequence` and `reset`.
- `pyfsr/tools.py`: `roll`, `logical_xor` and `logical_and`.

Modules:

| module | file | contents |
|---|---|---|
| `Common` | `common.dfy` | errors, `Result`/`Option`, Python negative indexing, numpy truth-valued XOR/AND, `np.roll` by one, `np.max`/`np.min`, `list.sort(reverse=True)`, seeds |
| `Runs` | `runs.dfy` | a run of n shifts that stops at the first exception, generic over the register |
| `Tools` | `tools.dfy` | `roll` on an array, Python's `^`/`&` on ints, the guarded helpers |
| `FsrFunction` | `fsr_function.dfy` | token parsing, stack evaluation, class `FSRFunction` |
| `FsrFunctionFacts` | `fsr_function_facts.dfy` | properties of evaluation and of the lazy bounds check |
| `Lfsr` | `lfsr.dfy` | the LFSR as pure functions on `LfsrView`, and class `LFSR` |
| `LfsrFacts` | `lfsr_facts.dfy` | both topologies against reference definitions, construction, reset, change_poly, the test-suite cycle |
| `Nlfsr` | `nlfsr.dfy` | the NLFSR as pure functions on `NlfsrView`, and class `NLFSR` |
| `NlfsrFacts` | `nlfsr_facts.dfy` | shift, construction, reset, the test-suite cycle and error cases |

Each register class keeps the source's fields (`state`, `initstate`, `cycles`,
`outbit`, `feedback_bit`, the poly or the functions). A `View()` maps those fields
to a pure value. Every mutating method is proved to move `View()` exactly as the
pure step function does, for example `(r, View()) == LfsrStep(old(View()))`. The
properties are then lemmas about those functions. `sequence` keeps the source's
buffer as an `array` filled by a loop of `shift` calls. A raised exception is an
`Err` result. The state the object is left in when the exception is raised is part
of each contract.

Register cells are `int`, not bits, because the source never validates seed
contents. numpy's `logical_xor`/`logical_and` act on truthiness (non-zero), and the
model follows that. Negative Python indices wrap, as in the source.

The model follows the code where the library's own description differs from it:

- `LFSR.reset` passes no `outfunc` (`pyfsr/lfsr.py:148-149`). A custom output
  function is therefore replaced by the default one, and only when the poly check
  passes. If the check fails, the state, counters and sentinels have already been
  reset, the output function is kept, and the sorted poly stays installed.
- Integer tokens are not checked for sign at construction (`pyfsr/fsr_function.py:23`).
  A negative index is only rejected by the first `solve`, and it is rejected on
  every state (`pyfsr/fsr_function.py:40`), so such a function never becomes checked.
- The bounds check runs once only. An index that fits the state of the first `solve`
  but not a later, shorter state slips past it, and the stack loop then raises
  IndexError (`pyfsr/fsr_function.py:70`).
- Errors are modelled by kind (`FsrError`); the source raises a bare `Exception`
  (or numpy's `ValueError`/`IndexError`) with a message.

## Model

| member | source | states |
|---|---|---|
| Common.PyIndex | pyfsr/lfsr.py:93 | Python subscription of a length-n sequence succeeds exactly for -n <= i < n, and lands on i or n+i |
| Common.TruthXor | pyfsr/fsr_function.py:78-79 | `np.logical_xor(a, b) * 1` is a bit, 1 exactly when the truth values of a and b differ |
| Common.TruthAnd | pyfsr/fsr_function.py:80-81 | `np.logical_and(a, b) * 1` is a bit, 1 exactly when both are truthy |
| Common.RotateRight | pyfsr/lfsr.py:94 | `np.roll(s, 1)` keeps the length |
| Common.Ones | pyfsr/lfsr.py:30 | `np.ones(n)` is n cells, each 1 |
| Common.RotateRightIndex | pyfsr/lfsr.py:94 | `np.roll(s, 1)` puts old cell (i-1) mod n at position i |
| Common.Draw | pyfsr/lfsr.py:32 | a random seed is n bits, bit k taken from coin k |
| Common.Max | pyfsr/lfsr.py:88 | `np.max` is an element bounding every element |
| Common.Min | pyfsr/lfsr.py:86 | `np.min` is an element bounded by every element |
| Common.SortDesc | pyfsr/lfsr.py:47 | `sort(reverse=True)` yields a descending permutation of the poly |
| Common.SortDescHeadIsMax | pyfsr/lfsr.py:47-48 | the first tap of the sorted poly is `max(poly)` |
| Common.SortedHeadIsMax | pyfsr/lfsr.py:88 | a descending poly has its maximum first |
| Common.SortDescIdempotent | pyfsr/lfsr.py:148 | sorting an already sorted poly again (as reset does) changes nothing |
| Common.NewOnes | pyfsr/lfsr.py:133 | `np.ones(n)` is a fresh buffer of n ones |
| Runs.Repeat | pyfsr/lfsr.py:138-139 | a successful run of n shifts yields n outputs |
| Runs.RepeatStep | pyfsr/lfsr.py:138-139 | one more loop iteration appends the shift's output, or ends the run with its exception |
| Runs.RepeatStopsAtError | pyfsr/lfsr.py:138-139 | once a shift raises, the loop is over: longer runs end identically |
| Runs.RepeatAppend | pyfsr/lfsr.py:138-139 | m shifts then n shifts are m+n shifts, outputs concatenated |
| Runs.RepeatPrefix | pyfsr/lfsr.py:138-139 | the outputs of a shorter successful run are a prefix of a longer one |
| Runs.RepeatOutputs | pyfsr/lfsr.py:138-139 | output i of a run is what shift returns after the first i shifts |
| Tools.Roll | pyfsr/tools.py:8-15 | an empty list raises IndexError untouched; otherwise the same list is rotated right by one in place and returned |
| Tools.RollExample | pyfsr/tools.py:10 | the docstring example `roll([0,1,1]) == [1,0,1]` |
| Tools.XorUnfold | pyfsr/tools.py:30 | Python's `^` computed bit by bit, lowest bit first |
| Tools.AndUnfold | pyfsr/tools.py:44 | Python's `&` computed bit by bit, lowest bit first |
| Tools.XorSelfInverse | pyfsr/tools.py:30 | `(a ^ b) ^ b == a` for all ints, negatives included |
| Tools.AndIdempotent | pyfsr/tools.py:44 | `a & a == a` for all ints |
| Tools.BitXor | pyfsr/tools.py:30 | `a ^ b` of two naturals is a natural; on bits it is 1 exactly when they differ |
| Tools.BitAnd | pyfsr/tools.py:44 | `a & b` of a natural a lies in [0, a]; on bits it is 1 exactly when both are 1 |
| Tools.LogicalXor | pyfsr/tools.py:18-30 | raises exactly when the check is on and a+b lies outside [0, 2]; on bits returns the XOR truth table; otherwise `a ^ b` |
| Tools.LogicalAnd | pyfsr/tools.py:33-44 | raises exactly when the check is on and a+b lies outside [0, 2]; on bits returns the AND truth table; otherwise `a & b` |
| Tools.HelpersOnBits | pyfsr/tools.py:18-44 | on bits both helpers succeed, checked or not, and agree with numpy's truth-valued XOR and AND |
| Tools.GuardAdmitsNonBits | pyfsr/tools.py:25-30 | non-bits pass the guard: `logical_xor(2, 0) == 2`, `logical_xor(3, -1) == -4` |
| FsrFunction.Parse | pyfsr/fsr_function.py:18-35 | an accepted expression has one more operand than operators; a rejection is an unknown token or an unbalanced expression |
| FsrFunction.Push | pyfsr/fsr_function.py:67-81 | one token grows the stack by one (index) or shrinks it by one (operator); an index can fail only by IndexError, an operator only by underflow |
| FsrFunction.Run | pyfsr/fsr_function.py:67-81 | the stack loop fails only by IndexError or underflow |
| FsrFunction.Evaluate | pyfsr/fsr_function.py:66-88 | evaluation fails only by IndexError, underflow or too many values left |
| FsrFunction.SolveOn | pyfsr/fsr_function.py:55-64 | the expression is kept; afterwards it is checked iff it was or fits the state; the bounds error is raised iff it was unchecked and does not fit |
| FsrFunction.DefaultOut | pyfsr/lfsr.py:65-67 | the default output function `[N-1]` starts unchecked and fits a state iff N >= 1 |
| FsrFunction.TranslateErrPersists | pyfsr/fsr_function.py:22-31 | an unknown token anywhere makes construction raise |
| FsrFunction.TranslateOnlyUnknown | pyfsr/fsr_function.py:29-31 | the token loop fails only on an unknown token |
| FsrFunction.ValidateTokens | pyfsr/fsr_function.py:18-35 | the counting loop returns the stored expression or the constructor's error |
| FsrFunction.TranslateShape | pyfsr/fsr_function.py:22-28 | the loop succeeds iff every token is an int, "+" or "*", and then stores them in order |
| FsrFunction.TranslateCounts | pyfsr/fsr_function.py:20-28 | the stored expression has as many operands and operators as the loop counted |
| FsrFunction.ParseAcceptsIff | pyfsr/fsr_function.py:18-35 | construction succeeds iff every token is known and operands - operators == 1; any unknown token gives that error |
| FsrFunction.ParseRejectsMissingOperator | test.py:36-37 | `FSRFunction([0,1])` raises |
| FsrFunction.ParseRejectsMissingOperand | test.py:38-39 | `FSRFunction([0,"+"])` raises |
| FsrFunction.ParseRejectsSurplusOperator | test.py:40-41 | `FSRFunction([0,1,"+","+"])` raises |
| FsrFunction.ParseRejectsUnknownOperator | pyfsr/fsr_function.py:29-31 | `"xor"` is not a token |
| FsrFunction.ParseAcceptsExample | test.py:21 | `[0,1,2,"+","+"]` is stored as given |
| FsrFunction.TranslateSnoc | pyfsr/fsr_function.py:22-28 | one loop iteration appends the recognised token |
| FsrFunction.BalanceSnoc | pyfsr/fsr_function.py:33 | each operand adds one to the balance, each operator subtracts one |
| FsrFunction.EvaluateStack | pyfsr/fsr_function.py:66-88 | the stack loop returns the value of the expression, or IndexError, stack underflow or too many values |
| FsrFunction.DefaultOutBalanced | pyfsr/lfsr.py:65-67 | the default output function `[N-1]` is balanced |
| FsrFunction.FSRFunction.constructor | pyfsr/fsr_function.py:18-35 | a new function holds the tokens and is not yet checked |
| FsrFunction.FSRFunction.Create | pyfsr/fsr_function.py:18-35 | returns a fresh unchecked function holding the parsed tokens, or the constructor's error |
| FsrFunction.FSRFunction.Check | pyfsr/fsr_function.py:37-42 | passes iff every index is in [0, size-1]; sets `checked` only when it passes |
| FsrFunction.FSRFunction.Solve | pyfsr/fsr_function.py:55-88 | result and new `checked` flag are those of the lazy check followed by evaluation |
| FsrFunction.NewDefaultOut | pyfsr/lfsr.py:67 | a fresh unchecked `FSRFunction([N-1])` |
| FsrFunctionFacts.RunAppend | pyfsr/fsr_function.py:67-81 | evaluating a+b is evaluating b on the stack a leaves |
| FsrFunctionFacts.BalanceCons | pyfsr/fsr_function.py:33 | balance of a token followed by an expression |
| FsrFunctionFacts.StackHeight | pyfsr/fsr_function.py:66-81 | a successful run leaves the stack height plus the balance |
| FsrFunctionFacts.BalancedLeavesOneValue | pyfsr/fsr_function.py:83-87 | for a balanced expression the "too many values" error cannot happen |
| FsrFunctionFacts.RunErrorKinds | pyfsr/fsr_function.py:66-81 | the stack loop fails only by a bad index or by underflow |
| FsrFunctionFacts.RunSucceedsIff | pyfsr/fsr_function.py:66-81 | the loop succeeds iff every index can be read and every operator finds two values |
| FsrFunctionFacts.CheckedFailsOnlyByUnderflow | pyfsr/fsr_function.py:63-75 | a balanced expression whose indices passed the check can only fail by underflow |
| FsrFunctionFacts.SolveChecksOnce | pyfsr/fsr_function.py:63-64 | the bounds check raises iff not yet checked and out of bounds; once checked, solve is pure evaluation |
| FsrFunctionFacts.RunKeepsBits | pyfsr/fsr_function.py:76-81 | on bits, every value on the stack is a bit |
| FsrFunctionFacts.EvaluateIsBit | pyfsr/fsr_function.py:55-88 | on a bit state, solve returns a bit |
| FsrFunctionFacts.OperatorResultIsBit | pyfsr/fsr_function.py:78-81 | an expression ending in an operator returns a bit on any state |
| FsrFunctionFacts.UnderflowDespiteBalance | pyfsr/fsr_function.py:73-75 | `[0,"+",1]` is accepted yet always underflows |
| FsrFunctionFacts.TruthTables | test.py:6-18 | the XOR and AND truth tables |
| FsrFunctionFacts.XorGroupingIrrelevant | test.py:20-24 | `[0,1,2,+,+]` and `[0,1,+,2,+]` agree on every state |
| FsrFunctionFacts.MixedExpressions | test.py:25-30 | `[0,1,2,*,+]` is s0 XOR (s1 AND s2); `[0,1,2,+,*]` is s0 AND (s1 XOR s2) |
| FsrFunctionFacts.ThreeOperands | pyfsr/fsr_function.py:66-88 | any expression `0, 1, 2, op1, op2` on three or more cells returns s0 op2 (s2 op1 s1), in the order the stack pops them |
| FsrFunctionFacts.ExpressionOrderExamples | test.py:20-30 | the six values the test expects |
| FsrFunctionFacts.FirstSolveOnShortState | test.py:33-35 | `[0,1,+]` on a one-cell state raises and stays unchecked |
| FsrFunctionFacts.DefaultOutSolves | pyfsr/lfsr.py:65-67 | the default output function returns the last cell and becomes checked |
| FsrFunctionFacts.NegativeIndexNeverChecked | pyfsr/fsr_function.py:37-42 | an unchecked function with a negative index fails solve on every state and stays unchecked |
| FsrFunctionFacts.CheckedOnLongerState | pyfsr/fsr_function.py:63-70 | `[2]` checked on three cells then solved on one cell raises IndexError from the stack loop |
| FsrFunctionFacts.NoIndexNoOperands | pyfsr/fsr_function.py:23-24 | an expression without indices has no operands |
| FsrFunctionFacts.SolveFailsOnEmpty | pyfsr/fsr_function.py:63-70 | no valid expression can be solved on an empty state |
| Lfsr.CheckPoly | pyfsr/lfsr.py:83-90 | passes iff at least two taps, all positive, with maximum equal to the state length; too short is its own error |
| Lfsr.FibonacciFold | pyfsr/lfsr.py:101-104 | the feedback fold succeeds iff every remaining tap minus one is a valid Python index of the state |
| Lfsr.GaloisTaps | pyfsr/lfsr.py:95-97 | the tap loop keeps the state length |
| Lfsr.InternalShift | pyfsr/lfsr.py:92-97 | the internal shift keeps the state length |
| Lfsr.ExternalShift | pyfsr/lfsr.py:99-110 | the external shift keeps the state length |
| Lfsr.LfsrStep | pyfsr/lfsr.py:112-124 | a shift keeps poly, topology and length, counts a cycle only on success and records the output bit |
| Lfsr.LfsrRun | pyfsr/lfsr.py:133-140 | n shifts keep the shape and, on success, yield n bits and n cycles |
| Lfsr.LfsrSequence | pyfsr/lfsr.py:126-140 | a negative length raises with the register untouched; a success yields n outputs, n more cycles and the same shape |
| Lfsr.ResolveSeed | pyfsr/lfsr.py:26-36 | a list seed is used as given; a string seed gives max(poly) bits; any other seed raises |
| Lfsr.FeedbackKind | pyfsr/lfsr.py:38-43 | accepted iff "internal" or "external", and internal exactly for "internal" |
| Lfsr.LfsrReset | pyfsr/lfsr.py:142-149 | state restored to the recorded state, counters and sentinels cleared, topology kept, poly re-sorted as a permutation, the check's outcome returned, and the default output installed only when it passes |
| Lfsr.LfsrChangePoly | pyfsr/lfsr.py:151-161 | only the poly may change: either it is kept or the new poly is installed sorted; a pass means the new poly is installed and passes the check |
| Lfsr.RunKeepsShape | pyfsr/lfsr.py:138-139 | each shift of a run keeps the register's shape |
| Lfsr.LfsrWarmUp | pyfsr/lfsr.py:76-81 | warm-up keeps poly, topology, length and output expression, and validity |
| Lfsr.LfsrNew | pyfsr/lfsr.py:25-81 | the caller's output function is returned, with only its `checked` flag possibly changed |
| Lfsr.FreshValid | pyfsr/lfsr.py:51-62 | a register that passed the constructor's checks is valid |
| Lfsr.LFSR.constructor | pyfsr/lfsr.py:51-59 | state and initial state are the seed, counters zero, sentinels -1 |
| Lfsr.LFSR.Create | pyfsr/lfsr.py:25-81 | the new register, and the caller's output function, are those of the constructor's definition |
| Lfsr.LFSR.WarmUp | pyfsr/lfsr.py:76-81 | the warm-up moves the register as defined |
| Lfsr.LFSR.InternalFeedbackShift | pyfsr/lfsr.py:92-97 | the Galois loop on the state fields |
| Lfsr.LFSR.ExternalFeedbackShift | pyfsr/lfsr.py:99-110 | the Fibonacci fold on the state fields |
| Lfsr.LFSR.Shift | pyfsr/lfsr.py:112-124 | one shift moves the register as `LfsrStep` |
| Lfsr.LFSR.Sequence | pyfsr/lfsr.py:126-140 | raises on negative n, otherwise n shifts into a buffer |
| Lfsr.LFSR.Fill | pyfsr/lfsr.py:137-140 | the loop fills the buffer with the outputs of `LfsrRun` |
| Lfsr.LFSR.ShiftAfter | pyfsr/lfsr.py:138-139 | one loop iteration extends the run by one shift or ends it |
| Lfsr.LFSR.Reset | pyfsr/lfsr.py:142-149 | reset as defined, with a fresh default output function when the check passes |
| Lfsr.LFSR.Reinitialise | pyfsr/lfsr.py:145-149 | the field updates of reset before the output function is chosen |
| Lfsr.LFSR.ChangePoly | pyfsr/lfsr.py:151-161 | change_poly as defined |
| LfsrFacts.CheckPolyFailures | pyfsr/lfsr.py:86-90 | the exact condition for each of the other two check failures |
| LfsrFacts.TapsInRange | pyfsr/lfsr.py:83-90 | after a passing check every tap lies in [1, N] |
| LfsrFacts.FoldIsParity | pyfsr/lfsr.py:101-104 | the feedback fold flips its accumulator once per set tapped cell |
| LfsrFacts.ExternalShiftSpec | pyfsr/lfsr.py:99-110 | external feedback: new state is the parity of the tapped cells followed by the state without its last cell |
| LfsrFacts.GaloisReference | pyfsr/lfsr.py:92-97 | reference Galois state has the register's length |
| LfsrFacts.GaloisPrefixCells | pyfsr/lfsr.py:95-97 | the reference agrees with the per-cell definition |
| LfsrFacts.GaloisTapsSpec | pyfsr/lfsr.py:95-97 | with in-range taps the loop XORs the feedback into each cell once per occurrence of it among the taps, repeated taps included, and never raises |
| LfsrFacts.RotateRightCells | pyfsr/lfsr.py:94 | after the roll the last cell is first and every other cell moved up by one |
| LfsrFacts.InternalShiftSpec | pyfsr/lfsr.py:92-97 | internal feedback: the last cell is fed back into cell 0 and XORed into each tapped cell once per occurrence of the tap |
| LfsrFacts.TapsBelowDegree | pyfsr/lfsr.py:95-97 | when the degree is not repeated, the taps after it lie in [1, N-1] and index the rolled state |
| LfsrFacts.RepeatedTapExample | pyfsr/lfsr.py:83-97 | poly [3,2,2] passes the check, and the internal shift of [0,0,1] flips cell 2 twice, giving [1,0,0] as the reference does |
| LfsrFacts.InternalFailsIffRepeatedDegree | pyfsr/lfsr.py:95-97 | the internal shift raises IndexError exactly when the degree is repeated in the poly |
| LfsrFacts.GaloisTapsOk | pyfsr/lfsr.py:95-97 | with taps below the degree the loop never raises, repeated taps included |
| LfsrFacts.StepOutput | pyfsr/lfsr.py:117 | the output is solved first; if that raises, nothing else changes |
| LfsrFacts.ExternalStep | pyfsr/lfsr.py:112-124 | a checked external register shifts in the tap parity and returns the output function's value |
| LfsrFacts.ExternalShiftOf | pyfsr/lfsr.py:99-110 | the external shift of a checked register, against the reference |
| LfsrFacts.InternalStep | pyfsr/lfsr.py:112-124 | a checked internal register whose degree is not repeated moves to the Galois reference state, repeated lower taps included |
| LfsrFacts.InternalShiftOf | pyfsr/lfsr.py:92-97 | the internal shift of a checked register whose degree is not repeated, against the reference |
| LfsrFacts.InternalStepFails | pyfsr/lfsr.py:118-119 | a checked internal register raises IndexError iff its degree is repeated |
| LfsrFacts.DefaultStepOutputsLastCell | pyfsr/lfsr.py:65-67 | with the default output function a shift returns the old last cell |
| LfsrFacts.SequenceIsShifts | pyfsr/lfsr.py:126-140 | `sequence(n)[i]` is what the (i+1)-th shift returns |
| LfsrFacts.WarmUpRecordsState | pyfsr/lfsr.py:76-81 | after warm-up the state is where k shifts lead, recorded as initial state, counters cleared |
| LfsrFacts.NewRejectsUnknownSeedString | pyfsr/lfsr.py:33-34 | an unknown seed string raises |
| LfsrFacts.NewRejectsUnknownSeedType | pyfsr/lfsr.py:35-36 | a seed neither list nor string raises |
| LfsrFacts.NewRejectsFeedback | pyfsr/lfsr.py:38-43 | an unknown feedback type raises |
| LfsrFacts.NewChecksPoly | pyfsr/lfsr.py:45-62 | the check on the sorted poly decides construction; without warm-up the fresh register is returned |
| LfsrFacts.NewSucceeded | pyfsr/lfsr.py:25-81 | a new register is the warm-up of the fresh one, after seed, feedback and poly checks passed |
| LfsrFacts.NewIsChecked | pyfsr/lfsr.py:45-72 | a new register has the sorted poly, length max(poly), the asked topology and a passing check |
| LfsrFacts.NewIsCleared | pyfsr/lfsr.py:51-81 | a new register has zero cycles, -1 sentinels and its state recorded as initial |
| LfsrFacts.NewOnesSeed | pyfsr/lfsr.py:29-30 | a "ones" seed gives max(poly) ones |
| LfsrFacts.CheckThreeTwo | pyfsr/lfsr.py:83-90 | poly [3,2] passes only for three cells |
| LfsrFacts.SortThreeTwo | pyfsr/lfsr.py:47 | [3,2] is already sorted |
| LfsrFacts.NewRejectsShortSeed | test.py:58-59 | `LFSR([3,2], [0])` raises |
| LfsrFacts.NewRejectsLongSeed | test.py:60-61 | `LFSR([3,2], [0,0,0,0])` raises |
| LfsrFacts.ResetIsConstruction | pyfsr/lfsr.py:142-149 | reset is the constructor applied to poly, recorded state and topology |
| LfsrFacts.ResetForgetsShifts | pyfsr/lfsr.py:142-149 | reset ends the same way before and after any run |
| LfsrFacts.ResetRestores | pyfsr/lfsr.py:142-149 | on a checked register reset restores the recorded state, clears counters and installs the default output |
| LfsrFacts.ResetKeepsValid | pyfsr/lfsr.py:142-149 | reset keeps a register valid |
| LfsrFacts.ChangePolySpec | pyfsr/lfsr.py:151-161 | only the poly changes; another degree raises with nothing changed; otherwise the sorted poly is installed and checked |
| LfsrFacts.ChangePolyKeepsValid | pyfsr/lfsr.py:151-161 | change_poly keeps a register valid; a pass leaves it checked |
| LfsrFacts.TwoTapParity | pyfsr/lfsr.py:101-104 | with two taps the feedback is the XOR of the two tapped cells |
| LfsrFacts.ThreeTwoStep | pyfsr/lfsr.py:112-124 | one shift of the [3,2] register: output the last cell, feed back s2 XOR s1 |
| LfsrFacts.ThreeShiftsFrom011 | test.py:46-47 | three warm-up shifts take [0,1,1] to [0,1,0] |
| LfsrFacts.FourShiftsFrom010 | test.py:47-55 | the four shifts of the test: outputs 0,1,0,1 through [1,0,1], [1,1,0], [1,1,1], [0,1,1] |
| LfsrFacts.SimpleCycleNew | test.py:46-47 | `LFSR([3,2], [0,1,1], initcycles=3)` starts at [0,1,0] with cleared counters |
| LfsrFacts.PeriodFrom010 | test.py:45-55 | shifts five to seven continue the test's cycle through [0,0,1] and [1,0,0], and the seventh returns the [3,2] register to [0,1,0] with outputs 0,1,0,1,1,1,0 |
| LfsrFacts.PeriodIsSeven | test.py:45-55 | the period of the [3,2] register from [0,1,0] is exactly 7: the seventh shift returns to it and none of the first six does |
| Nlfsr.NlfsrStep | pyfsr/nlfsr.py:70-80 | a shift keeps the shape and the sharing of the two functions, counts a cycle only on success, and needs a non-empty state to succeed |
| Nlfsr.NlfsrRun | pyfsr/nlfsr.py:89-92 | n shifts keep the shape and, on success, yield n bits and n cycles |
| Nlfsr.NlfsrSequence | pyfsr/nlfsr.py:82-92 | a negative length raises with the register untouched; a success yields n outputs, n more cycles and the same shape |
| Nlfsr.NlfsrSeed | pyfsr/nlfsr.py:23-38 | a list seed is used as given; a string seed needs size >= 1 and gives size bits; any other seed raises |
| Nlfsr.NlfsrReset | pyfsr/nlfsr.py:94-98 | state restored to the recorded state, counters and sentinels cleared, both functions kept |
| Nlfsr.RunKeepsShape | pyfsr/nlfsr.py:90-91 | each shift of a run keeps the register's shape |
| Nlfsr.NlfsrWarmUp | pyfsr/nlfsr.py:63-68 | warm-up keeps the shape and validity |
| Nlfsr.NlfsrNew | pyfsr/nlfsr.py:22-68 | the caller's functions come back with only their `checked` flags possibly changed |
| Nlfsr.NLFSR.constructor | pyfsr/nlfsr.py:40-59 | state and initial state are the seed, counters zero, sentinels -1, the given functions |
| Nlfsr.NLFSR.Create | pyfsr/nlfsr.py:22-68 | the new register and the caller's functions are those of the constructor's definition |
| Nlfsr.NLFSR.WarmUp | pyfsr/nlfsr.py:63-68 | the warm-up moves the register as defined |
| Nlfsr.NLFSR.Shift | pyfsr/nlfsr.py:70-80 | one shift moves the register as `NlfsrStep` |
| Nlfsr.NLFSR.Sequence | pyfsr/nlfsr.py:82-92 | raises on negative n, otherwise n shifts into a buffer |
| Nlfsr.NLFSR.Fill | pyfsr/nlfsr.py:89-92 | the loop fills the buffer with the outputs of `NlfsrRun` |
| Nlfsr.NLFSR.ShiftAfter | pyfsr/nlfsr.py:90-91 | one loop iteration extends the run by one shift or ends it |
| Nlfsr.NLFSR.Reset | pyfsr/nlfsr.py:94-98 | reset restores the recorded state and clears counters and sentinels |
| NlfsrFacts.ShiftSpec | pyfsr/nlfsr.py:70-80 | the output function's value is returned and the input function's value enters cell 0 as the rest moves up |
| NlfsrFacts.SharedShift | pyfsr/nlfsr.py:75-78 | with one function for input and output, the feedback bit is the output bit |
| NlfsrFacts.ShiftFailsAtOutput | pyfsr/nlfsr.py:75 | if the output function raises, only its `checked` flag may change; a failed bounds check changes nothing |
| NlfsrFacts.ShiftFailsAtInput | pyfsr/nlfsr.py:75-76 | if the input function raises, the output bit is already stored and the state is unchanged |
| NlfsrFacts.EmptyNeverShifts | pyfsr/nlfsr.py:75 | an empty register never shifts: its output function raises |
| NlfsrFacts.ShiftKeepsBits | pyfsr/nlfsr.py:75-78 | on a bit state a shift returns a bit and keeps the state bits |
| NlfsrFacts.RunKeepsRegisterBits | pyfsr/nlfsr.py:82-92 | a bit register stays a bit register and outputs bits |
| NlfsrFacts.SequenceIsShifts | pyfsr/nlfsr.py:82-92 | `sequence(n)[i]` is what the (i+1)-th shift returns |
| NlfsrFacts.WarmUpRecordsState | pyfsr/nlfsr.py:63-68 | after warm-up the state is where k shifts lead, recorded as initial state, counters cleared |
| NlfsrFacts.NewRejectsStringWithoutSize | pyfsr/nlfsr.py:28-30 | a string seed with size < 1 raises |
| NlfsrFacts.NewRejectsUnknownSeedString | pyfsr/nlfsr.py:35-36 | an unknown seed string raises |
| NlfsrFacts.NewRejectsUnknownSeedType | pyfsr/nlfsr.py:37-38 | a seed neither list nor string raises |
| NlfsrFacts.NewListIgnoresSize | pyfsr/nlfsr.py:23-27 | a list seed makes `size` irrelevant |
| NlfsrFacts.NewWithoutWarmUp | pyfsr/nlfsr.py:40-59 | without warm-up the fresh register is returned, with the default output `[N-1]` when none is given |
| NlfsrFacts.SeedCells | pyfsr/nlfsr.py:31-34 | "ones" gives size ones; "random" gives size drawn bits |
| NlfsrFacts.NewIsValid | pyfsr/nlfsr.py:22-68 | a new register is valid, with cleared counters and its state recorded as initial |
| NlfsrFacts.ResetIsConstruction | pyfsr/nlfsr.py:94-98 | reset is the constructor on the recorded state with the same two functions |
| NlfsrFacts.ResetForgetsShifts | pyfsr/nlfsr.py:94-98 | reset after any run equals reset before it, up to the functions' `checked` flags |
| NlfsrFacts.ResetKeepsValid | pyfsr/nlfsr.py:94-98 | reset keeps a register valid and restores the recorded state |
| NlfsrFacts.MixedSolves | test.py:65 | `[0,1,2,*,+]` on three cells is s0 XOR (s1 AND s2) |
| NlfsrFacts.MixedStep | test.py:64-75 | one shift of the test register |
| NlfsrFacts.SimpleCycleNew | test.py:65-67 | `NLFSR("ones", infunc, size=3)` starts at [1,1,1] |
| NlfsrFacts.FirstTwoShifts | test.py:68-71 | the first two shifts: outputs 1,1 through [0,1,1], [1,0,1] |
| NlfsrFacts.LastTwoSteps | test.py:72-75 | the last two shifts: outputs 1,0 through [1,1,0], [1,1,1] |
| NlfsrFacts.SimpleCycleShifts | test.py:64-75 | four shifts return [1,1,1] to itself with outputs 1,1,1,0 |
| NlfsrFacts.ShortRegisterFailsLate | test.py:81-83 | a two-cell register is built, but its first shift raises at the input function |
| NlfsrFacts.OutOfRangeOutputFailsLate | test.py:84-86 | output function `[5]` on one cell: the first shift raises and changes nothing |

## Left out

- Printing and progress bars: `__str__`, `print_info`, the warning printed for a
  redundant `size`, and the `tqdm` loop with `show_progress` (`pyfsr/lfsr.py:134-136`).
  The two loops do the same shifts, so one loop is modelled.
- Randomness: `np.random.randint` is a caller-supplied coin function `nat -> bool`.
- `isinstance` checks on the output and input functions (`pyfsr/lfsr.py:69-71`,
  `pyfsr/nlfsr.py:42-43, 51-53`): the types make these errors impossible. The same
  holds for a non-int `size` (`pyfsr/nlfsr.py:29`). A bool token is an int in Python
  (`pyfsr/fsr_function.py:23`); the model writes it as the index 0 or 1 it equals.
- numpy's float buffers (`np.ones`, `astype(int)`): cells are ints throughout.
- Aliasing of the caller's poly list by `poly.sort`: the model keeps the sorted copy.
- Aliasing of `initstate` and `state` after warm-up: every later shift assigns a
  new array to `state`, so this aliasing is never observed.
- Sharing one `FSRFunction` between registers: each method's frame names the
  function objects whose `checked` flag it may set, but no lemma relates two registers.
- Tools.LogicalXor: the guard is modelled as written. It checks only that a+b lies
  in [0, 2], so non-bit arguments pass it (Tools.GuardAdmitsNonBits). The register
  code does not call these helpers.
- LfsrFacts.PeriodIsSeven: the exact period is proved for the test-suite register
  only. There is no general theorem about maximal-length polys.
