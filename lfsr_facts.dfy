/** Properties of the LFSR model: the two feedback topologies against independent
    definitions, what a shift outputs, runs and warm-up, construction errors, reset and
    change_poly, and the worked example of the test suite. */
module LfsrFacts {
  import opened Common
  import opened FsrFunction
  import opened FsrFunctionFacts
  import opened Runs
  import opened Lfsr

  // ---------------------------------------------------------------------------
  // The poly check

  /** The three ways the poly check fails, each with its exact condition. */
  lemma CheckPolyFailures(poly: seq<int>, n: int)
    ensures CheckPoly(poly, n) == Fail(NonPositiveTap) <==>
      |poly| >= 2 && exists k :: 0 <= k < |poly| && poly[k] < 1
    ensures CheckPoly(poly, n) == Fail(DegreeMismatch) <==>
      |poly| >= 2 && (forall k :: 0 <= k < |poly| ==> poly[k] >= 1) && Max(poly) != n
  {
    if |poly| >= 2 && exists k :: 0 <= k < |poly| && poly[k] < 1 {
      var k :| 0 <= k < |poly| && poly[k] < 1;
      assert Min(poly) <= poly[k];
    }
  }

  /** A register whose poly passes the check: what construction and a successful
      change_poly leave behind. */
  predicate PolyOk(v: LfsrView)
  {
    ValidView(v) && CheckPoly(v.poly, |v.state|) == Pass
  }

  /** In such a register every tap lies in [1, N]. */
  lemma TapsInRange(v: LfsrView)
    requires PolyOk(v)
    ensures |v.poly| >= 2 && forall k :: 0 <= k < |v.poly| ==> 1 <= v.poly[k] <= |v.state|
  {
    assert forall k :: 0 <= k < |v.poly| ==> v.poly[k] <= v.poly[0];
  }

  // ---------------------------------------------------------------------------
  // External (Fibonacci) feedback

  /** How many taps t pick a set cell s[t - 1]: the reference for the feedback bit. */
  function TapCount(s: seq<int>, taps: seq<int>): nat
  {
    if taps == [] then 0
    else (if 1 <= taps[0] <= |s| && Truthy(s[taps[0] - 1]) then 1 else 0) + TapCount(s, taps[1..])
  }

  /** The parity of the tapped cells, as a bit. */
  function TapParity(s: seq<int>, taps: seq<int>): int
  {
    BitOf(TapCount(s, taps) % 2 == 1)
  }

  /** The fold of the external shift computes a parity: it flips the truth of its
      accumulator once per set tapped cell. */
  lemma {:induction false} FoldIsParity(s: seq<int>, poly: seq<int>, i: nat, acc: int)
    requires i <= |poly| && forall k :: i <= k < |poly| ==> 1 <= poly[k] <= |s|
    ensures FibonacciFold(s, poly, i, acc).1
    ensures Truthy(FibonacciFold(s, poly, i, acc).0) == (Truthy(acc) != (TapCount(s, poly[i..]) % 2 == 1))
    ensures i < |poly| ==> IsBit(FibonacciFold(s, poly, i, acc).0)
    decreases |poly| - i
  {
    if i < |poly| {
      assert poly[i..][1..] == poly[i + 1..];
      FoldIsParity(s, poly, i + 1, TruthXor(acc, s[poly[i] - 1]));
    } else {
      assert poly[i..] == [];
    }
  }

  /** `__external_feedback_shift` with taps in [1, N] (at least two of them): the feedback
      bit is the parity of the tapped cells and the new state is that bit followed by
      the old state without its last cell. */
  lemma ExternalShiftSpec(s: seq<int>, poly: seq<int>, fb0: int)
    requires |s| >= 1 && |poly| >= 2 && forall k :: 0 <= k < |poly| ==> 1 <= poly[k] <= |s|
    ensures ExternalShift(s, poly, fb0) ==
      ([TapParity(s, poly)] + s[..|s| - 1], TapParity(s, poly), true)
  {
    var acc := s[poly[0] - 1];
    FoldIsParity(s, poly, 1, acc);
    assert poly[1..] == poly[0..][1..];
    assert poly[0..] == poly;
    var fb := FibonacciFold(s, poly, 1, acc).0;
    assert fb == TapParity(s, poly);
    assert RotateRight(s)[0 := fb] == [fb] + s[..|s| - 1];
  }

  // ---------------------------------------------------------------------------
  // Internal (Galois) feedback

  /** How often k occurs in p. */
  function Occurrences(p: seq<int>, k: int): nat
  {
    if p == [] then 0 else (if p[0] == k then 1 else 0) + Occurrences(p[1..], k)
  }

  /** A cell x after fb has been XORed into it `hits` times: unchanged when never hit,
      otherwise a bit (each numpy XOR yields one) whose truth flips with every hit by
      a truthy fb. */
  function Flipped(x: int, hits: nat, fb: int): int
  {
    if hits == 0 then x else BitOf(Truthy(x) != (hits % 2 == 1 && Truthy(fb)))
  }

  /** The reference for the internal shift, cell by cell: cell k of the new state is the
      cell to its left (cell 0 takes the old last cell), with the old last cell XORed
      into it once for every occurrence of k among the taps after the first. */
  function GaloisCell(s: seq<int>, poly: seq<int>, k: int): int
    requires 0 <= k < |s| && |poly| >= 1
  {
    var moved := if k == 0 then s[|s| - 1] else s[k - 1];
    Flipped(moved, Occurrences(poly[1..], k), s[|s| - 1])
  }

  /** The first n cells of the reference. */
  function GaloisPrefix(s: seq<int>, poly: seq<int>, n: nat): (r: seq<int>)
    requires n <= |s| && |poly| >= 1
    ensures |r| == n
  {
    if n == 0 then [] else GaloisPrefix(s, poly, n - 1) + [GaloisCell(s, poly, n - 1)]
  }

  /** The whole new state of the reference. */
  function GaloisReference(s: seq<int>, poly: seq<int>): (r: seq<int>)
    requires |poly| >= 1
    ensures |r| == |s|
  {
    GaloisPrefix(s, poly, |s|)
  }

  lemma {:induction false} GaloisPrefixCells(s: seq<int>, poly: seq<int>, n: nat)
    requires n <= |s| && |poly| >= 1
    ensures forall k :: 0 <= k < n ==> GaloisPrefix(s, poly, n)[k] == GaloisCell(s, poly, k)
  {
    if n > 0 {
      GaloisPrefixCells(s, poly, n - 1);
    }
  }

  /** The tap loop with taps in [0, |t|) never fails and XORs fb into each cell once per
      occurrence of that cell among the remaining taps, repeated taps included. */
  lemma {:induction false} GaloisTapsSpec(t: seq<int>, poly: seq<int>, i: nat, fb: int)
    requires i <= |poly| && forall k :: i <= k < |poly| ==> 0 <= poly[k] < |t|
    ensures GaloisTaps(t, poly, i, fb).1
    ensures forall k :: 0 <= k < |t| ==>
      GaloisTaps(t, poly, i, fb).0[k] == Flipped(t[k], Occurrences(poly[i..], k), fb)
    decreases |poly| - i
  {
    if i < |poly| {
      var j := poly[i];
      var t' := t[j := TruthXor(fb, t[j])];
      GaloisTapsSpec(t', poly, i + 1, fb);
      assert poly[i..][1..] == poly[i + 1..];
      forall k | 0 <= k < |t|
        ensures GaloisTaps(t, poly, i, fb).0[k] == Flipped(t[k], Occurrences(poly[i..], k), fb)
      {
        assert Occurrences(poly[i..], k) == (if j == k then 1 else 0) + Occurrences(poly[i + 1..], k);
      }
    } else {
      assert poly[i..] == [];
    }
  }

  /** Right rotation, cell by cell. */
  lemma RotateRightCells(s: seq<int>)
    requires |s| >= 1
    ensures RotateRight(s)[0] == s[|s| - 1]
    ensures forall k :: 1 <= k < |s| ==> RotateRight(s)[k] == s[k - 1]
  {
  }

  /** `__internal_feedback_shift` with every tap after the first in [0, N): it never
      fails, the feedback bit is the old last cell, and the new state is the reference
      above. */
  lemma InternalShiftSpec(s: seq<int>, poly: seq<int>, fb0: int)
    requires |s| >= 1 && |poly| >= 1 && forall k :: 1 <= k < |poly| ==> 0 <= poly[k] < |s|
    ensures InternalShift(s, poly, fb0) == (GaloisReference(s, poly), s[|s| - 1], true)
  {
    var fb := s[|s| - 1];
    var t := RotateRight(s);
    GaloisTapsSpec(t, poly, 1, fb);
    RotateRightCells(s);
    var r := GaloisTaps(t, poly, 1, fb).0;
    var g := GaloisReference(s, poly);
    GaloisPrefixCells(s, poly, |s|);
    assert forall k :: 0 <= k < |s| ==> r[k] == g[k];
    assert r == g;
  }

  /** A repeated tap below the degree passes the check and is XORed twice: with poly
      [3, 2, 2] cell 2 receives the feedback bit twice and keeps its rolled value. */
  lemma RepeatedTapExample()
    ensures CheckPoly([3, 2, 2], 3) == Pass
    ensures InternalShift([0, 0, 1], [3, 2, 2], -1) == ([1, 0, 0], 1, true)
    ensures GaloisReference([0, 0, 1], [3, 2, 2]) == [1, 0, 0]
  {
    InternalShiftSpec([0, 0, 1], [3, 2, 2], -1);
    assert [3, 2, 2][1..] == [2, 2];
    assert [2, 2][1..] == [2];
    assert [2][1..] == [];
    assert Occurrences([2, 2], 2) == 2;
    assert Occurrences([2, 2], 0) == 0 && Occurrences([2, 2], 1) == 0;
    GaloisPrefixCells([0, 0, 1], [3, 2, 2], 3);
    var g := GaloisReference([0, 0, 1], [3, 2, 2]);
    assert g[0] == GaloisCell([0, 0, 1], [3, 2, 2], 0) == 1;
    assert g[1] == GaloisCell([0, 0, 1], [3, 2, 2], 1) == 0;
    assert g[2] == GaloisCell([0, 0, 1], [3, 2, 2], 2) == Flipped(0, 2, 1) == 0;
    assert g == [1, 0, 0];
  }

  /** In a checked register whose degree is not repeated, every tap after the first lies
      in [1, N). */
  lemma TapsBelowDegree(v: LfsrView)
    requires PolyOk(v) && v.poly[1] < |v.state|
    ensures forall k :: 1 <= k < |v.poly| ==> 1 <= v.poly[k] < |v.state|
  {
    TapsInRange(v);
    assert forall k :: 1 <= k < |v.poly| ==> v.poly[k] <= v.poly[1];
  }

  /** With a checked, sorted poly the internal shift raises IndexError exactly when the
      degree is repeated, i.e. the second tap equals N. */
  lemma InternalFailsIffRepeatedDegree(s: seq<int>, poly: seq<int>, fb0: int)
    requires |s| >= 1 && |poly| >= 2 && SortedDesc(poly) && poly[0] == |s|
    requires forall k :: 0 <= k < |poly| ==> poly[k] >= 1
    ensures !InternalShift(s, poly, fb0).2 <==> poly[1] == |s|
  {
    var t := RotateRight(s);
    var fb := s[|s| - 1];
    if poly[1] == |s| {
      assert PyIndex(|t|, poly[1]).None?;
    } else {
      GaloisTapsOk(t, poly, 1, fb);
    }
  }

  /** The tap loop succeeds when every remaining tap lies in [1, |t|). */
  lemma {:induction false} GaloisTapsOk(t: seq<int>, poly: seq<int>, i: nat, fb: int)
    requires i >= 1 && i <= |poly| && SortedDesc(poly) && poly[0] == |t|
    requires forall k :: 0 <= k < |poly| ==> poly[k] >= 1
    requires |poly| >= 2 ==> poly[1] < |t|
    ensures GaloisTaps(t, poly, i, fb).1
    decreases |poly| - i
  {
    if i < |poly| {
      assert poly[i] <= poly[1];
      var j := poly[i];
      GaloisTapsOk(t[j := TruthXor(fb, t[j])], poly, i + 1, fb);
    }
  }

  // ---------------------------------------------------------------------------
  // shift

  /** Whatever the topology, a successful shift returns the output function evaluated on
      the state before the shift, and leaves the output function as solve leaves it. */
  lemma StepOutput(v: LfsrView)
    ensures LfsrStep(v).1.out == SolveOn(v.out, v.state).1
    ensures LfsrStep(v).0.Ok? ==> LfsrStep(v).0 == SolveOn(v.out, v.state).0
    ensures SolveOn(v.out, v.state).0.Err? ==> LfsrStep(v) == (SolveOn(v.out, v.state).0, v.(out := SolveOn(v.out, v.state).1))
  {
  }

  /** A shift of a checked external register, against the reference: the output is
      taken first, then the parity of the taps enters at cell 0. */
  lemma ExternalStep(v: LfsrView)
    requires PolyOk(v) && !v.internal && SolveOn(v.out, v.state).0.Ok?
    ensures var o := SolveOn(v.out, v.state); var fb := TapParity(v.state, v.poly);
      LfsrStep(v) == (o.0, v.(out := o.1, outbit := o.0.value, state := [fb] + v.state[..|v.state| - 1],
                              feedbackBit := fb, cycles := v.cycles + 1))
  {
    ExternalShiftOf(v);
  }

  lemma ExternalShiftOf(v: LfsrView)
    requires PolyOk(v)
    ensures ExternalShift(v.state, v.poly, v.feedbackBit) ==
      ([TapParity(v.state, v.poly)] + v.state[..|v.state| - 1], TapParity(v.state, v.poly), true)
  {
    TapsInRange(v);
    ExternalShiftSpec(v.state, v.poly, v.feedbackBit);
  }

  /** A shift of a checked internal register whose degree is not repeated, against the
      reference: the output is taken first, then the last cell is fed back into the tap
      cells, repeated taps included. (A repeated degree raises: InternalStepFails.) */
  lemma InternalStep(v: LfsrView)
    requires PolyOk(v) && v.internal && v.poly[1] < |v.state| && SolveOn(v.out, v.state).0.Ok?
    ensures var o := SolveOn(v.out, v.state); var fb := v.state[|v.state| - 1];
      LfsrStep(v) == (o.0, v.(out := o.1, outbit := o.0.value, state := GaloisReference(v.state, v.poly),
                              feedbackBit := fb, cycles := v.cycles + 1))
  {
    InternalShiftOf(v);
  }

  lemma InternalShiftOf(v: LfsrView)
    requires PolyOk(v) && v.poly[1] < |v.state|
    ensures InternalShift(v.state, v.poly, v.feedbackBit) ==
      (GaloisReference(v.state, v.poly), v.state[|v.state| - 1], true)
  {
    TapsBelowDegree(v);
    InternalShiftSpec(v.state, v.poly, v.feedbackBit);
  }

  /** A checked internal register fails to shift, with IndexError, exactly when its
      degree is repeated in the poly. */
  lemma InternalStepFails(v: LfsrView)
    requires PolyOk(v) && v.internal && SolveOn(v.out, v.state).0.Ok?
    ensures LfsrStep(v).0 == Err(IndexError) <==> v.poly[1] == |v.state|
  {
    TapsInRange(v);
    InternalFailsIffRepeatedDegree(v.state, v.poly, v.feedbackBit);
  }

  /** With the default output function, a shift outputs the last cell of the state. */
  lemma DefaultStepOutputsLastCell(v: LfsrView)
    requires PolyOk(v) && v.out.expression == [Index(|v.state| - 1)]
    requires v.internal ==> v.poly[1] < |v.state|
    ensures LfsrStep(v).0 == Ok(v.state[|v.state| - 1])
  {
    DefaultOutSolves(v.state, v.out.checked);
    if v.internal {
      InternalStepFails(v);
    } else {
      ExternalStep(v);
    }
  }

  // ---------------------------------------------------------------------------
  // sequence and warm-up

  /** `sequence(n)` is n successive shifts: output i is what shift returns on the
      register reached after the first i shifts. */
  lemma SequenceIsShifts(v: LfsrView, n: nat, i: nat)
    requires i < n && LfsrSequence(v, n).0.Ok?
    ensures LfsrStep(LfsrRun(v, i).1).0 == Ok(LfsrSequence(v, n).0.value[i])
  {
    RepeatOutputs(LfsrStep, v, n, i);
  }

  /** A successful warm-up leaves the register where k shifts take it, with counters
      and sentinels cleared and that state recorded as the initial state. */
  lemma WarmUpRecordsState(v: LfsrView, k: int)
    requires k > 0 && LfsrWarmUp(v, k).0.Ok?
    ensures var w := LfsrWarmUp(v, k).1;
      w.state == w.initstate == LfsrRun(v, k).1.state && w.cycles == 0 && w.outbit == -1 &&
      w.feedbackBit == -1 && w.out == LfsrRun(v, k).1.out && LfsrWarmUp(v, k).0 == LfsrRun(v, k).0
  {
  }

  // ---------------------------------------------------------------------------
  // Construction

  lemma NewRejectsUnknownSeedString(poly: seq<int>, word: string, k: int, feedback: string,
                                    custom: Option<FnView>, coins: nat -> bool)
    requires word != "ones" && word != "random"
    ensures LfsrNew(poly, StringSeed(word), k, feedback, custom, coins) == (Err(UnknownSeedString), custom)
  {
  }

  lemma NewRejectsUnknownSeedType(poly: seq<int>, k: int, feedback: string,
                                  custom: Option<FnView>, coins: nat -> bool)
    ensures LfsrNew(poly, OtherSeed, k, feedback, custom, coins) == (Err(UnknownSeedType), custom)
  {
  }

  /** The seed is resolved before the feedback type is looked at. */
  lemma NewRejectsFeedback(poly: seq<int>, seed: Seed, k: int, feedback: string,
                           custom: Option<FnView>, coins: nat -> bool)
    requires ResolveSeed(seed, poly, coins).Ok? && feedback != "internal" && feedback != "external"
    ensures LfsrNew(poly, seed, k, feedback, custom, coins) == (Err(UnknownFeedback), custom)
  {
  }

  /** Past the seed and the feedback type, construction fails exactly as the poly check
      on the sorted poly does; without warm-up it succeeds with the fresh register. */
  lemma NewChecksPoly(poly: seq<int>, seed: Seed, k: int, feedback: string,
                      custom: Option<FnView>, coins: nat -> bool)
    requires ResolveSeed(seed, poly, coins).Ok? && FeedbackKind(feedback).Ok?
    ensures var init := ResolveSeed(seed, poly, coins).value;
      var check := CheckPoly(SortDesc(poly), |init|);
      (check.Fail? ==> LfsrNew(poly, seed, k, feedback, custom, coins) == (Err(check.error), custom)) &&
      (check.Pass? && k <= 0 ==>
        LfsrNew(poly, seed, k, feedback, custom, coins).0 ==
          Ok(LfsrView(SortDesc(poly), FeedbackKind(feedback).value, init, init, 0, -1, -1,
                      if custom.Some? then custom.value else DefaultOut(|init|))))
  {
  }

  /** The fresh register a successful construction warms up. */
  function Fresh(poly: seq<int>, init: seq<int>, internal: bool, custom: Option<FnView>): LfsrView
  {
    LfsrView(SortDesc(poly), internal, init, init, 0, -1, -1,
             if custom.Some? then custom.value else DefaultOut(|init|))
  }

  /** A successful construction resolved its seed and feedback type, passed the poly
      check and warmed up the fresh register. */
  lemma NewSucceeded(poly: seq<int>, seed: Seed, k: int, feedback: string,
                     custom: Option<FnView>, coins: nat -> bool)
    requires LfsrNew(poly, seed, k, feedback, custom, coins).0.Ok?
    ensures ResolveSeed(seed, poly, coins).Ok? && FeedbackKind(feedback).Ok?
    ensures CheckPoly(SortDesc(poly), |ResolveSeed(seed, poly, coins).value|) == Pass
    ensures var v0 := Fresh(poly, ResolveSeed(seed, poly, coins).value, FeedbackKind(feedback).value, custom);
      LfsrWarmUp(v0, k).0.Ok? && LfsrNew(poly, seed, k, feedback, custom, coins).0.value == LfsrWarmUp(v0, k).1
  {
  }

  /** What every successfully constructed register satisfies: the sorted poly of the
      argument, whose degree is the register length, and a passing poly check. */
  lemma NewIsChecked(poly: seq<int>, seed: Seed, k: int, feedback: string,
                     custom: Option<FnView>, coins: nat -> bool)
    requires custom.Some? ==> Balance(custom.value.expression) == 1
    requires LfsrNew(poly, seed, k, feedback, custom, coins).0.Ok?
    ensures var v := LfsrNew(poly, seed, k, feedback, custom, coins).0.value;
      PolyOk(v) && v.poly == SortDesc(poly) && |v.state| == Max(poly) && v.internal == (feedback == "internal")
  {
    NewSucceeded(poly, seed, k, feedback, custom, coins);
    var init := ResolveSeed(seed, poly, coins).value;
    var sorted := SortDesc(poly);
    SortDescHeadIsMax(poly);
    SortedHeadIsMax(sorted);
    DefaultOutBalanced(|init|);
    var v0 := Fresh(poly, init, FeedbackKind(feedback).value, custom);
    FreshValid(sorted, v0.internal, init, v0.out);
  }

  /** ... with cleared counters and sentinels, and its current state recorded as the
      initial one, with or without warm-up. */
  lemma NewIsCleared(poly: seq<int>, seed: Seed, k: int, feedback: string,
                     custom: Option<FnView>, coins: nat -> bool)
    requires LfsrNew(poly, seed, k, feedback, custom, coins).0.Ok?
    ensures var v := LfsrNew(poly, seed, k, feedback, custom, coins).0.value;
      v.cycles == 0 && v.outbit == -1 && v.feedbackBit == -1 && v.initstate == v.state
  {
    NewSucceeded(poly, seed, k, feedback, custom, coins);
    var v0 := Fresh(poly, ResolveSeed(seed, poly, coins).value, FeedbackKind(feedback).value, custom);
    assert LfsrWarmUp(v0, k).0.Ok?;
  }

  /** A "ones" seed gives a register of max(poly) ones. */
  lemma NewOnesSeed(poly: seq<int>, feedback: string, custom: Option<FnView>, coins: nat -> bool)
    requires LfsrNew(poly, StringSeed("ones"), 0, feedback, custom, coins).0.Ok?
    ensures LfsrNew(poly, StringSeed("ones"), 0, feedback, custom, coins).0.value.state == Ones(Max(poly))
  {
    NewSucceeded(poly, StringSeed("ones"), 0, feedback, custom, coins);
    var init := ResolveSeed(StringSeed("ones"), poly, coins).value;
    var v0 := Fresh(poly, init, FeedbackKind(feedback).value, custom);
    assert LfsrWarmUp(v0, 0) == (Ok([]), v0);
  }

  /** The poly [3, 2] passes the check only for a register of length 3. */
  lemma CheckThreeTwo(n: int)
    ensures CheckPoly([3, 2], n) == if n == 3 then Pass else Fail(DegreeMismatch)
  {
    assert [3, 2][1..] == [2];
  }

  /** [3, 2] is already sorted. */
  lemma SortThreeTwo()
    ensures SortDesc([3, 2]) == [3, 2]
  {
    SortDescIdempotent([3, 2]);
  }

  /** The rejections in the test suite: a degree-3 poly with a seed of length 1. */
  lemma NewRejectsShortSeed(k: int, feedback: string, custom: Option<FnView>, coins: nat -> bool)
    requires FeedbackKind(feedback).Ok?
    ensures LfsrNew([3, 2], ListSeed([0]), k, feedback, custom, coins) == (Err(DegreeMismatch), custom)
  {
    SortThreeTwo();
    CheckThreeTwo(1);
  }

  /** ... and with a seed of length 4. */
  lemma NewRejectsLongSeed(k: int, feedback: string, custom: Option<FnView>, coins: nat -> bool)
    requires FeedbackKind(feedback).Ok?
    ensures LfsrNew([3, 2], ListSeed([0, 0, 0, 0]), k, feedback, custom, coins) == (Err(DegreeMismatch), custom)
  {
    SortThreeTwo();
    CheckThreeTwo(4);
  }

  // ---------------------------------------------------------------------------
  // reset

  /** The `feedback` string that selects a topology. */
  function FeedbackName(internal: bool): string
  {
    if internal then "internal" else "external"
  }

  /** `reset()` is the constructor called again with the stored poly, the recorded
      initial state, the same topology and nothing else: no warm-up, default output. */
  lemma ResetIsConstruction(v: LfsrView, coins: nat -> bool)
    ensures LfsrNew(v.poly, ListSeed(v.initstate), -1, FeedbackName(v.internal), None, coins) ==
      (if LfsrReset(v).0.Pass? then Ok(LfsrReset(v).1) else Err(LfsrReset(v).0.error), None)
  {
  }

  /** Reset forgets every shift made since construction: it ends the same way from the
      register before and after any run. */
  lemma ResetForgetsShifts(v: LfsrView, n: nat)
    ensures LfsrReset(LfsrRun(v, n).1).0 == LfsrReset(v).0
    ensures LfsrReset(v).0.Pass? ==> LfsrReset(LfsrRun(v, n).1) == LfsrReset(v)
  {
  }

  /** On a checked register reset passes, keeps poly and topology, restores the recorded
      state, clears counters and sentinels and installs the default output function. */
  lemma ResetRestores(v: LfsrView)
    requires PolyOk(v) && |v.initstate| == |v.state|
    ensures LfsrReset(v) == (Pass, v.(state := v.initstate, outbit := -1, feedbackBit := -1, cycles := 0,
                                       out := DefaultOut(|v.state|)))
    ensures PolyOk(LfsrReset(v).1)
  {
    SortDescIdempotent(v.poly);
    DefaultOutBalanced(|v.state|);
  }

  /** Reset keeps any register valid. */
  lemma ResetKeepsValid(v: LfsrView)
    requires ValidView(v)
    ensures ValidView(LfsrReset(v).1)
  {
    SortDescHeadIsMax(v.poly);
    SortedHeadIsMax(v.poly);
    DefaultOutBalanced(|v.initstate|);
  }

  // ---------------------------------------------------------------------------
  // change_poly

  /** `change_poly(p)` touches only the poly; a new degree is rejected with nothing
      changed; otherwise the sorted poly is installed and the check decides the outcome,
      leaving the new poly in place even when it fails. */
  lemma ChangePolySpec(v: LfsrView, p: seq<int>)
    ensures var (r, w) := LfsrChangePoly(v, p);
      w == v.(poly := w.poly) &&
      (r == Fail(DegreeChanged) <==> |p| > 0 && |v.poly| > 0 && Max(p) != Max(v.poly)) &&
      (r == Fail(DegreeChanged) ==> w == v) &&
      (|p| > 0 && |v.poly| > 0 && Max(p) == Max(v.poly) ==>
        w.poly == SortDesc(p) && r == CheckPoly(SortDesc(p), |v.initstate|))
  {
    if |p| > 0 && |v.poly| > 0 && Max(p) == Max(v.poly) {
      assert CheckPoly(SortDesc(p), |v.initstate|) != Fail(DegreeChanged);
    }
  }

  /** change_poly keeps a register valid whatever it returns, and a passing change
      leaves a checked register. */
  lemma ChangePolyKeepsValid(v: LfsrView, p: seq<int>)
    requires ValidView(v)
    ensures ValidView(LfsrChangePoly(v, p).1)
    ensures LfsrChangePoly(v, p).0.Pass? ==> PolyOk(LfsrChangePoly(v, p).1)
  {
    if |p| > 0 && Max(p) == Max(v.poly) {
      SortDescHeadIsMax(p);
      SortedHeadIsMax(v.poly);
    }
  }

  // ---------------------------------------------------------------------------
  // The worked example of the test suite: poly [3, 2], external feedback, default output

  /** A register of three cells with poly [3, 2], external feedback and the default
      output function. */
  function ThreeTwo(init: seq<int>, s: seq<int>, cycles: int, outbit: int, fb: int, checked: bool): LfsrView
  {
    LfsrView([3, 2], false, s, init, cycles, outbit, fb, FnView([Index(2)], checked))
  }

  /** With two taps the feedback bit is the XOR of the two tapped cells. */
  lemma TwoTapParity(s: seq<int>, a: int, b: int)
    requires 1 <= a <= |s| && 1 <= b <= |s|
    ensures TapParity(s, [a, b]) == TruthXor(s[a - 1], s[b - 1])
  {
    assert [a, b][1..] == [b];
    assert [b][1..] == [];
    var ca := if Truthy(s[a - 1]) then 1 else 0;
    var cb := if Truthy(s[b - 1]) then 1 else 0;
    assert TapCount(s, [b]) == cb + TapCount(s, []);
    assert TapCount(s, [a, b]) == ca + cb;
  }

  /** One shift of such a register: out goes the last cell, in comes the XOR of the
      last two. */
  lemma ThreeTwoStep(init: seq<int>, s: seq<int>, cycles: int, outbit: int, fb: int, checked: bool)
    requires |s| == 3
    ensures var f := TruthXor(s[2], s[1]);
      LfsrStep(ThreeTwo(init, s, cycles, outbit, fb, checked)) ==
        (Ok(s[2]), ThreeTwo(init, [f, s[0], s[1]], cycles + 1, s[2], f, true))
  {
    var f := TruthXor(s[2], s[1]);
    DefaultOutSolves(s, checked);
    ExternalShiftSpec(s, [3, 2], fb);
    TwoTapParity(s, 3, 2);
    assert [f] + s[..2] == [f, s[0], s[1]];
  }

  /** From [0, 1, 1] three shifts output 1, 1, 0 and reach [0, 1, 0]. */
  lemma ThreeShiftsFrom011(init: seq<int>, c: int, ob: int, fb: int, checked: bool)
    ensures LfsrRun(ThreeTwo(init, [0, 1, 1], c, ob, fb, checked), 3) ==
      (Ok([1, 1, 0]), ThreeTwo(init, [0, 1, 0], c + 3, 0, 0, true))
  {
    var v := ThreeTwo(init, [0, 1, 1], c, ob, fb, checked);
    var v1 := ThreeTwo(init, [0, 0, 1], c + 1, 1, 0, true);
    var v2 := ThreeTwo(init, [1, 0, 0], c + 2, 1, 1, true);
    var v3 := ThreeTwo(init, [0, 1, 0], c + 3, 0, 0, true);
    ThreeTwoStep(init, [0, 1, 1], c, ob, fb, checked);
    ThreeTwoStep(init, [0, 0, 1], c + 1, 1, 0, true);
    ThreeTwoStep(init, [1, 0, 0], c + 2, 1, 1, true);
    assert Repeat(LfsrStep, v, 0) == (Ok([]), v);
    RepeatStep(LfsrStep, v, 0, [], v, Ok(1), v1);
    assert [] + [1] == [1];
    RepeatStep(LfsrStep, v, 1, [1], v1, Ok(1), v2);
    assert [1] + [1] == [1, 1];
    RepeatStep(LfsrStep, v, 2, [1, 1], v2, Ok(0), v3);
    assert [1, 1] + [0] == [1, 1, 0];
  }

  /** From [0, 1, 0] four shifts output 0, 1, 0, 1 through [1, 0, 1], [1, 1, 0] and
      [1, 1, 1] to [0, 1, 1]. */
  lemma FourShiftsFrom010(init: seq<int>, c: int, ob: int, fb: int, checked: bool)
    ensures var v := ThreeTwo(init, [0, 1, 0], c, ob, fb, checked);
      LfsrRun(v, 1).1.state == [1, 0, 1] && LfsrRun(v, 2).1.state == [1, 1, 0] &&
      LfsrRun(v, 3).1.state == [1, 1, 1] &&
      LfsrRun(v, 4) == (Ok([0, 1, 0, 1]), ThreeTwo(init, [0, 1, 1], c + 4, 1, 0, true))
  {
    var v := ThreeTwo(init, [0, 1, 0], c, ob, fb, checked);
    var v1 := ThreeTwo(init, [1, 0, 1], c + 1, 0, 1, true);
    var v2 := ThreeTwo(init, [1, 1, 0], c + 2, 1, 1, true);
    var v3 := ThreeTwo(init, [1, 1, 1], c + 3, 0, 1, true);
    var v4 := ThreeTwo(init, [0, 1, 1], c + 4, 1, 0, true);
    ThreeTwoStep(init, [0, 1, 0], c, ob, fb, checked);
    ThreeTwoStep(init, [1, 0, 1], c + 1, 0, 1, true);
    ThreeTwoStep(init, [1, 1, 0], c + 2, 1, 1, true);
    ThreeTwoStep(init, [1, 1, 1], c + 3, 0, 1, true);
    assert Repeat(LfsrStep, v, 0) == (Ok([]), v);
    RepeatStep(LfsrStep, v, 0, [], v, Ok(0), v1);
    assert [] + [0] == [0];
    RepeatStep(LfsrStep, v, 1, [0], v1, Ok(1), v2);
    assert [0] + [1] == [0, 1];
    RepeatStep(LfsrStep, v, 2, [0, 1], v2, Ok(0), v3);
    assert [0, 1] + [0] == [0, 1, 0];
    RepeatStep(LfsrStep, v, 3, [0, 1, 0], v3, Ok(1), v4);
    assert [0, 1, 0] + [1] == [0, 1, 0, 1];
  }

  /** `LFSR(poly=[3,2], initstate=[0,1,1], initcycles=3)`: the warm-up leaves [0, 1, 0],
      recorded as the initial state. */
  lemma SimpleCycleNew(coins: nat -> bool)
    ensures LfsrNew([3, 2], ListSeed([0, 1, 1]), 3, "external", None, coins) ==
      (Ok(ThreeTwo([0, 1, 0], [0, 1, 0], 0, -1, -1, true)), None)
  {
    SortThreeTwo();
    CheckThreeTwo(3);
    ThreeShiftsFrom011([0, 1, 1], 0, -1, -1, false);
  }

  /** After the four shifts of the test, three more bring the register back to
      [0, 1, 0]: the full period 2^3 - 1 of x^3 + x^2 + 1. */
  lemma PeriodFrom010(init: seq<int>, c: int, ob: int, fb: int, checked: bool)
    ensures var v := ThreeTwo(init, [0, 1, 0], c, ob, fb, checked);
      LfsrRun(v, 5).1.state == [0, 0, 1] && LfsrRun(v, 6).1.state == [1, 0, 0]
    ensures LfsrRun(ThreeTwo(init, [0, 1, 0], c, ob, fb, checked), 7) ==
      (Ok([0, 1, 0, 1, 1, 1, 0]), ThreeTwo(init, [0, 1, 0], c + 7, 0, 0, true))
  {
    var v := ThreeTwo(init, [0, 1, 0], c, ob, fb, checked);
    var v4 := ThreeTwo(init, [0, 1, 1], c + 4, 1, 0, true);
    var v5 := ThreeTwo(init, [0, 0, 1], c + 5, 1, 0, true);
    var v6 := ThreeTwo(init, [1, 0, 0], c + 6, 1, 1, true);
    var v7 := ThreeTwo(init, [0, 1, 0], c + 7, 0, 0, true);
    FourShiftsFrom010(init, c, ob, fb, checked);
    ThreeTwoStep(init, [0, 1, 1], c + 4, 1, 0, true);
    ThreeTwoStep(init, [0, 0, 1], c + 5, 1, 0, true);
    ThreeTwoStep(init, [1, 0, 0], c + 6, 1, 1, true);
    RepeatStep(LfsrStep, v, 4, [0, 1, 0, 1], v4, Ok(1), v5);
    assert [0, 1, 0, 1] + [1] == [0, 1, 0, 1, 1];
    RepeatStep(LfsrStep, v, 5, [0, 1, 0, 1, 1], v5, Ok(1), v6);
    assert [0, 1, 0, 1, 1] + [1] == [0, 1, 0, 1, 1, 1];
    RepeatStep(LfsrStep, v, 6, [0, 1, 0, 1, 1, 1], v6, Ok(0), v7);
    assert [0, 1, 0, 1, 1, 1] + [0] == [0, 1, 0, 1, 1, 1, 0];
  }

  /** The period of the [3, 2] register is exactly 7 = 2^3 - 1: seven shifts lead back to
      [0, 1, 0] and none of the first six does. */
  lemma PeriodIsSeven(init: seq<int>, c: int, ob: int, fb: int, checked: bool)
    ensures var v := ThreeTwo(init, [0, 1, 0], c, ob, fb, checked);
      LfsrRun(v, 7).1.state == [0, 1, 0] &&
      LfsrRun(v, 1).1.state != [0, 1, 0] && LfsrRun(v, 2).1.state != [0, 1, 0] &&
      LfsrRun(v, 3).1.state != [0, 1, 0] && LfsrRun(v, 4).1.state != [0, 1, 0] &&
      LfsrRun(v, 5).1.state != [0, 1, 0] && LfsrRun(v, 6).1.state != [0, 1, 0]
  {
    var v := ThreeTwo(init, [0, 1, 0], c, ob, fb, checked);
    FourShiftsFrom010(init, c, ob, fb, checked);
    PeriodFrom010(init, c, ob, fb, checked);
    assert LfsrRun(v, 1).1.state[0] == 1 && LfsrRun(v, 2).1.state[0] == 1;
    assert LfsrRun(v, 3).1.state[0] == 1 && LfsrRun(v, 4).1.state[2] == 1;
    assert LfsrRun(v, 5).1.state[1] == 0 && LfsrRun(v, 6).1.state[0] == 1;
  }
}
