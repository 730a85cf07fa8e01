/** Properties of the NLFSR model: what a shift does and in which order it stores its
    results, what an NLFSR with one function object for both roles does, the bit
    invariant, construction and its errors, reset, and the examples of the test suite. */
module NlfsrFacts {
  import opened Common
  import opened FsrFunction
  import opened FsrFunctionFacts
  import opened Runs
  import opened Nlfsr

  // ---------------------------------------------------------------------------
  // shift

  /** A successful shift with two distinct functions: the output function is solved on
      the old state, the input function too, and the new state is the feedback bit
      followed by the old state without its last cell. */
  lemma ShiftSpec(v: NlfsrView)
    requires !v.shared && |v.state| >= 1
    requires SolveOn(v.outfn, v.state).0.Ok? && SolveOn(v.infn, v.state).0.Ok?
    ensures var o := SolveOn(v.outfn, v.state); var f := SolveOn(v.infn, v.state);
      NlfsrStep(v) == (o.0, v.(outbit := o.0.value, feedbackBit := f.0.value,
                              state := [f.0.value] + v.state[..|v.state| - 1],
                              cycles := v.cycles + 1, outfn := o.1, infn := f.1))
  {
    var f := SolveOn(v.infn, v.state).0.value;
    assert RotateRight(v.state)[0 := f] == [f] + v.state[..|v.state| - 1];
  }

  /** One function object as both input and output: the feedback bit is the output
      bit, and the object ends up checked in both roles. */
  lemma SharedShift(v: NlfsrView)
    requires v.shared && Coherent(v) && |v.state| >= 1 && SolveOn(v.outfn, v.state).0.Ok?
    ensures var o := SolveOn(v.outfn, v.state);
      NlfsrStep(v) == (o.0, v.(outbit := o.0.value, feedbackBit := o.0.value,
                              state := [o.0.value] + v.state[..|v.state| - 1],
                              cycles := v.cycles + 1, outfn := o.1, infn := o.1))
  {
    var o := SolveOn(v.outfn, v.state);
    SolveChecksOnce(v.outfn, v.state);
    SolveChecksOnce(o.1, v.state);
    assert RotateRight(v.state)[0 := o.0.value] == [o.0.value] + v.state[..|v.state| - 1];
  }

  /** A failing output function ends the shift before anything is stored: only the
      function object's `checked` flag may have changed; a failed bounds check changes
      nothing at all. */
  lemma ShiftFailsAtOutput(v: NlfsrView)
    requires Coherent(v) && SolveOn(v.outfn, v.state).0.Err?
    ensures var o := SolveOn(v.outfn, v.state);
      NlfsrStep(v) == (o.0, v.(outfn := o.1, infn := if v.shared then o.1 else v.infn))
    ensures SolveOn(v.outfn, v.state).0 == Err(IndexOutOfBounds) ==> NlfsrStep(v) == (Err(IndexOutOfBounds), v)
  {
    SolveChecksOnce(v.outfn, v.state);
  }

  /** `outbit` is stored before the input function runs: when only the input function
      fails, the new output bit is kept and the state, feedback bit and cycle count are
      untouched. */
  lemma ShiftFailsAtInput(v: NlfsrView)
    requires !v.shared && SolveOn(v.outfn, v.state).0.Ok? && SolveOn(v.infn, v.state).0.Err?
    ensures NlfsrStep(v) == (SolveOn(v.infn, v.state).0,
      v.(outbit := SolveOn(v.outfn, v.state).0.value, outfn := SolveOn(v.outfn, v.state).1,
         infn := SolveOn(v.infn, v.state).1))
  {
  }

  /** An empty register never shifts, and what stops it is its output function: the
      IndexError of writing cell 0 is never reached. */
  lemma EmptyNeverShifts(v: NlfsrView)
    requires ValidView(v) && |v.state| == 0
    ensures NlfsrStep(v).0.Err? && NlfsrStep(v).0 == SolveOn(v.outfn, v.state).0
  {
    SolveFailsOnEmpty(v.outfn);
  }

  /** Shifting a register of bits gives a bit and keeps a register of bits. */
  lemma ShiftKeepsBits(v: NlfsrView)
    requires AllBits(v.state) && NlfsrStep(v).0.Ok?
    ensures IsBit(NlfsrStep(v).0.value) && AllBits(NlfsrStep(v).1.state)
  {
    var s := v.state;
    var o := SolveOn(v.outfn, s);
    SolveChecksOnce(v.outfn, s);
    EvaluateIsBit(v.outfn.expression, s);
    var inf := if v.shared then v.infn.(checked := o.1.checked) else v.infn;
    SolveChecksOnce(inf, s);
    EvaluateIsBit(inf.expression, s);
    var f := SolveOn(inf, s).0.value;
    assert RotateRight(s)[0 := f] == [f] + s[..|s| - 1];
  }

  /** ... and so does any run of shifts, whose outputs are all bits. */
  lemma {:induction false} RunKeepsRegisterBits(v: NlfsrView, n: nat)
    requires AllBits(v.state)
    ensures AllBits(NlfsrRun(v, n).1.state)
    ensures NlfsrRun(v, n).0.Ok? ==> AllBits(NlfsrRun(v, n).0.value)
  {
    if n > 0 {
      RunKeepsRegisterBits(v, n - 1);
      assert Repeat(NlfsrStep, v, n) == RepeatThenStep(NlfsrStep, v, n - 1);
      var w := NlfsrRun(v, n - 1).1;
      if NlfsrRun(v, n - 1).0.Ok? && NlfsrStep(w).0.Ok? {
        ShiftKeepsBits(w);
      }
    }
  }

  // ---------------------------------------------------------------------------
  // sequence and warm-up

  /** `sequence(n)` is n successive shifts: output i is what shift returns on the
      register reached after the first i shifts. */
  lemma SequenceIsShifts(v: NlfsrView, n: nat, i: nat)
    requires i < n && NlfsrSequence(v, n).0.Ok?
    ensures NlfsrStep(NlfsrRun(v, i).1).0 == Ok(NlfsrSequence(v, n).0.value[i])
  {
    RepeatOutputs(NlfsrStep, v, n, i);
  }

  /** A successful warm-up leaves the register where k shifts take it, with counters
      and sentinels cleared and that state recorded as the initial state. */
  lemma WarmUpRecordsState(v: NlfsrView, k: int)
    requires k > 0 && NlfsrWarmUp(v, k).0.Ok?
    ensures var w := NlfsrWarmUp(v, k).1;
      w.state == w.initstate == NlfsrRun(v, k).1.state && w.cycles == 0 && w.outbit == -1 &&
      w.feedbackBit == -1 && w.infn == NlfsrRun(v, k).1.infn && w.outfn == NlfsrRun(v, k).1.outfn &&
      NlfsrWarmUp(v, k).0 == NlfsrRun(v, k).0
  {
  }

  // ---------------------------------------------------------------------------
  // Construction

  /** A string seed needs a size of at least 1, checked before the string itself. */
  lemma NewRejectsStringWithoutSize(word: string, infn: FnView, outc: OutChoice, size: int, k: int,
                                    coins: nat -> bool)
    requires size < 1
    ensures NlfsrNew(StringSeed(word), infn, outc, size, k, coins).0 == Err(InvalidSize)
  {
  }

  lemma NewRejectsUnknownSeedString(word: string, infn: FnView, outc: OutChoice, size: int, k: int,
                                    coins: nat -> bool)
    requires size >= 1 && word != "ones" && word != "random"
    ensures NlfsrNew(StringSeed(word), infn, outc, size, k, coins).0 == Err(UnknownSeedString)
  {
  }

  lemma NewRejectsUnknownSeedType(infn: FnView, outc: OutChoice, size: int, k: int, coins: nat -> bool)
    ensures NlfsrNew(OtherSeed, infn, outc, size, k, coins).0 == Err(UnknownSeedType)
  {
  }

  /** With a list seed the size argument is ignored. */
  lemma NewListIgnoresSize(bits: seq<int>, infn: FnView, outc: OutChoice, size: int, size': int, k: int,
                           coins: nat -> bool)
    ensures NlfsrNew(ListSeed(bits), infn, outc, size, k, coins) == NlfsrNew(ListSeed(bits), infn, outc, size', k, coins)
  {
  }

  /** Without warm-up construction succeeds on any accepted seed, with the seed as state
      and initial state, cleared counters and sentinels, and the chosen output function. */
  lemma NewWithoutWarmUp(seed: Seed, infn: FnView, outc: OutChoice, size: int, k: int, coins: nat -> bool)
    requires NlfsrSeed(seed, size, coins).Ok? && k <= 0
    ensures var init := NlfsrSeed(seed, size, coins).value;
      var out := match outc
        case DefaultOutput => DefaultOut(|init|)
        case SameAsInput => infn
        case OwnOutput(f) => f;
      NlfsrNew(seed, infn, outc, size, k, coins) ==
        (Ok(NlfsrView(init, init, 0, -1, -1, infn, out, outc.SameAsInput?)), infn,
         if outc.OwnOutput? then Some(outc.f) else None)
  {
  }

  /** The seeds: "ones" and "random" give `size` cells, ones or the coins' bits. */
  lemma SeedCells(size: int, coins: nat -> bool)
    requires size >= 1
    ensures NlfsrSeed(StringSeed("ones"), size, coins) == Ok(Ones(size))
    ensures NlfsrSeed(StringSeed("random"), size, coins).Ok?
    ensures var r := NlfsrSeed(StringSeed("random"), size, coins).value;
      |r| == size && AllBits(r) && forall i :: 0 <= i < size ==> r[i] == BitOf(coins(i))
  {
  }

  /** Every successfully constructed NLFSR is valid, with counters and sentinels
      cleared and its current state recorded as its initial state. */
  lemma NewIsValid(seed: Seed, infn: FnView, outc: OutChoice, size: int, k: int, coins: nat -> bool)
    requires Balance(infn.expression) == 1 && (outc.OwnOutput? ==> Balance(outc.f.expression) == 1)
    requires NlfsrNew(seed, infn, outc, size, k, coins).0.Ok?
    ensures var v := NlfsrNew(seed, infn, outc, size, k, coins).0.value;
      ValidView(v) && v.cycles == 0 && v.outbit == -1 && v.feedbackBit == -1 && v.initstate == v.state &&
      v.shared == outc.SameAsInput? && |v.state| == |NlfsrSeed(seed, size, coins).value|
  {
    var init := NlfsrSeed(seed, size, coins).value;
    DefaultOutBalanced(|init|);
    var out := match outc
      case DefaultOutput => DefaultOut(|init|)
      case SameAsInput => infn
      case OwnOutput(f) => f;
    var v0 := NlfsrView(init, init, 0, -1, -1, infn, out, outc.SameAsInput?);
    assert ValidView(v0);
    assert NlfsrWarmUp(v0, k).0.Ok?;
  }

  // ---------------------------------------------------------------------------
  // reset

  /** The choice of output function that hands a register's own output function back
      to `__init__`. */
  function OwnChoice(v: NlfsrView): OutChoice
  {
    if v.shared then SameAsInput else OwnOutput(v.outfn)
  }

  /** `reset()` is `__init__` called again with the recorded initial state as a list
      and the register's own two function objects, no size and no warm-up; it succeeds
      and leaves the function objects as they were. */
  lemma ResetIsConstruction(v: NlfsrView, coins: nat -> bool)
    requires Coherent(v)
    ensures NlfsrNew(ListSeed(v.initstate), v.infn, OwnChoice(v), -1, -1, coins) ==
      (Ok(NlfsrReset(v)), v.infn, if v.shared then None else Some(v.outfn))
  {
  }

  /** Reset forgets every shift made since: from the register before and after any run
      it restores the same state, counters and sentinels; only the functions' `checked`
      flags may differ. */
  lemma ResetForgetsShifts(v: NlfsrView, n: nat)
    ensures var w := NlfsrRun(v, n).1;
      NlfsrReset(w) == NlfsrReset(v).(infn := w.infn, outfn := w.outfn)
  {
    var w := NlfsrRun(v, n).1;
    assert w.initstate == v.initstate && w.shared == v.shared;
  }

  /** Reset keeps a register valid. */
  lemma ResetKeepsValid(v: NlfsrView)
    requires ValidView(v)
    ensures ValidView(NlfsrReset(v)) && NlfsrReset(v).state == v.initstate && |NlfsrReset(v).state| == |v.state|
  {
  }

  // ---------------------------------------------------------------------------
  // The examples of the test suite

  /** The input function `[0, 1, 2, '*', '+']`: s0 XOR (s1 AND s2). */
  function Mixed(): seq<Token> { [Index(0), Index(1), Index(2), And, Xor] }

  /** A three-cell register with input function Mixed and the default output. */
  function MixedRegister(init: seq<int>, s: seq<int>, c: int, ob: int, fb: int, ci: bool, co: bool): NlfsrView
  {
    NlfsrView(s, init, c, ob, fb, FnView(Mixed(), ci), FnView([Index(2)], co), false)
  }

  /** Solving Mixed on three cells passes the bounds check and computes
      s0 XOR (s1 AND s2). */
  lemma MixedSolves(s: seq<int>, checked: bool)
    requires |s| == 3
    ensures SolveOn(FnView(Mixed(), checked), s) == (Ok(TruthXor(TruthAnd(s[2], s[1]), s[0])), FnView(Mixed(), true))
  {
    MixedExpressions(s);
    assert InBounds(Mixed(), 3);
  }

  /** One shift of it: out goes the last cell, in comes s0 XOR (s1 AND s2). */
  lemma MixedStep(init: seq<int>, s: seq<int>, c: int, ob: int, fb: int, ci: bool, co: bool)
    requires |s| == 3
    ensures var f := TruthXor(TruthAnd(s[2], s[1]), s[0]);
      NlfsrStep(MixedRegister(init, s, c, ob, fb, ci, co)) ==
        (Ok(s[2]), MixedRegister(init, [f, s[0], s[1]], c + 1, s[2], f, true, true))
  {
    var v := MixedRegister(init, s, c, ob, fb, ci, co);
    DefaultOutSolves(s, co);
    MixedSolves(s, ci);
    ShiftSpec(v);
    var f := TruthXor(TruthAnd(s[2], s[1]), s[0]);
    assert [f] + s[..2] == [f, s[0], s[1]];
  }

  /** `NLFSR(initstate="ones", infunc=FSRFunction([0,1,2,'*','+']), size=3)` starts
      at [1, 1, 1]. */
  lemma SimpleCycleNew(coins: nat -> bool)
    ensures NlfsrNew(StringSeed("ones"), FnView(Mixed(), false), DefaultOutput, 3, -1, coins).0 ==
      Ok(MixedRegister([1, 1, 1], [1, 1, 1], 0, -1, -1, false, false))
  {
    assert Ones(3) == [1, 1, 1];
  }

  /** The first two shifts from [1, 1, 1]: outputs 1, 1 through [0, 1, 1] to [1, 0, 1]. */
  lemma FirstTwoShifts(init: seq<int>, c: int, ob: int, fb: int, ci: bool, co: bool)
    ensures var v := MixedRegister(init, [1, 1, 1], c, ob, fb, ci, co);
      NlfsrRun(v, 1) == (Ok([1]), MixedRegister(init, [0, 1, 1], c + 1, 1, 0, true, true)) &&
      NlfsrRun(v, 2) == (Ok([1, 1]), MixedRegister(init, [1, 0, 1], c + 2, 1, 1, true, true))
  {
    var v := MixedRegister(init, [1, 1, 1], c, ob, fb, ci, co);
    var v1 := MixedRegister(init, [0, 1, 1], c + 1, 1, 0, true, true);
    var v2 := MixedRegister(init, [1, 0, 1], c + 2, 1, 1, true, true);
    MixedStep(init, [1, 1, 1], c, ob, fb, ci, co);
    MixedStep(init, [0, 1, 1], c + 1, 1, 0, true, true);
    assert Repeat(NlfsrStep, v, 0) == (Ok([]), v);
    RepeatStep(NlfsrStep, v, 0, [], v, Ok(1), v1);
    assert [] + [1] == [1];
    RepeatStep(NlfsrStep, v, 1, [1], v1, Ok(1), v2);
    assert [1] + [1] == [1, 1];
  }

  /** The next two shifts, one at a time: from [1, 0, 1] out 1 and to [1, 1, 0], then
      out 0 and back to [1, 1, 1]. */
  lemma LastTwoSteps(init: seq<int>, c: int)
    ensures NlfsrStep(MixedRegister(init, [1, 0, 1], c + 2, 1, 1, true, true)) ==
      (Ok(1), MixedRegister(init, [1, 1, 0], c + 3, 1, 1, true, true))
    ensures NlfsrStep(MixedRegister(init, [1, 1, 0], c + 3, 1, 1, true, true)) ==
      (Ok(0), MixedRegister(init, [1, 1, 1], c + 4, 0, 1, true, true))
  {
    MixedStep(init, [1, 0, 1], c + 2, 1, 1, true, true);
    MixedStep(init, [1, 1, 0], c + 3, 1, 1, true, true);
  }

  /** ... and four shifts output 1, 1, 1, 0 through [0, 1, 1], [1, 0, 1] and [1, 1, 0]
      back to [1, 1, 1]: a cycle of length 4. */
  lemma SimpleCycleShifts(init: seq<int>, c: int, ob: int, fb: int, ci: bool, co: bool)
    ensures var v := MixedRegister(init, [1, 1, 1], c, ob, fb, ci, co);
      NlfsrRun(v, 1).1.state == [0, 1, 1] && NlfsrRun(v, 2).1.state == [1, 0, 1] &&
      NlfsrRun(v, 3).1.state == [1, 1, 0] &&
      NlfsrRun(v, 4) == (Ok([1, 1, 1, 0]), MixedRegister(init, [1, 1, 1], c + 4, 0, 1, true, true))
  {
    var v := MixedRegister(init, [1, 1, 1], c, ob, fb, ci, co);
    var v2 := MixedRegister(init, [1, 0, 1], c + 2, 1, 1, true, true);
    var v3 := MixedRegister(init, [1, 1, 0], c + 3, 1, 1, true, true);
    var v4 := MixedRegister(init, [1, 1, 1], c + 4, 0, 1, true, true);
    FirstTwoShifts(init, c, ob, fb, ci, co);
    LastTwoSteps(init, c);
    RepeatStep(NlfsrStep, v, 2, [1, 1], v2, Ok(1), v3);
    assert [1, 1] + [1] == [1, 1, 1];
    RepeatStep(NlfsrStep, v, 3, [1, 1, 1], v3, Ok(0), v4);
    assert [1, 1, 1] + [0] == [1, 1, 1, 0];
  }

  /** `NLFSR(initstate=[0,1], infunc=FSRFunction([0,1,2,'*','+']))` is built without
      complaint, but its first shift stores the output bit and then fails the input
      function's bounds check: index 2 does not fit two cells. */
  lemma ShortRegisterFailsLate(coins: nat -> bool)
    ensures var v := NlfsrView([0, 1], [0, 1], 0, -1, -1, FnView(Mixed(), false), FnView([Index(1)], false), false);
      NlfsrNew(ListSeed([0, 1]), FnView(Mixed(), false), DefaultOutput, -1, -1, coins).0 == Ok(v) &&
      NlfsrStep(v) == (Err(IndexOutOfBounds), v.(outbit := 1, outfn := FnView([Index(1)], true)))
  {
    var v := NlfsrView([0, 1], [0, 1], 0, -1, -1, FnView(Mixed(), false), FnView([Index(1)], false), false);
    DefaultOutSolves([0, 1], false);
    assert Mixed()[2] == Index(2);
    ShiftFailsAtInput(v);
  }

  /** `NLFSR(initstate="random", infunc=..., outfunc=FSRFunction([5]), size=1)` is built,
      and its first shift fails the output function's bounds check, changing nothing. */
  lemma OutOfRangeOutputFailsLate(coins: nat -> bool)
    ensures var v := NlfsrView(Draw(coins, 1), Draw(coins, 1), 0, -1, -1, FnView(Mixed(), false),
                               FnView([Index(5)], false), false);
      NlfsrNew(StringSeed("random"), FnView(Mixed(), false), OwnOutput(FnView([Index(5)], false)), 1, -1, coins).0 == Ok(v) &&
      NlfsrStep(v) == (Err(IndexOutOfBounds), v)
  {
    var v := NlfsrView(Draw(coins, 1), Draw(coins, 1), 0, -1, -1, FnView(Mixed(), false),
                       FnView([Index(5)], false), false);
    assert [Index(5)][0].Index? && [Index(5)][0].i == 5;
    ShiftFailsAtOutput(v);
  }
}
