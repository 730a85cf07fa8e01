/** pyfsr/lfsr.py: the linear feedback shift register. The pure functions below say
    what every operation does to a snapshot (LfsrView) of the register; the class LFSR
    performs the same operations step by step on its fields and is proved against them. */
module Lfsr {
  import opened Common
  import opened FsrFunction
  import opened Runs

  /** Everything an LFSR holds. `out` is the view of its output function, whose
      `checked` flag solve may set. */
  datatype LfsrView = LfsrView(
    poly: seq<int>,
    internal: bool,
    state: seq<int>,
    initstate: seq<int>,
    cycles: int,
    outbit: int,
    feedbackBit: int,
    out: FnView)

  /** What a constructed LFSR always satisfies: a sorted polynomial whose degree is the
      register length, a non-empty register and a balanced output function. */
  predicate ValidView(v: LfsrView)
  {
    |v.poly| >= 1 && SortedDesc(v.poly) && v.poly[0] == |v.state| == |v.initstate| >= 1 &&
    v.cycles >= 0 && Balance(v.out.expression) == 1
  }

  /** The parts of a register that shifting never changes. */
  predicate SameShape(v: LfsrView, w: LfsrView)
  {
    w.poly == v.poly && w.internal == v.internal && w.initstate == v.initstate &&
    |w.state| == |v.state| && w.out.expression == v.out.expression
  }

  /** `__check`: at least two taps, all positive, and the largest equal to the
      register length n; the failures in that order. */
  function CheckPoly(poly: seq<int>, n: int): (r: Outcome)
    ensures r == Pass <==>
      |poly| >= 2 && (forall k :: 0 <= k < |poly| ==> poly[k] >= 1) && Max(poly) == n
    ensures r == Fail(PolyTooShort) <==> |poly| < 2
  {
    if |poly| < 2 then Fail(PolyTooShort)
    else if Min(poly) < 1 then Fail(NonPositiveTap)
    else if Max(poly) != n then Fail(DegreeMismatch)
    else Pass
  }

  /** The loop of `__internal_feedback_shift` from tap i on: XORs fb into
      position poly[i] of s (Python indexing); stops at the first IndexError. */
  function GaloisTaps(s: seq<int>, poly: seq<int>, i: nat, fb: int): (r: (seq<int>, bool))
    ensures |r.0| == |s|
    decreases |poly| - i
  {
    if i >= |poly| then (s, true)
    else match PyIndex(|s|, poly[i])
      case None => (s, false)
      case Some(j) => GaloisTaps(s[j := TruthXor(fb, s[j])], poly, i + 1, fb)
  }

  /** `__internal_feedback_shift` on (state, feedback_bit): the new state, the new
      feedback bit, and false when it raised IndexError. */
  function InternalShift(s: seq<int>, poly: seq<int>, fb0: int): (r: (seq<int>, int, bool))
    ensures |r.0| == |s|
  {
    match PyIndex(|s|, -1)
    case None => (s, fb0, false)
    case Some(j) =>
      var fb := s[j];
      var (t, ok) := GaloisTaps(RotateRight(s), poly, 1, fb);
      (t, fb, ok)
  }

  /** The loop of `__external_feedback_shift` from tap i on, accumulating the feedback
      bit in acc; on an IndexError the partial accumulator and false. */
  function FibonacciFold(s: seq<int>, poly: seq<int>, i: nat, acc: int): (r: (int, bool))
    ensures r.1 <==> forall k :: i <= k < |poly| ==> PyIndex(|s|, poly[k] - 1).Some?
    decreases |poly| - i
  {
    if i >= |poly| then (acc, true)
    else match PyIndex(|s|, poly[i] - 1)
      case None => (acc, false)
      case Some(j) => FibonacciFold(s, poly, i + 1, TruthXor(acc, s[j]))
  }

  /** `__external_feedback_shift` on (state, feedback_bit). */
  function ExternalShift(s: seq<int>, poly: seq<int>, fb0: int): (r: (seq<int>, int, bool))
    ensures |r.0| == |s|
  {
    if |poly| == 0 then (s, fb0, false)
    else match PyIndex(|s|, poly[0] - 1)
      case None => (s, fb0, false)
      case Some(j) =>
        var (fb, ok) := FibonacciFold(s, poly, 1, s[j]);
        if !ok then (s, fb, false) else (RotateRight(s)[0 := fb], fb, true)
  }

  /** `shift()`: the output function is solved on the pre-shift state and stored in
      `outbit` before the feedback shift runs; `cycles` grows only when both succeed. */
  function LfsrStep(v: LfsrView): (r: (Result<int>, LfsrView))
    ensures SameShape(v, r.1)
    ensures r.1.cycles == if r.0.Ok? then v.cycles + 1 else v.cycles
    ensures r.0.Ok? ==> r.1.outbit == r.0.value
  {
    var (o, out) := SolveOn(v.out, v.state);
    if o.Err? then (Err(o.error), v.(out := out))
    else
      var (st, fb, ok) :=
        if v.internal then InternalShift(v.state, v.poly, v.feedbackBit)
        else ExternalShift(v.state, v.poly, v.feedbackBit);
      var w := v.(out := out, outbit := o.value, state := st, feedbackBit := fb);
      if !ok then (Err(IndexError), w) else (Ok(o.value), w.(cycles := v.cycles + 1))
  }

  /** n shifts in a row, collecting the outputs; the first error ends the run. */
  function LfsrRun(v: LfsrView, n: nat): (r: (Result<seq<int>>, LfsrView))
    ensures SameShape(v, r.1) && r.1.cycles >= v.cycles
    ensures r.0.Ok? ==> |r.0.value| == n && r.1.cycles == v.cycles + n
  {
    RunKeepsShape(v, n);
    Repeat(LfsrStep, v, n)
  }

  /** Shifting never changes the shape of a register, and each successful shift counts
      one cycle. */
  lemma {:induction false} RunKeepsShape(v: LfsrView, n: nat)
    ensures var r := Repeat(LfsrStep, v, n);
      SameShape(v, r.1) && r.1.cycles >= v.cycles && (r.0.Ok? ==> r.1.cycles == v.cycles + n)
  {
    if n > 0 {
      RunKeepsShape(v, n - 1);
      assert Repeat(LfsrStep, v, n) == RepeatThenStep(LfsrStep, v, n - 1);
    }
  }

  /** `sequence(n)`: `np.ones(n)` rejects a negative length before any shift. */
  function LfsrSequence(v: LfsrView, n: int): (r: (Result<seq<int>>, LfsrView))
    ensures n < 0 ==> r == (Err(NegativeDimension), v)
    ensures r.0.Ok? ==> |r.0.value| == n && r.1.cycles == v.cycles + n && SameShape(v, r.1)
  {
    if n < 0 then (Err(NegativeDimension), v) else LfsrRun(v, n)
  }

  /** The initial state chosen by `initstate`: a list is taken as is; "ones" and
      "random" need `np.max(poly)`, which fails on an empty poly, and a non-negative
      length; the random bits come from the caller's coins. */
  function ResolveSeed(seed: Seed, poly: seq<int>, coins: nat -> bool): (r: Result<seq<int>>)
    ensures seed.ListSeed? ==> r == Ok(seed.bits)
    ensures seed.StringSeed? && r.Ok? ==> |poly| > 0 && |r.value| == Max(poly) && AllBits(r.value)
    ensures seed.OtherSeed? ==> r == Err(UnknownSeedType)
  {
    match seed
    case ListSeed(bits) => Ok(bits)
    case StringSeed(word) =>
      if word == "ones" || word == "random" then
        if |poly| == 0 then Err(EmptyReduction)
        else if Max(poly) < 0 then Err(NegativeDimension)
        else if word == "ones" then Ok(Ones(Max(poly)))
        else Ok(Draw(coins, Max(poly)))
      else Err(UnknownSeedString)
    case OtherSeed => Err(UnknownSeedType)
  }

  /** The `feedback` argument: true for internal (Galois), false for external (Fibonacci). */
  function FeedbackKind(feedback: string): (r: Result<bool>)
    ensures r.Ok? <==> feedback == "internal" || feedback == "external"
    ensures r.Ok? ==> (r.value <==> feedback == "internal")
  {
    if feedback == "internal" then Ok(true)
    else if feedback == "external" then Ok(false)
    else Err(UnknownFeedback)
  }

  /** The end of a warm-up: counters and sentinels cleared, the current state recorded
      as the initial state. */
  function WarmedUp(v: LfsrView): LfsrView
  {
    v.(cycles := 0, outbit := -1, feedbackBit := -1, initstate := v.state)
  }

  /** The warm-up at the end of the constructor: for a positive count, that many
      shifts, after which counters and sentinels are cleared and the current state is
      recorded as the initial state. */
  function LfsrWarmUp(v: LfsrView, initcycles: int): (r: (Result<seq<int>>, LfsrView))
    ensures r.1.poly == v.poly && r.1.internal == v.internal && |r.1.state| == |v.state|
    ensures r.1.out.expression == v.out.expression
    ensures ValidView(v) ==> ValidView(r.1)
  {
    if initcycles <= 0 then (Ok([]), v)
    else
      var (bits, w) := LfsrRun(v, initcycles);
      if bits.Err? then (bits, w) else (bits, WarmedUp(w))
  }

  /** `LFSR(poly, initstate, initcycles, feedback, outfunc)`: the new register, or the
      error raised; second, the new view of the caller's own output function (the
      warm-up may set its `checked` flag even when construction then fails). */
  function LfsrNew(poly: seq<int>, seed: Seed, initcycles: int, feedback: string,
                   custom: Option<FnView>, coins: nat -> bool): (r: (Result<LfsrView>, Option<FnView>))
    ensures r.1.Some? <==> custom.Some?
    ensures r.1.Some? ==> r.1.value.expression == custom.value.expression
  {
    match ResolveSeed(seed, poly, coins)
    case Err(e) => (Err(e), custom)
    case Ok(init) =>
      match FeedbackKind(feedback)
      case Err(e) => (Err(e), custom)
      case Ok(internal) =>
        var sorted := SortDesc(poly);
        match CheckPoly(sorted, |init|)
        case Fail(e) => (Err(e), custom)
        case Pass =>
          var out := if custom.Some? then custom.value else DefaultOut(|init|);
          var (bits, w) := LfsrWarmUp(LfsrView(sorted, internal, init, init, 0, -1, -1, out), initcycles);
          (if bits.Err? then Err(bits.error) else Ok(w), if custom.Some? then Some(w.out) else None)
  }

  /** A register that passed the constructor's checks is valid. */
  lemma FreshValid(sorted: seq<int>, internal: bool, init: seq<int>, out: FnView)
    requires SortedDesc(sorted) && CheckPoly(sorted, |init|) == Pass && Balance(out.expression) == 1
    ensures ValidView(LfsrView(sorted, internal, init, init, 0, -1, -1, out))
  {
    SortedHeadIsMax(sorted);
  }

  /** `reset()` re-runs the constructor on the same object with the stored poly, the
      recorded initial state and the same topology, but no output function: the poly is
      sorted again, the state, counters and sentinels are reset, and only if the poly
      check passes is a fresh default output function installed. */
  function LfsrReset(v: LfsrView): (r: (Outcome, LfsrView))
    ensures r.1.state == r.1.initstate == v.initstate && r.1.cycles == 0 && r.1.outbit == -1 &&
            r.1.feedbackBit == -1 && r.1.internal == v.internal
    ensures SortedDesc(r.1.poly) && multiset(r.1.poly) == multiset(v.poly)
    ensures r.0 == CheckPoly(r.1.poly, |v.initstate|)
    ensures r.1.out == if r.0.Pass? then DefaultOut(|v.initstate|) else v.out
  {
    var sorted := SortDesc(v.poly);
    var w := v.(poly := sorted, state := v.initstate, outbit := -1, feedbackBit := -1, cycles := 0);
    match CheckPoly(sorted, |v.initstate|)
    case Fail(e) => (Fail(e), w)
    case Pass => (Pass, w.(out := DefaultOut(|v.initstate|)))
  }

  /** Before its output function is chosen, reset moves the fields as listed. */
  lemma ResetFields(v: LfsrView)
    ensures LfsrReset(v).0 == CheckPoly(SortDesc(v.poly), |v.initstate|)
    ensures LfsrReset(v).1.(out := v.out) ==
      v.(poly := SortDesc(v.poly), state := v.initstate, outbit := -1, feedbackBit := -1, cycles := 0)
  {
  }

  /** `change_poly(poly)`: rejects a poly of another degree without change; otherwise
      installs it sorted and then runs the poly check, whose failure leaves it installed. */
  function LfsrChangePoly(v: LfsrView, p: seq<int>): (r: (Outcome, LfsrView))
    ensures r.1 == v.(poly := r.1.poly)
    ensures r.1.poly == v.poly || (SortedDesc(r.1.poly) && multiset(r.1.poly) == multiset(p))
    ensures r.0.Pass? ==> multiset(r.1.poly) == multiset(p) && CheckPoly(r.1.poly, |v.initstate|) == Pass
  {
    if |p| == 0 || |v.poly| == 0 then (Fail(EmptyReduction), v)
    else if Max(p) != Max(v.poly) then (Fail(DegreeChanged), v)
    else
      var sorted := SortDesc(p);
      (CheckPoly(sorted, |v.initstate|), v.(poly := sorted))
  }

  class LFSR {
    const internal: bool
    var poly: seq<int>
    var state: seq<int>
    var initstate: seq<int>
    var cycles: int
    var outbit: int
    var feedbackBit: int
    var outfunc: FSRFunction

    function View(): LfsrView
      reads this, outfunc
    {
      LfsrView(poly, internal, state, initstate, cycles, outbit, feedbackBit, outfunc.View())
    }

    ghost predicate Valid()
      reads this, outfunc
    {
      ValidView(View())
    }

    /** The fields as `__init__` sets them once its checks have passed. */
    constructor (internal: bool, poly: seq<int>, init: seq<int>, outfunc: FSRFunction)
      ensures View() == LfsrView(poly, internal, init, init, 0, -1, -1, outfunc.View())
      ensures this.outfunc == outfunc
    {
      this.internal := internal;
      this.poly := poly;
      this.initstate := init;
      this.state := init;
      this.outbit, this.feedbackBit := -1, -1;
      this.cycles := 0;
      this.outfunc := outfunc;
    }

    /** `LFSR(...)`: builds the register, or reports the error the constructor raises.
        A caller-supplied output function is shared, not copied. */
    static method Create(poly: seq<int>, seed: Seed, initcycles: int, feedback: string,
                         outfunc: Option<FSRFunction>, coins: nat -> bool) returns (r: Result<LFSR>)
      requires outfunc.Some? ==> outfunc.value.Valid()
      modifies if outfunc.Some? then {outfunc.value} else {}
      ensures var spec := LfsrNew(poly, seed, initcycles, feedback,
                                  if outfunc.Some? then Some(old(outfunc.value.View())) else None, coins);
        (r.Ok? <==> spec.0.Ok?) &&
        (r.Err? ==> r.error == spec.0.error) &&
        (r.Ok? ==> fresh(r.value) && r.value.Valid() && r.value.View() == spec.0.value) &&
        (outfunc.Some? ==> outfunc.value.View() == spec.1.value)
      ensures r.Ok? && outfunc.Some? ==> r.value.outfunc == outfunc.value
      ensures r.Ok? && outfunc.None? ==> fresh(r.value.outfunc)
    {
      var init := ResolveSeed(seed, poly, coins);
      if init.Err? {
        return Err(init.error);
      }
      var kind := FeedbackKind(feedback);
      if kind.Err? {
        return Err(kind.error);
      }
      var sorted := SortDesc(poly);
      var check := CheckPoly(sorted, |init.value|);
      if check.Fail? {
        return Err(check.error);
      }
      var out: FSRFunction;
      if outfunc.Some? {
        out := outfunc.value;
      } else {
        out := NewDefaultOut(|init.value|);
      }
      FreshValid(sorted, kind.value, init.value, out.View());
      var l := new LFSR(kind.value, sorted, init.value, out);
      var bits := l.WarmUp(initcycles);
      if bits.Err? {
        return Err(bits.error);
      }
      r := Ok(l);
    }

    /** The warm-up that ends `__init__`. */
    method WarmUp(initcycles: int) returns (r: Result<seq<int>>)
      modifies this`state, this`outbit, this`feedbackBit, this`cycles, this`initstate, outfunc`checked
      ensures (r, View()) == LfsrWarmUp(old(View()), initcycles)
    {
      r := Ok([]);
      if initcycles > 0 {
        r := Sequence(initcycles);
        if r.Err? {
          return;
        }
        cycles, outbit, feedbackBit := 0, -1, -1;
        initstate := state;
      }
    }

    /** `__internal_feedback_shift`: the tail bit is fed back, the state rotated right,
        and the feedback bit XORed into position poly[i] for every i >= 1. */
    method InternalFeedbackShift() returns (ok: bool)
      modifies this`state, this`feedbackBit
      ensures (state, feedbackBit, ok) == InternalShift(old(state), poly, old(feedbackBit))
    {
      var last := PyIndex(|state|, -1);
      if last.None? {
        return false;
      }
      feedbackBit := state[last.value];
      state := RotateRight(state);
      var i := 1;
      while i < |poly|
        invariant i >= 1 && feedbackBit == old(state)[last.value]
        invariant GaloisTaps(RotateRight(old(state)), poly, 1, feedbackBit) == GaloisTaps(state, poly, i, feedbackBit)
        decreases |poly| - i
      {
        var j := PyIndex(|state|, poly[i]);
        if j.None? {
          return false;
        }
        state := state[j.value := TruthXor(feedbackBit, state[j.value])];
        i := i + 1;
      }
      ok := true;
    }

    /** `__external_feedback_shift`: the feedback bit is the XOR of the cells poly[i] - 1;
        the state is rotated right and the feedback bit written into cell 0. */
    method ExternalFeedbackShift() returns (ok: bool)
      modifies this`state, this`feedbackBit
      ensures (state, feedbackBit, ok) == ExternalShift(old(state), poly, old(feedbackBit))
    {
      if |poly| == 0 {
        return false;
      }
      var first := PyIndex(|state|, poly[0] - 1);
      if first.None? {
        return false;
      }
      feedbackBit := state[first.value];
      var i := 1;
      while i < |poly|
        invariant i >= 1 && state == old(state)
        invariant FibonacciFold(state, poly, 1, state[first.value]) == FibonacciFold(state, poly, i, feedbackBit)
        decreases |poly| - i
      {
        var j := PyIndex(|state|, poly[i] - 1);
        if j.None? {
          return false;
        }
        feedbackBit := TruthXor(feedbackBit, state[j.value]);
        i := i + 1;
      }
      state := RotateRight(state);
      state := state[0 := feedbackBit];
      ok := true;
    }

    /** `shift()`. */
    method Shift() returns (r: Result<int>)
      modifies this`state, this`outbit, this`feedbackBit, this`cycles, outfunc`checked
      ensures (r, View()) == LfsrStep(old(View()))
    {
      var o := outfunc.Solve(state);
      if o.Err? {
        return Err(o.error);
      }
      outbit := o.value;
      var ok;
      if internal {
        ok := InternalFeedbackShift();
      } else {
        ok := ExternalFeedbackShift();
      }
      if !ok {
        return Err(IndexError);
      }
      cycles := cycles + 1;
      r := Ok(outbit);
    }

    /** `sequence(n)`: n shifts written into a buffer of ones. */
    method Sequence(n: int) returns (r: Result<seq<int>>)
      modifies this`state, this`outbit, this`feedbackBit, this`cycles, outfunc`checked
      ensures (r, View()) == LfsrSequence(old(View()), n)
    {
      if n < 0 {
        return Err(NegativeDimension);
      }
      var buf := NewOnes(n);
      r := Fill(buf);
    }

    /** The loop of `sequence`: `seq[i] = self.shift()` for every i in turn. */
    method Fill(buf: array<int>) returns (r: Result<seq<int>>)
      modifies this`state, this`outbit, this`feedbackBit, this`cycles, outfunc`checked, buf
      ensures (r, View()) == LfsrRun(old(View()), buf.Length)
    {
      ghost var v := View();
      var i := 0;
      while i < buf.Length
        invariant 0 <= i <= buf.Length
        invariant LfsrRun(v, i) == (Ok(buf[..i]), View())
      {
        var b := ShiftAfter(v, i, buf.Length, buf[..i]);
        if b.Err? {
          return Err(b.error);
        }
        buf[i] := b.value;
        assert buf[..i + 1] == buf[..i] + [b.value];
        i := i + 1;
      }
      assert buf[..] == buf[..buf.Length];
      r := Ok(buf[..]);
    }

    /** A shift that extends a run of i shifts from v by one; if it fails, so does the
        whole run of n shifts, which ends here. */
    method ShiftAfter(ghost v: LfsrView, ghost i: nat, ghost n: nat, ghost bits: seq<int>) returns (b: Result<int>)
      requires i < n && LfsrRun(v, i) == (Ok(bits), View())
      modifies this`state, this`outbit, this`feedbackBit, this`cycles, outfunc`checked
      ensures b.Ok? ==> LfsrRun(v, i + 1) == (Ok(bits + [b.value]), View())
      ensures b.Err? ==> LfsrRun(v, n) == (Err(b.error), View())
    {
      ghost var before := View();
      b := Shift();
      RepeatStep(LfsrStep, v, i, bits, before, b, View());
      if b.Err? {
        RepeatStopsAtError(LfsrStep, v, i + 1, n);
      }
    }

    /** `reset()`. */
    method Reset() returns (r: Outcome)
      modifies this`poly, this`state, this`outbit, this`feedbackBit, this`cycles, this`outfunc
      ensures (r, View()) == LfsrReset(old(View()))
      ensures r.Pass? ==> fresh(outfunc)
      ensures r.Fail? ==> outfunc == old(outfunc)
    {
      ghost var v := View();
      r := Reinitialise();
      ghost var w := View();
      if r.Pass? {
        var f := NewDefaultOut(|state|);
        outfunc := f;
        assert View() == w.(out := DefaultOut(|v.initstate|));
      }
    }

    /** The part of `reset()` before a new output function is installed: the stored
        poly sorted again, the recorded state restored, counters and sentinels cleared,
        and the poly check. */
    method Reinitialise() returns (r: Outcome)
      modifies this`poly, this`state, this`outbit, this`feedbackBit, this`cycles
      ensures (r, View()) == (LfsrReset(old(View())).0, LfsrReset(old(View())).1.(out := old(View()).out))
    {
      ghost var v := View();
      poly := SortDesc(poly);
      state := initstate;
      outbit, feedbackBit := -1, -1;
      cycles := 0;
      r := CheckPoly(poly, |initstate|);
      ResetFields(v);
    }

    /** `change_poly(poly)`. */
    method ChangePoly(p: seq<int>) returns (r: Outcome)
      modifies this`poly
      ensures (r, View()) == LfsrChangePoly(old(View()), p)
    {
      if |p| == 0 || |poly| == 0 {
        return Fail(EmptyReduction);
      }
      if Max(p) != Max(poly) {
        return Fail(DegreeChanged);
      }
      poly := SortDesc(p);
      r := CheckPoly(poly, |initstate|);
    }
  }
}
