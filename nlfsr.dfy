/** pyfsr/nlfsr.py: the non-linear feedback shift register. Its feedback bit is an
    FSRFunction of the state (the input function) rather than a tap polynomial. As for
    the LFSR, pure functions say what each operation does to a snapshot (NlfsrView) and
    the class NLFSR performs the same operations on its fields, proved against them. */
module Nlfsr {
  import opened Common
  import opened FsrFunction
  import opened Runs

  /** Everything an NLFSR holds. `infn` and `outfn` are the views of its input and
      output functions; `shared` says the two are one and the same object, so that
      solving one sets the `checked` flag of the other. */
  datatype NlfsrView = NlfsrView(
    state: seq<int>,
    initstate: seq<int>,
    cycles: int,
    outbit: int,
    feedbackBit: int,
    infn: FnView,
    outfn: FnView,
    shared: bool)

  /** One object seen twice has one view. */
  predicate Coherent(v: NlfsrView)
  {
    v.shared ==> v.infn == v.outfn
  }

  /** What a constructed NLFSR always satisfies: balanced functions, a coherent view,
      a recorded initial state as long as the state, and a non-negative cycle count. */
  predicate ValidView(v: NlfsrView)
  {
    Balance(v.infn.expression) == 1 && Balance(v.outfn.expression) == 1 && Coherent(v) &&
    |v.initstate| == |v.state| && v.cycles >= 0
  }

  /** The parts of a register that shifting never changes. */
  predicate SameShape(v: NlfsrView, w: NlfsrView)
  {
    |w.state| == |v.state| && w.initstate == v.initstate && w.shared == v.shared &&
    w.infn.expression == v.infn.expression && w.outfn.expression == v.outfn.expression
  }

  /** `shift()`: the output function is solved and `outbit` stored, then the input
      function is solved on the same state and `feedback_bit` stored; the state is
      rolled right and the feedback bit written into cell 0, which raises IndexError on
      an empty register; `cycles` grows only when all of this succeeds. */
  function NlfsrStep(v: NlfsrView): (r: (Result<int>, NlfsrView))
    ensures SameShape(v, r.1)
    ensures Coherent(v) ==> Coherent(r.1)
    ensures r.1.cycles == if r.0.Ok? then v.cycles + 1 else v.cycles
    ensures r.0.Ok? ==> r.1.outbit == r.0.value && |v.state| >= 1
  {
    var (o, out) := SolveOn(v.outfn, v.state);
    var inf := if v.shared then v.infn.(checked := out.checked) else v.infn;
    if o.Err? then (Err(o.error), v.(outfn := out, infn := inf))
    else
      var (f, inf') := SolveOn(inf, v.state);
      var out' := if v.shared then out.(checked := inf'.checked) else out;
      var w := v.(outbit := o.value, outfn := out', infn := inf');
      if f.Err? then (Err(f.error), w)
      else
        var rolled := RotateRight(v.state);
        if |rolled| == 0 then (Err(IndexError), w.(feedbackBit := f.value, state := rolled))
        else (Ok(o.value), w.(feedbackBit := f.value, state := rolled[0 := f.value], cycles := v.cycles + 1))
  }

  /** n shifts in a row, collecting the outputs; the first error ends the run. */
  function NlfsrRun(v: NlfsrView, n: nat): (r: (Result<seq<int>>, NlfsrView))
    ensures SameShape(v, r.1) && r.1.cycles >= v.cycles && (Coherent(v) ==> Coherent(r.1))
    ensures r.0.Ok? ==> |r.0.value| == n && r.1.cycles == v.cycles + n
  {
    RunKeepsShape(v, n);
    Repeat(NlfsrStep, v, n)
  }

  /** Shifting never changes the shape of a register, and each successful shift counts
      one cycle. */
  lemma {:induction false} RunKeepsShape(v: NlfsrView, n: nat)
    ensures var r := Repeat(NlfsrStep, v, n);
      SameShape(v, r.1) && r.1.cycles >= v.cycles && (Coherent(v) ==> Coherent(r.1)) &&
      (r.0.Ok? ==> r.1.cycles == v.cycles + n)
  {
    if n > 0 {
      RunKeepsShape(v, n - 1);
      assert Repeat(NlfsrStep, v, n) == RepeatThenStep(NlfsrStep, v, n - 1);
    }
  }

  /** `sequence(n)`: `np.ones(n)` rejects a negative length before any shift. */
  function NlfsrSequence(v: NlfsrView, n: int): (r: (Result<seq<int>>, NlfsrView))
    ensures n < 0 ==> r == (Err(NegativeDimension), v)
    ensures r.0.Ok? ==> |r.0.value| == n && r.1.cycles == v.cycles + n && SameShape(v, r.1)
  {
    if n < 0 then (Err(NegativeDimension), v) else NlfsrRun(v, n)
  }

  /** The initial state chosen by `initstate`: a list is taken as is and `size` ignored;
      a string needs a size of at least 1 before its value is looked at, then "ones" or
      "random" give `size` cells; the random bits come from the caller's coins. */
  function NlfsrSeed(seed: Seed, size: int, coins: nat -> bool): (r: Result<seq<int>>)
    ensures seed.ListSeed? ==> r == Ok(seed.bits)
    ensures seed.StringSeed? && size < 1 ==> r == Err(InvalidSize)
    ensures seed.StringSeed? && r.Ok? ==> |r.value| == size && AllBits(r.value)
    ensures seed.OtherSeed? ==> r == Err(UnknownSeedType)
  {
    match seed
    case ListSeed(bits) => Ok(bits)
    case StringSeed(word) =>
      if size < 1 then Err(InvalidSize)
      else if word == "ones" then Ok(Ones(size))
      else if word == "random" then Ok(Draw(coins, size))
      else Err(UnknownSeedString)
    case OtherSeed => Err(UnknownSeedType)
  }

  /** The `outfunc` argument: "default", the very object passed as `infunc`, or another
      FSRFunction (given by its view). */
  datatype OutChoice = DefaultOutput | SameAsInput | OwnOutput(f: FnView)

  /** The end of a warm-up: counters and sentinels cleared, the current state recorded
      as the initial state. */
  function WarmedUp(v: NlfsrView): NlfsrView
  {
    v.(cycles := 0, outbit := -1, feedbackBit := -1, initstate := v.state)
  }

  /** The warm-up at the end of `__init__`: for a positive count, that many shifts,
      after which counters and sentinels are cleared and the current state is recorded
      as the initial state. */
  function NlfsrWarmUp(v: NlfsrView, initcycles: int): (r: (Result<seq<int>>, NlfsrView))
    ensures SameShape(v, r.1.(initstate := v.initstate))
    ensures ValidView(v) ==> ValidView(r.1)
  {
    if initcycles <= 0 then (Ok([]), v)
    else
      var (bits, w) := NlfsrRun(v, initcycles);
      if bits.Err? then (bits, w) else (bits, WarmedUp(w))
  }

  /** `NLFSR(initstate, infunc, outfunc, size, initcycles)`: the new register or the
      error raised; then the views of the caller's input function and, for
      `OwnOutput`, of the caller's output function after the call (the warm-up may set
      their `checked` flags even when construction then fails). */
  function NlfsrNew(seed: Seed, infn: FnView, outc: OutChoice, size: int, initcycles: int,
                    coins: nat -> bool): (r: (Result<NlfsrView>, FnView, Option<FnView>))
    ensures r.1.expression == infn.expression
    ensures r.2.Some? <==> outc.OwnOutput?
    ensures r.2.Some? ==> r.2.value.expression == outc.f.expression
  {
    match NlfsrSeed(seed, size, coins)
    case Err(e) => (Err(e), infn, if outc.OwnOutput? then Some(outc.f) else None)
    case Ok(init) =>
      var out := match outc
        case DefaultOutput => DefaultOut(|init|)
        case SameAsInput => infn
        case OwnOutput(f) => f;
      var (bits, w) := NlfsrWarmUp(NlfsrView(init, init, 0, -1, -1, infn, out, outc.SameAsInput?), initcycles);
      (if bits.Err? then Err(bits.error) else Ok(w), w.infn, if outc.OwnOutput? then Some(w.outfn) else None)
  }

  /** `reset()` calls `__init__` again with the recorded initial state as a list and
      the same two function objects, without warm-up: it never fails, restores the
      state and clears counters and sentinels; the functions keep their flags. */
  function NlfsrReset(v: NlfsrView): (r: NlfsrView)
    ensures r.state == r.initstate == v.initstate && r.cycles == 0 && r.outbit == -1 && r.feedbackBit == -1
    ensures r.infn == v.infn && r.outfn == v.outfn && r.shared == v.shared
  {
    v.(state := v.initstate, cycles := 0, outbit := -1, feedbackBit := -1)
  }

  class NLFSR {
    const infunc: FSRFunction
    const outfunc: FSRFunction
    var state: seq<int>
    var initstate: seq<int>
    var cycles: int
    var outbit: int
    var feedbackBit: int

    function View(): NlfsrView
      reads this, infunc, outfunc
    {
      NlfsrView(state, initstate, cycles, outbit, feedbackBit, infunc.View(), outfunc.View(), infunc == outfunc)
    }

    ghost predicate Valid()
      reads this, infunc, outfunc
    {
      ValidView(View())
    }

    /** The fields as `__init__` sets them before the warm-up. */
    constructor (init: seq<int>, infunc: FSRFunction, outfunc: FSRFunction)
      ensures this.infunc == infunc && this.outfunc == outfunc
      ensures View() == NlfsrView(init, init, 0, -1, -1, infunc.View(), outfunc.View(), infunc == outfunc)
    {
      this.infunc := infunc;
      this.outfunc := outfunc;
      this.initstate := init;
      this.state := init;
      this.cycles := 0;
      this.outbit, this.feedbackBit := -1, -1;
    }

    /** `NLFSR(...)`: builds the register, or reports the error the constructor raises.
        The caller's function objects are shared, not copied; `outfunc` may be the
        `infunc` object itself. */
    static method Create(seed: Seed, infunc: FSRFunction, outfunc: Option<FSRFunction>, size: int,
                         initcycles: int, coins: nat -> bool) returns (r: Result<NLFSR>)
      requires infunc.Valid() && (outfunc.Some? ==> outfunc.value.Valid())
      modifies {infunc} + if outfunc.Some? then {outfunc.value} else {}
      ensures var outc := if outfunc.None? then DefaultOutput
                          else if outfunc.value == infunc then SameAsInput
                          else OwnOutput(old(outfunc.value.View()));
        var spec := NlfsrNew(seed, old(infunc.View()), outc, size, initcycles, coins);
        (r.Ok? <==> spec.0.Ok?) &&
        (r.Err? ==> r.error == spec.0.error) &&
        (r.Ok? ==> fresh(r.value) && r.value.Valid() && r.value.View() == spec.0.value) &&
        infunc.View() == spec.1 &&
        (outc.OwnOutput? ==> outfunc.value.View() == spec.2.value)
      ensures r.Ok? ==> r.value.infunc == infunc
      ensures r.Ok? && outfunc.Some? ==> r.value.outfunc == outfunc.value
      ensures r.Ok? && outfunc.None? ==> fresh(r.value.outfunc)
    {
      var init := NlfsrSeed(seed, size, coins);
      if init.Err? {
        return Err(init.error);
      }
      var out: FSRFunction;
      if outfunc.Some? {
        out := outfunc.value;
      } else {
        out := NewDefaultOut(|init.value|);
      }
      var l := new NLFSR(init.value, infunc, out);
      var bits := l.WarmUp(initcycles);
      if bits.Err? {
        return Err(bits.error);
      }
      r := Ok(l);
    }

    /** The warm-up that ends `__init__`. */
    method WarmUp(initcycles: int) returns (r: Result<seq<int>>)
      modifies this`state, this`outbit, this`feedbackBit, this`cycles, this`initstate, infunc`checked, outfunc`checked
      ensures (r, View()) == NlfsrWarmUp(old(View()), initcycles)
    {
      r := Ok([]);
      if initcycles > 0 {
        r := Sequence(initcycles);
        if r.Err? {
          return;
        }
        cycles, outbit, feedbackBit := 0, -1, -1;
        initstate := state;
      }
    }

    /** `shift()`. */
    method Shift() returns (r: Result<int>)
      modifies this`state, this`outbit, this`feedbackBit, this`cycles, infunc`checked, outfunc`checked
      ensures (r, View()) == NlfsrStep(old(View()))
    {
      var o := outfunc.Solve(state);
      if o.Err? {
        return Err(o.error);
      }
      outbit := o.value;
      var f := infunc.Solve(state);
      if f.Err? {
        return Err(f.error);
      }
      feedbackBit := f.value;
      state := RotateRight(state);
      if |state| == 0 {
        return Err(IndexError);
      }
      state := state[0 := feedbackBit];
      cycles := cycles + 1;
      r := Ok(outbit);
    }

    /** `sequence(n)`: n shifts written into a buffer of ones. */
    method Sequence(n: int) returns (r: Result<seq<int>>)
      modifies this`state, this`outbit, this`feedbackBit, this`cycles, infunc`checked, outfunc`checked
      ensures (r, View()) == NlfsrSequence(old(View()), n)
    {
      if n < 0 {
        return Err(NegativeDimension);
      }
      var buf := NewOnes(n);
      r := Fill(buf);
    }

    /** The loop of `sequence`: `seq[i] = self.shift()` for every i in turn. */
    method Fill(buf: array<int>) returns (r: Result<seq<int>>)
      modifies this`state, this`outbit, this`feedbackBit, this`cycles, infunc`checked, outfunc`checked, buf
      ensures (r, View()) == NlfsrRun(old(View()), buf.Length)
    {
      ghost var v := View();
      var i := 0;
      while i < buf.Length
        invariant 0 <= i <= buf.Length
        invariant NlfsrRun(v, i) == (Ok(buf[..i]), View())
      {
        var b := ShiftAfter(v, i, buf.Length, buf[..i]);
        if b.Err? {
          return Err(b.error);
        }
        buf[i] := b.value;
        assert buf[..i + 1] == buf[..i] + [b.value];
        i := i + 1;
      }
      assert buf[..] == buf[..buf.Length];
      r := Ok(buf[..]);
    }

    /** A shift that extends a run of i shifts from v by one; if it fails, so does the
        whole run of n shifts, which ends here. */
    method ShiftAfter(ghost v: NlfsrView, ghost i: nat, ghost n: nat, ghost bits: seq<int>) returns (b: Result<int>)
      requires i < n && NlfsrRun(v, i) == (Ok(bits), View())
      modifies this`state, this`outbit, this`feedbackBit, this`cycles, infunc`checked, outfunc`checked
      ensures b.Ok? ==> NlfsrRun(v, i + 1) == (Ok(bits + [b.value]), View())
      ensures b.Err? ==> NlfsrRun(v, n) == (Err(b.error), View())
    {
      ghost var before := View();
      b := Shift();
      RepeatStep(NlfsrStep, v, i, bits, before, b, View());
      if b.Err? {
        RepeatStopsAtError(NlfsrStep, v, i + 1, n);
      }
    }

    /** `reset()`. */
    method Reset()
      modifies this`state, this`outbit, this`feedbackBit, this`cycles
      ensures View() == NlfsrReset(old(View()))
    {
      state := initstate;
      cycles := 0;
      outbit, feedbackBit := -1, -1;
    }
  }
}
