/** The loop both registers use in `sequence(n)` and in their warm-up: n calls of
    `shift()` in a row, the outputs collected in order, the first exception ending the
    loop. It is stated once, over any step function from a register snapshot to an
    output bit (or error) and the next snapshot. */
module Runs {
  import opened Common

  /** n steps from v: the outputs, or the first error, and the snapshot reached. */
  function Repeat<S>(step: S -> (Result<int>, S), v: S, n: nat): (r: (Result<seq<int>>, S))
    ensures r.0.Ok? ==> |r.0.value| == n
    decreases n, 1
  {
    if n == 0 then (Ok([]), v) else RepeatThenStep(step, v, n - 1)
  }

  /** A run of m steps followed, if it succeeded, by one more. */
  function RepeatThenStep<S>(step: S -> (Result<int>, S), v: S, m: nat): (r: (Result<seq<int>>, S))
    ensures r.0.Ok? ==> |r.0.value| == m + 1
    decreases m, 2
  {
    var (bits, w) := Repeat(step, v, m);
    if bits.Err? then (bits, w)
    else
      var (b, w') := step(w);
      if b.Err? then (Err(b.error), w') else (Ok(bits.value + [b.value]), w')
  }

  /** One more step after a successful run of i steps. */
  lemma RepeatStep<S>(step: S -> (Result<int>, S), v: S, i: nat, bits: seq<int>, w: S, b: Result<int>, w': S)
    requires Repeat(step, v, i) == (Ok(bits), w) && step(w) == (b, w')
    ensures Repeat(step, v, i + 1) == (if b.Err? then Err(b.error) else Ok(bits + [b.value]), w')
  {
    assert Repeat(step, v, i + 1) == RepeatThenStep(step, v, i);
  }

  /** Once a run has failed, asking for more steps changes nothing. */
  lemma {:induction false} RepeatStopsAtError<S>(step: S -> (Result<int>, S), v: S, m: nat, n: nat)
    requires m <= n && Repeat(step, v, m).0.Err?
    ensures Repeat(step, v, n) == Repeat(step, v, m)
    decreases n
  {
    if n > m {
      RepeatStopsAtError(step, v, m, n - 1);
      assert Repeat(step, v, n) == RepeatThenStep(step, v, n - 1);
    }
  }

  /** A run of m steps followed by a run of n steps is a run of m + n steps whose
      outputs are the two lists one after the other. */
  lemma {:induction false} RepeatAppend<S>(step: S -> (Result<int>, S), v: S, m: nat, n: nat)
    requires Repeat(step, v, m).0.Ok?
    ensures var a := Repeat(step, v, m).0.value; var b := Repeat(step, Repeat(step, v, m).1, n);
      Repeat(step, v, m + n) == (if b.0.Err? then Err(b.0.error) else Ok(a + b.0.value), b.1)
    decreases n
  {
    var a := Repeat(step, v, m).0.value;
    var w := Repeat(step, v, m).1;
    if n == 0 {
      assert a + [] == a;
    } else {
      RepeatAppend(step, v, m, n - 1);
      var b := Repeat(step, w, n - 1);
      if b.0.Err? {
        RepeatStopsAtError(step, v, m + n - 1, m + n);
        RepeatStopsAtError(step, w, n - 1, n);
      } else {
        var c := step(b.1);
        RepeatStep(step, v, m + n - 1, a + b.0.value, b.1, c.0, c.1);
        RepeatStep(step, w, n - 1, b.0.value, b.1, c.0, c.1);
        if c.0.Ok? {
          assert a + b.0.value + [c.0.value] == a + (b.0.value + [c.0.value]);
        }
      }
    }
  }

  /** A run that succeeds has succeeded at every shorter length, with a prefix of its
      outputs. */
  lemma {:induction false} RepeatPrefix<S>(step: S -> (Result<int>, S), v: S, m: nat, n: nat)
    requires m <= n && Repeat(step, v, n).0.Ok?
    ensures Repeat(step, v, m).0.Ok? && Repeat(step, v, m).0.value == Repeat(step, v, n).0.value[..m]
    decreases n
  {
    if m < n {
      assert Repeat(step, v, n) == RepeatThenStep(step, v, n - 1);
      RepeatPrefix(step, v, m, n - 1);
      var b := Repeat(step, v, n - 1).0.value;
      assert Repeat(step, v, n).0.value[..n - 1] == b;
      assert b[..m] == Repeat(step, v, n).0.value[..m];
    } else {
      assert Repeat(step, v, n).0.value[..n] == Repeat(step, v, n).0.value;
    }
  }

  /** Output i of a successful run is what the step returns on the snapshot reached
      after the first i steps. */
  lemma RepeatOutputs<S>(step: S -> (Result<int>, S), v: S, n: nat, i: nat)
    requires i < n && Repeat(step, v, n).0.Ok?
    ensures step(Repeat(step, v, i).1).0 == Ok(Repeat(step, v, n).0.value[i])
  {
    RepeatPrefix(step, v, i + 1, n);
    RepeatPrefix(step, v, i, i + 1);
    assert Repeat(step, v, i + 1) == RepeatThenStep(step, v, i);
    assert Repeat(step, v, i + 1).0.value[i] == Repeat(step, v, n).0.value[..i + 1][i];
  }
}
