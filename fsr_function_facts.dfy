/** Properties of the reverse-Polish evaluator of pyfsr/fsr_function.py. */
module FsrFunctionFacts {
  import opened Common
  import opened FsrFunction

  lemma {:induction false} RunAppend(stack: seq<int>, a: seq<Token>, b: seq<Token>, s: seq<int>)
    ensures Run(stack, a + b, s) ==
      match Run(stack, a, s)
      case Err(err) => Err(err)
      case Ok(st) => Run(st, b, s)
    decreases |a|
  {
    if a != [] {
      assert (a + b)[0] == a[0] && (a + b)[1..] == a[1..] + b;
      match Push(stack, a[0], s)
      case Err(_) =>
      case Ok(st) => RunAppend(st, a[1..], b, s);
    } else {
      assert a + b == b;
    }
  }

  lemma {:induction false} BalanceCons(t: Token, e: seq<Token>)
    ensures Balance([t] + e) == Delta(t) + Balance(e)
    decreases |e|
  {
    if e == [] {
      BalanceSnoc([], t);
      assert [] + [t] == [t];
    } else {
      var init, last := e[..|e| - 1], e[|e| - 1];
      BalanceCons(t, init);
      assert [t] + e == ([t] + init) + [last];
      assert e == init + [last];
      BalanceSnoc([t] + init, last);
      BalanceSnoc(init, last);
    }
  }

  /** A successful run changes the stack height by exactly the expression's balance. */
  lemma {:induction false} StackHeight(stack: seq<int>, e: seq<Token>, s: seq<int>)
    requires Run(stack, e, s).Ok?
    ensures |Run(stack, e, s).value| == |stack| + Balance(e)
    decreases |e|
  {
    if e != [] {
      assert e == [e[0]] + e[1..];
      BalanceCons(e[0], e[1..]);
      StackHeight(Push(stack, e[0], s).value, e[1..], s);
    }
  }

  /** A balanced expression that runs without error leaves exactly one value, so the
      "too many values" error of solve cannot be reached. */
  lemma BalancedLeavesOneValue(e: seq<Token>, s: seq<int>)
    requires Balance(e) == 1
    ensures Run([], e, s).Ok? ==> |Run([], e, s).value| == 1 && Evaluate(e, s) == Ok(Run([], e, s).value[0])
    ensures Evaluate(e, s) != Err(TooManyValues)
  {
    if Run([], e, s).Ok? {
      StackHeight([], e, s);
    } else {
      RunErrorKinds([], e, s);
    }
  }

  /** Every index token can be looked up in s (Python indexing, negatives wrap). */
  predicate LookupsSucceed(e: seq<Token>, s: seq<int>)
  {
    forall k :: 0 <= k < |e| && e[k].Index? ==> PyIndex(|s|, e[k].i).Some?
  }

  /** Every operator finds at least two values: the stack height just before it is >= 2. */
  predicate OperatorsFed(h: int, e: seq<Token>)
  {
    forall k :: 0 <= k < |e| && !e[k].Index? ==> h + Balance(e[..k]) >= 2
  }

  /** A run only fails by a lookup outside the state or by stack underflow; never by the
      one-time bounds check. */
  lemma {:induction false} RunErrorKinds(stack: seq<int>, e: seq<Token>, s: seq<int>)
    ensures Run(stack, e, s).Err? ==> Run(stack, e, s).error in {IndexError, StackUnderflow}
    ensures Run(stack, e, s) == Err(IndexError) ==> !LookupsSucceed(e, s)
    decreases |e|
  {
    if e != [] {
      match Push(stack, e[0], s)
      case Err(_) =>
      case Ok(st) =>
        RunErrorKinds(st, e[1..], s);
        if !LookupsSucceed(e[1..], s) {
          var k :| 0 <= k < |e[1..]| && e[1..][k].Index? && PyIndex(|s|, e[1..][k].i).None?;
          assert e[k + 1] == e[1..][k];
        }
    }
  }

  lemma PrefixBalanceStep(e: seq<Token>, k: int)
    requires 1 <= k <= |e|
    ensures Balance(e[..k]) == Delta(e[0]) + Balance(e[1..][..k - 1])
  {
    assert e[..k] == [e[0]] + e[1..][..k - 1];
    BalanceCons(e[0], e[1..][..k - 1]);
  }

  /** Exact condition for the stack machine to get through an expression: every index
      can be looked up and every operator is reached with two values on the stack. */
  lemma {:induction false} RunSucceedsIff(stack: seq<int>, e: seq<Token>, s: seq<int>)
    ensures Run(stack, e, s).Ok? <==> LookupsSucceed(e, s) && OperatorsFed(|stack|, e)
    decreases |e|
  {
    if e != [] {
      var t, rest := e[0], e[1..];
      assert Balance(e[..0]) == 0 by { assert e[..0] == []; }
      forall k | 1 <= k <= |e| ensures Balance(e[..k]) == Delta(t) + Balance(rest[..k - 1]) {
        PrefixBalanceStep(e, k);
      }
      var h' := |stack| + Delta(t);
      assert OperatorsFed(|stack|, e) <==> (t.Index? || |stack| >= 2) && OperatorsFed(h', rest) by {
        if OperatorsFed(|stack|, e) {
          forall k | 0 <= k < |rest| && !rest[k].Index? ensures h' + Balance(rest[..k]) >= 2 {
            assert e[k + 1] == rest[k];
          }
        }
        if (t.Index? || |stack| >= 2) && OperatorsFed(h', rest) {
          forall k | 0 <= k < |e| && !e[k].Index? ensures |stack| + Balance(e[..k]) >= 2 {
            if k > 0 {
              assert e[k] == rest[k - 1];
            }
          }
        }
      }
      assert LookupsSucceed(e, s) <==> (t.Index? ==> PyIndex(|s|, t.i).Some?) && LookupsSucceed(rest, s) by {
        if (t.Index? ==> PyIndex(|s|, t.i).Some?) && LookupsSucceed(rest, s) {
          forall k | 0 <= k < |e| && e[k].Index? ensures PyIndex(|s|, e[k].i).Some? {
            if k > 0 {
              assert e[k] == rest[k - 1];
            }
          }
        }
        if LookupsSucceed(e, s) {
          forall k | 0 <= k < |rest| && rest[k].Index? ensures PyIndex(|s|, rest[k].i).Some? {
            assert e[k + 1] == rest[k];
          }
        }
      }
      match Push(stack, t, s)
      case Err(_) =>
      case Ok(st) =>
        assert |st| == h';
        RunSucceedsIff(st, rest, s);
    }
  }

  /** After the bounds check has passed for this state, the only possible failure of a
      constructed expression is stack underflow. */
  lemma CheckedFailsOnlyByUnderflow(e: seq<Token>, s: seq<int>)
    requires Balance(e) == 1 && InBounds(e, |s|)
    ensures Evaluate(e, s).Err? ==> Evaluate(e, s) == Err(StackUnderflow)
  {
    RunErrorKinds([], e, s);
    BalancedLeavesOneValue(e, s);
  }

  /** solve's lazy check: the first call fails with IndexOutOfBounds exactly when an index
      lies outside [0, len(state)), and leaves `checked` false then; any other call
      evaluates and leaves `checked` true. Once `checked` is set, solve never reports
      IndexOutOfBounds again, whatever state it is given. */
  lemma SolveChecksOnce(f: FnView, s: seq<int>)
    ensures SolveOn(f, s).0 == Err(IndexOutOfBounds) <==> !f.checked && !InBounds(f.expression, |s|)
    ensures SolveOn(f, s).1 == f.(checked := f.checked || InBounds(f.expression, |s|))
    ensures SolveOn(f, s).0 != Err(IndexOutOfBounds) ==> SolveOn(f, s).0 == Evaluate(f.expression, s)
    ensures f.checked ==> SolveOn(f, s) == (Evaluate(f.expression, s), f)
  {
    RunErrorKinds([], f.expression, s);
  }

  /** On a 0/1 state every result is 0 or 1. */
  lemma {:induction false} RunKeepsBits(stack: seq<int>, e: seq<Token>, s: seq<int>)
    requires AllBits(stack) && AllBits(s)
    ensures Run(stack, e, s).Ok? ==> AllBits(Run(stack, e, s).value)
    decreases |e|
  {
    if e != [] {
      match Push(stack, e[0], s)
      case Err(_) =>
      case Ok(st) =>
        assert AllBits(st);
        RunKeepsBits(st, e[1..], s);
    }
  }

  lemma EvaluateIsBit(e: seq<Token>, s: seq<int>)
    requires AllBits(s) && Evaluate(e, s).Ok?
    ensures IsBit(Evaluate(e, s).value)
  {
    RunKeepsBits([], e, s);
  }

  /** An expression ending in an operator yields 0 or 1 whatever the state holds. */
  lemma OperatorResultIsBit(e: seq<Token>, s: seq<int>)
    requires |e| > 0 && !e[|e| - 1].Index? && Evaluate(e, s).Ok?
    ensures IsBit(Evaluate(e, s).value)
  {
    var n := |e|;
    assert e == e[..n - 1] + [e[n - 1]];
    RunAppend([], e[..n - 1], [e[n - 1]], s);
    var st := Run([], e[..n - 1], s).value;
    assert [e[n - 1]][1..] == [];
  }

  /** One iteration of the stack loop, at position k of the expression. */
  lemma RunStep(stack: seq<int>, e: seq<Token>, k: nat, s: seq<int>, next: seq<int>)
    requires k < |e| && Push(stack, e[k], s) == Ok(next)
    ensures Run(stack, e[k..], s) == Run(next, e[k + 1..], s)
  {
    assert e[k..][0] == e[k] && e[k..][1..] == e[k + 1..];
  }

  /** An index within the state pushes that cell. */
  lemma PushIndex(stack: seq<int>, i: int, s: seq<int>)
    requires 0 <= i < |s|
    ensures Push(stack, Index(i), s) == Ok(stack + [s[i]])
  {
  }

  /** An operator replaces the top two values v1 (top) and v2 with their combination. */
  lemma PushOperator(rest: seq<int>, v2: int, v1: int, op: Token, s: seq<int>)
    requires !op.Index?
    ensures Push(rest + [v2, v1], op, s) == Ok(rest + [if op == Xor then TruthXor(v1, v2) else TruthAnd(v1, v2)])
  {
    var st := rest + [v2, v1];
    assert st[|st| - 1] == v1 && st[|st| - 2] == v2 && st[..|st| - 2] == rest;
  }

  /** `[0, '+', 1]` is accepted by the constructor: two operands, one operator. */
  lemma ParsePlusBetween()
    ensures Parse([IntToken(0), StrToken("+"), IntToken(1)]) == Ok([Index(0), Xor, Index(1)])
  {
    var plus, i0, i1 := StrToken("+"), IntToken(0), IntToken(1);
    var x0, x1 := Index(0), Index(1);
    var raw, e := [i0, plus, i1], [x0, Xor, x1];
    assert Translate(raw) == Ok(e) by {
      TranslateSnoc([], i0);
      TranslateSnoc([i0], plus);
      TranslateSnoc([i0, plus], i1);
      assert [] + [i0] == [i0] && [i0] + [plus] == [i0, plus] && [i0, plus] + [i1] == raw;
      assert [] + [x0] == [x0] && [x0] + [Xor] == [x0, Xor] && [x0, Xor] + [x1] == e;
      assert Translate([i0]) == Ok([x0]);
      assert Translate([i0, plus]) == Ok([x0, Xor]);
    }
    assert Balance(e) == 1 by {
      assert [] + [x0] == [x0] && [x0] + [Xor] == [x0, Xor] && [x0, Xor] + [x1] == e;
      BalanceSnoc([], x0);
      BalanceSnoc([x0], Xor);
      BalanceSnoc([x0, Xor], x1);
    }
  }

  /** `[0, '+', 1]` passes construction (two operands, one operator) but every solve on a
      state of two or more bits fails with stack underflow. */
  lemma UnderflowDespiteBalance(s: seq<int>)
    requires |s| >= 2
    ensures Parse([IntToken(0), StrToken("+"), IntToken(1)]) == Ok([Index(0), Xor, Index(1)])
    ensures SolveOn(FnView([Index(0), Xor, Index(1)], false), s).0 == Err(StackUnderflow)
  {
    ParsePlusBetween();
    var e := [Index(0), Xor, Index(1)];
    assert InBounds(e, |s|);
    PushIndex([], 0, s);
    assert [] + [s[0]] == [s[0]];
    RunStep([], e, 0, s, [s[0]]);
    assert e[0..] == e && e[1..][0] == Xor;
    assert Push([s[0]], Xor, s) == Err(StackUnderflow);
  }

  /** The truth tables of the tests: `[0, 1, '+']` and `[0, 1, '*']` on every pair of bits. */
  lemma TruthTables(a: int, b: int)
    requires IsBit(a) && IsBit(b)
    ensures Evaluate([Index(0), Index(1), Xor], [a, b]) == Ok(BitOf(a != b))
    ensures Evaluate([Index(0), Index(1), And], [a, b]) == Ok(BitOf(a == 1 && b == 1))
  {
    var s := [a, b];
    var x := [Index(0), Index(1), Xor];
    var y := [Index(0), Index(1), And];
    assert x[0..] == x && x[3..] == [] && y[0..] == y && y[3..] == [];
    TwoOperands(s, x);
    TwoOperands(s, y);
  }

  /** Both groupings of a three-way XOR give the same value on every state of length >= 3. */
  lemma XorGroupingIrrelevant(s: seq<int>)
    requires |s| >= 3
    ensures Evaluate([Index(0), Index(1), Index(2), Xor, Xor], s)
         == Evaluate([Index(0), Index(1), Xor, Index(2), Xor], s)
         == Ok(TruthXor(TruthXor(s[2], s[1]), s[0]))
  {
    var a, b, c := s[0], s[1], s[2];
    var y := [Index(0), Index(1), Xor, Index(2), Xor];
    assert y[0..] == y && y[5..] == [];
    ThreeOperands(s, [Index(0), Index(1), Index(2), Xor, Xor]);
    TwoOperands(s, y);
    var ab := TruthXor(b, a);
    PushIndex([ab], 2, s);
    assert [ab] + [c] == [] + [ab, c];
    RunStep([ab], y, 3, s, [ab, c]);
    PushOperator([], ab, c, Xor, s);
    assert [] + [TruthXor(c, ab)] == [TruthXor(c, ab)];
    RunStep([ab, c], y, 4, s, [TruthXor(c, ab)]);
  }

  /** `[0, 1, 2, '*', '+']` computes s0 XOR (s1 AND s2); `[0, 1, 2, '+', '*']` computes
      s0 AND (s1 XOR s2). */
  lemma MixedExpressions(s: seq<int>)
    requires |s| >= 3
    ensures Evaluate([Index(0), Index(1), Index(2), And, Xor], s) == Ok(TruthXor(TruthAnd(s[2], s[1]), s[0]))
    ensures Evaluate([Index(0), Index(1), Index(2), Xor, And], s) == Ok(TruthAnd(TruthXor(s[2], s[1]), s[0]))
  {
    ThreeOperands(s, [Index(0), Index(1), Index(2), And, Xor]);
    ThreeOperands(s, [Index(0), Index(1), Index(2), Xor, And]);
  }

  /** The first two tokens `0, 1` push s0 and s1; a third, an operator, combines them. */
  lemma TwoOperands(s: seq<int>, e: seq<Token>)
    requires |s| >= 2 && |e| >= 3 && e[0] == Index(0) && e[1] == Index(1) && !e[2].Index?
    ensures Run([], e, s) == Run([if e[2] == Xor then TruthXor(s[1], s[0]) else TruthAnd(s[1], s[0])], e[3..], s)
  {
    var a, b := s[0], s[1];
    assert e[0..] == e;
    PushIndex([], 0, s);
    assert [] + [a] == [a];
    RunStep([], e, 0, s, [a]);
    PushIndex([a], 1, s);
    assert [a] + [b] == [] + [a, b];
    RunStep([a], e, 1, s, [a, b]);
    PushOperator([], a, b, e[2], s);
    var v := if e[2] == Xor then TruthXor(b, a) else TruthAnd(b, a);
    assert [] + [v] == [v];
    RunStep([a, b], e, 2, s, [v]);
  }

  /** `0, 1, 2, op1, op2` computes s0 op2 (s1 op1 s2), with the operands in the order
      the stack pops them. */
  lemma ThreeOperands(s: seq<int>, e: seq<Token>)
    requires |s| >= 3 && |e| == 5 && e[0] == Index(0) && e[1] == Index(1) && e[2] == Index(2)
    requires !e[3].Index? && !e[4].Index?
    ensures var inner := if e[3] == Xor then TruthXor(s[2], s[1]) else TruthAnd(s[2], s[1]);
      Evaluate(e, s) == Ok(if e[4] == Xor then TruthXor(inner, s[0]) else TruthAnd(inner, s[0]))
  {
    var a, b, c := s[0], s[1], s[2];
    assert e[0..] == e && e[5..] == [];
    PushIndex([], 0, s);
    assert [] + [a] == [a];
    RunStep([], e, 0, s, [a]);
    PushIndex([a], 1, s);
    assert [a] + [b] == [a, b];
    RunStep([a], e, 1, s, [a, b]);
    PushIndex([a, b], 2, s);
    assert [a, b] + [c] == [a, b, c] == [a] + [b, c];
    RunStep([a, b], e, 2, s, [a, b, c]);
    var inner := if e[3] == Xor then TruthXor(c, b) else TruthAnd(c, b);
    PushOperator([a], b, c, e[3], s);
    RunStep([a, b, c], e, 3, s, [a] + [inner]);
    assert [a] + [inner] == [] + [a, inner];
    PushOperator([], a, inner, e[4], s);
    var outer := if e[4] == Xor then TruthXor(inner, a) else TruthAnd(inner, a);
    assert [] + [outer] == [outer];
    RunStep([a, inner], e, 4, s, [outer]);
  }

  /** The concrete expectations of the evaluation-order test. */
  lemma ExpressionOrderExamples()
    ensures Evaluate([Index(0), Index(1), Index(2), Xor, Xor], [0, 1, 0]) == Ok(1)
    ensures Evaluate([Index(0), Index(1), Xor, Index(2), Xor], [0, 1, 0]) == Ok(1)
    ensures Evaluate([Index(0), Index(1), Index(2), And, Xor], [1, 1, 0]) == Ok(1)
    ensures Evaluate([Index(0), Index(1), Index(2), And, Xor], [0, 1, 0]) == Ok(0)
    ensures Evaluate([Index(0), Index(1), Index(2), Xor, And], [1, 1, 0]) == Ok(1)
    ensures Evaluate([Index(0), Index(1), Index(2), Xor, And], [0, 1, 0]) == Ok(0)
  {
    XorGroupingIrrelevant([0, 1, 0]);
    MixedExpressions([1, 1, 0]);
    MixedExpressions([0, 1, 0]);
  }

  /** `FSRFunction([0, 1, '+']).solve([1])` fails its first bounds check. */
  lemma FirstSolveOnShortState()
    ensures SolveOn(FnView([Index(0), Index(1), Xor], false), [1]) ==
      (Err(IndexOutOfBounds), FnView([Index(0), Index(1), Xor], false))
  {
    assert [Index(0), Index(1), Xor][1] == Index(1);
  }

  /** The default output function reads the last cell, and marks itself checked. */
  lemma DefaultOutSolves(s: seq<int>, checked: bool)
    requires |s| >= 1
    ensures SolveOn(FnView([Index(|s| - 1)], checked), s) == (Ok(s[|s| - 1]), FnView([Index(|s| - 1)], true))
  {
    var e := [Index(|s| - 1)];
    assert InBounds(e, |s|);
    assert e[1..] == [];
    assert [] + [s[|s| - 1]] == [s[|s| - 1]];
    assert Push([], e[0], s) == Ok([s[|s| - 1]]);
    assert Run([], e, s) == Run([s[|s| - 1]], [], s);
  }

  /** The bounds check rejects a negative index whatever the state's length, so an
      unchecked function holding one fails every solve and never becomes checked. */
  lemma NegativeIndexNeverChecked(f: FnView, s: seq<int>, k: int)
    requires !f.checked && 0 <= k < |f.expression| && f.expression[k].Index? && f.expression[k].i < 0
    ensures SolveOn(f, s) == (Err(IndexOutOfBounds), f)
  {
  }

  /** What does slip past the one-time check is an index that is too large for a later,
      shorter state: `[2]` checked on three cells raises IndexError on one cell. */
  lemma CheckedOnLongerState()
    ensures SolveOn(FnView([Index(2)], false), [0, 0, 1]) == (Ok(1), FnView([Index(2)], true))
    ensures SolveOn(FnView([Index(2)], true), [0]) == (Err(IndexError), FnView([Index(2)], true))
  {
    DefaultOutSolves([0, 0, 1], false);
    assert [Index(2)][0] == Index(2);
    assert Push([], Index(2), [0]) == Err(IndexError);
  }

  /** An expression without index tokens has no operands. */
  lemma {:induction false} NoIndexNoOperands(e: seq<Token>)
    requires forall k :: 0 <= k < |e| ==> !e[k].Index?
    ensures Operands(e) == 0
  {
    if e != [] {
      NoIndexNoOperands(e[..|e| - 1]);
    }
  }

  /** A balanced expression reads at least one cell, so solve fails on an empty state,
      checked or not. */
  lemma SolveFailsOnEmpty(f: FnView)
    requires Balance(f.expression) == 1
    ensures SolveOn(f, []).0.Err?
  {
    var e := f.expression;
    if forall k :: 0 <= k < |e| ==> !e[k].Index? {
      NoIndexNoOperands(e);
      assert false;
    }
    var k :| 0 <= k < |e| && e[k].Index?;
    RunSucceedsIff([], e, []);
    assert !LookupsSucceed(e, []);
  }
}
