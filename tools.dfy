/** pyfsr/tools.py: the in-place right rotation of a list and the guarded
    integer XOR / AND helpers. */
module Tools {
  import opened Common

  /** `roll(l)`: rotates the list right by one in place and returns the same list.
      `l[-1]` raises IndexError on an empty list before anything is written. */
  method Roll(l: array<int>) returns (r: Result<array<int>>)
    modifies l
    ensures l.Length == 0 ==> r == Err(IndexError) && l[..] == old(l[..])
    ensures l.Length > 0 ==> r == Ok(l) && l[..] == RotateRight(old(l[..]))
  {
    if l.Length == 0 {
      return Err(IndexError);
    }
    var tmp1, tmp2 := l[..l.Length - 1], l[l.Length - 1];
    // the slice assignment l[1:] = tmp1
    forall k | 1 <= k < l.Length {
      l[k] := tmp1[k - 1];
    }
    l[0] := tmp2;
    assert l[..] == [tmp2] + tmp1;
    r := Ok(l);
  }

  /** The docstring's example: roll([0,1,1]) gives [1,0,1]. */
  method RollExample() returns (l: array<int>)
    ensures l[..] == [1, 0, 1]
  {
    l := new int[3];
    l[0], l[1], l[2] := 0, 1, 1;
    var r := Roll(l);
  }

  function Abs(x: int): nat { if x < 0 then -x else x }

  /** An integer whose two's-complement bits are all equal (0 or -1). */
  predicate IsSign(a: int) { a == 0 || a == -1 }

  lemma HalfShrinks(a: int)
    ensures Abs(a / 2) <= Abs(a)
    ensures !IsSign(a) ==> Abs(a / 2) < Abs(a)
    ensures IsSign(a) ==> a / 2 == a
  {
  }

  /** Python's `a ^ b` on unbounded integers: bitwise XOR of the infinitely
      sign-extended two's-complement representations. Dafny's `/` and `%` by 2
      floor, like Python's `>>` and `& 1`. */
  function BitXor(a: int, b: int): (r: int)
    ensures a >= 0 && b >= 0 ==> r >= 0
    ensures IsBit(a) && IsBit(b) ==> r == BitOf(a != b)
    decreases Abs(a) + Abs(b)
  {
    if IsSign(a) && IsSign(b) then (if a == b then 0 else -1)
    else
      HalfShrinks(a); HalfShrinks(b);
      2 * BitXor(a / 2, b / 2) + BitOf(a % 2 != b % 2)
  }

  /** Python's `a & b` on unbounded integers. */
  function BitAnd(a: int, b: int): (r: int)
    ensures a >= 0 ==> 0 <= r <= a
    ensures IsBit(a) && IsBit(b) ==> r == BitOf(a == 1 && b == 1)
    decreases Abs(a) + Abs(b)
  {
    if IsSign(a) && IsSign(b) then (if a == -1 && b == -1 then -1 else 0)
    else
      HalfShrinks(a); HalfShrinks(b);
      2 * BitAnd(a / 2, b / 2) + BitOf(a % 2 == 1 && b % 2 == 1)
  }

  /** The recursive step of BitXor holds for every pair, sign pairs included. */
  lemma XorUnfold(a: int, b: int)
    ensures BitXor(a, b) == 2 * BitXor(a / 2, b / 2) + BitOf(a % 2 != b % 2)
  {
  }

  lemma AndUnfold(a: int, b: int)
    ensures BitAnd(a, b) == 2 * BitAnd(a / 2, b / 2) + BitOf(a % 2 == 1 && b % 2 == 1)
  {
  }

  /** XOR with the same operand undoes itself: (a ^ b) ^ b == a for all integers. */
  lemma {:induction false} XorSelfInverse(a: int, b: int)
    ensures BitXor(BitXor(a, b), b) == a
    decreases Abs(a) + Abs(b)
  {
    var c := BitXor(a, b);
    if IsSign(a) && IsSign(b) {
      assert IsSign(c);
    } else {
      HalfShrinks(a); HalfShrinks(b);
      XorSelfInverse(a / 2, b / 2);
      XorUnfold(c, b);
      assert c / 2 == BitXor(a / 2, b / 2) && c % 2 == BitOf(a % 2 != b % 2);
    }
  }

  /** AND of a value with itself is the value. */
  lemma {:induction false} AndIdempotent(a: int)
    ensures BitAnd(a, a) == a
    decreases Abs(a)
  {
    if !IsSign(a) {
      HalfShrinks(a);
      AndIdempotent(a / 2);
    }
  }

  /** `logical_xor(a, b, unsafe)`: unless `unsafe`, rejects operands whose sum lies
      outside [0, 2]; returns `a ^ b`, which on bits is the XOR truth table. */
  function LogicalXor(a: int, b: int, unsafe: bool): (r: Result<int>)
    ensures r.Err? <==> !unsafe && !(0 <= a + b <= 2)
    ensures IsBit(a) && IsBit(b) ==> r == Ok(BitOf(a != b))
    ensures r.Ok? ==> r.value == BitXor(a, b)
  {
    if !unsafe && (a + b > 2 || a + b < 0) then Err(InvalidOperands) else Ok(BitXor(a, b))
  }

  /** `logical_and(a, b, unsafe)`: same guard, returns `a & b`, which on bits is the
      AND truth table. */
  function LogicalAnd(a: int, b: int, unsafe: bool): (r: Result<int>)
    ensures r.Err? <==> !unsafe && !(0 <= a + b <= 2)
    ensures IsBit(a) && IsBit(b) ==> r == Ok(BitOf(a == 1 && b == 1))
    ensures r.Ok? ==> r.value == BitAnd(a, b)
  {
    if !unsafe && (a + b > 2 || a + b < 0) then Err(InvalidOperands) else Ok(BitAnd(a, b))
  }

  /** On 0/1 operands both helpers agree, in either mode, with the numpy operators
      the evaluator uses. */
  lemma HelpersOnBits(a: int, b: int, unsafe: bool)
    requires IsBit(a) && IsBit(b)
    ensures LogicalXor(a, b, unsafe) == Ok(TruthXor(a, b))
    ensures LogicalAnd(a, b, unsafe) == Ok(TruthAnd(a, b))
  {
  }

  /** The guard lets non-bits through: (2, 0) is accepted and XOR yields 2, AND yields 0;
      (3, -1) is accepted too. */
  lemma GuardAdmitsNonBits()
    ensures LogicalXor(2, 0, false) == Ok(2)
    ensures LogicalAnd(2, 0, false) == Ok(0)
    ensures LogicalXor(3, -1, false).Ok? && LogicalXor(3, -1, false).value == -4
  {
    XorUnfold(2, 0);
    XorUnfold(1, 0);
    AndUnfold(2, 0);
    XorUnfold(3, -1);
    XorUnfold(1, -1);
  }
}
