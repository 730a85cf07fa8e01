/** Shared vocabulary of the register engine: the error kinds the Python code raises,
    failure-compatible result types, Python/numpy indexing, numpy's boolean operators
    on integers, right rotation, and the polynomial helpers (max, min, descending sort). */
module Common {

  /** Every exception the core can raise, one constructor per distinct cause. */
  datatype FsrError =
    | UnknownToken          // FSRFunction: a token that is neither an int nor '+' / '*'
    | UnbalancedExpression  // FSRFunction: #operands - #operators != 1
    | IndexOutOfBounds      // FSRFunction: the one-time bounds check of solve
    | IndexError            // a Python/numpy lookup outside the sequence
    | StackUnderflow        // solve: an operator with fewer than two values on the stack
    | TooManyValues         // solve: more than one value left at the end
    | UnknownSeedString     // initstate is a string other than "ones" / "random"
    | UnknownSeedType       // initstate is neither a list nor a string
    | InvalidSize           // NLFSR: a string seed without an int size >= 1
    | UnknownFeedback       // LFSR: feedback other than "internal" / "external"
    | PolyTooShort          // LFSR check: fewer than two taps
    | NonPositiveTap        // LFSR check: a tap below 1
    | DegreeMismatch        // LFSR check: max(poly) != len(initstate)
    | DegreeChanged         // change_poly: max of the new poly differs from the old one
    | EmptyReduction        // numpy: max of an empty list
    | NegativeDimension     // numpy: an array of negative length
    | InvalidOperands       // tools: logical_xor / logical_and guard

  datatype Option<T> = None | Some(value: T)

  datatype Result<T> = Ok(value: T) | Err(error: FsrError) {
    predicate IsFailure() { Err? }
    function PropagateFailure<U>(): Result<U> requires Err? { Err(error) }
    function Extract(): T requires Ok? { value }
  }

  datatype Outcome = Pass | Fail(error: FsrError)

  /** How a register is seeded: a Python list, a keyword string, or any other value. */
  datatype Seed = ListSeed(bits: seq<int>) | StringSeed(word: string) | OtherSeed

  /** Python and numpy subscription `s[i]` of a sequence of length n: negative indices count
      from the end; anything else outside the sequence raises IndexError (None). */
  function PyIndex(n: nat, i: int): (r: Option<nat>)
    ensures r.Some? <==> 0 <= i + n && i < n
    ensures r.Some? ==> r.value < n && (r.value == i || r.value == n + i)
  {
    if 0 <= i < n then Some(i) else if i < 0 && 0 <= i + n then Some(n + i) else None
  }

  /** numpy truthiness of an integer. */
  predicate Truthy(v: int) { v != 0 }

  function BitOf(b: bool): int { if b then 1 else 0 }

  /** `np.logical_xor(a, b) * 1`. */
  function TruthXor(a: int, b: int): (r: int)
    ensures r == 0 || r == 1
    ensures r == 1 <==> Truthy(a) != Truthy(b)
  {
    BitOf(Truthy(a) != Truthy(b))
  }

  /** `np.logical_and(a, b) * 1`. */
  function TruthAnd(a: int, b: int): (r: int)
    ensures r == 0 || r == 1
    ensures r == 1 <==> Truthy(a) && Truthy(b)
  {
    BitOf(Truthy(a) && Truthy(b))
  }

  predicate IsBit(v: int) { v == 0 || v == 1 }

  predicate AllBits(s: seq<int>) { forall k :: 0 <= k < |s| ==> IsBit(s[k]) }

  /** `np.roll(s, 1)`: the last element moves to the front. */
  function RotateRight(s: seq<int>): (r: seq<int>)
    ensures |r| == |s|
  {
    if |s| == 0 then [] else [s[|s| - 1]] + s[..|s| - 1]
  }

  /** Rotation read through modular indexing, an independent definition of the same
      permutation: position i holds the element that stood one place to its left. */
  lemma RotateRightIndex(s: seq<int>)
    ensures |RotateRight(s)| == |s|
    ensures forall i :: 0 <= i < |s| ==> RotateRight(s)[i] == s[(i + |s| - 1) % |s|]
  {
    if |s| > 0 {
      forall i | 0 <= i < |s| ensures RotateRight(s)[i] == s[(i + |s| - 1) % |s|] {
        if i == 0 {
          assert (|s| - 1) % |s| == |s| - 1;
        } else {
          assert (i + |s| - 1) % |s| == i - 1 by {
            assert i + |s| - 1 == 1 * |s| + (i - 1);
          }
        }
      }
    }
  }

  /** `np.ones(n)` cast to int. */
  function Ones(n: nat): (r: seq<int>)
    ensures |r| == n && forall k :: 0 <= k < n ==> r[k] == 1
  {
    seq(n, _ => 1)
  }

  /** `np.random.randint(0, 2, n)` with the draws supplied by the caller. */
  function Draw(coins: nat -> bool, n: nat): (r: seq<int>)
    ensures |r| == n && AllBits(r)
    ensures forall k :: 0 <= k < n ==> r[k] == BitOf(coins(k))
  {
    if n == 0 then [] else Draw(coins, n - 1) + [BitOf(coins(n - 1))]
  }

  function Max(s: seq<int>): (m: int)
    requires |s| > 0
    ensures m in s && forall k :: 0 <= k < |s| ==> s[k] <= m
  {
    if |s| == 1 then s[0]
    else var rest := Max(s[1..]); if s[0] >= rest then s[0] else rest
  }

  function Min(s: seq<int>): (m: int)
    requires |s| > 0
    ensures m in s && forall k :: 0 <= k < |s| ==> m <= s[k]
  {
    if |s| == 1 then s[0]
    else var rest := Min(s[1..]); if s[0] <= rest then s[0] else rest
  }

  predicate SortedDesc(s: seq<int>) { forall i, j :: 0 <= i < j < |s| ==> s[i] >= s[j] }

  /** Inserts x into a descending sequence, before the first element it is not below. */
  function InsertDesc(x: int, s: seq<int>): (r: seq<int>)
    requires SortedDesc(s)
    ensures SortedDesc(r) && multiset(r) == multiset(s) + multiset{x}
    ensures |r| == |s| + 1
  {
    if |s| == 0 || x >= s[0] then [x] + s
    else
      var tail := InsertDesc(x, s[1..]);
      assert s == [s[0]] + s[1..];
      HeadBoundsAll(s[0], x, s[1..], tail);
      [s[0]] + tail
  }

  /** An upper bound of x and of every element of t bounds any rearrangement of them. */
  lemma HeadBoundsAll(h: int, x: int, t: seq<int>, r: seq<int>)
    requires x <= h && (forall k :: 0 <= k < |t| ==> t[k] <= h)
    requires multiset(r) == multiset(t) + multiset{x}
    ensures forall k :: 0 <= k < |r| ==> r[k] <= h
  {
    forall k | 0 <= k < |r| ensures r[k] <= h {
      assert r[k] in multiset(r);
      if r[k] != x {
        assert r[k] in multiset(t);
        var m :| 0 <= m < |t| && t[m] == r[k];
      }
    }
  }

  /** `list.sort(reverse=True)` on a list of ints, as a value. */
  function SortDesc(s: seq<int>): (r: seq<int>)
    ensures SortedDesc(r) && multiset(r) == multiset(s) && |r| == |s|
  {
    if |s| == 0 then []
    else
      assert s == [s[0]] + s[1..];
      InsertDesc(s[0], SortDesc(s[1..]))
  }

  /** Sorting keeps the largest tap in front, so max(sorted) is its first element. */
  lemma SortDescHeadIsMax(s: seq<int>)
    requires |s| > 0
    ensures SortDesc(s)[0] == Max(s)
  {
    var r := SortDesc(s);
    assert r[0] in multiset(s);
    assert Max(s) in multiset(r);
  }

  /** In a descending sequence the first element is the maximum. */
  lemma SortedHeadIsMax(s: seq<int>)
    requires SortedDesc(s) && |s| > 0
    ensures s[0] == Max(s)
  {
  }

  /** Sorting an already sorted list changes nothing (reset sorts the stored poly again). */
  lemma {:induction false} SortDescIdempotent(s: seq<int>)
    requires SortedDesc(s)
    ensures SortDesc(s) == s
  {
    if |s| > 0 {
      SortDescIdempotent(s[1..]);
      assert s == [s[0]] + s[1..];
    }
  }

  /** `np.ones(n)` for a non-negative n: a fresh buffer of n ones. */
  method NewOnes(n: nat) returns (a: array<int>)
    ensures fresh(a) && a.Length == n && forall k :: 0 <= k < n ==> a[k] == 1
  {
    a := new int[n](_ => 1);
  }
}
