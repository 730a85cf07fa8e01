/** pyfsr/fsr_function.py: a boolean function over a register state, written in reverse
    Polish notation over state indices and the operators '+' (XOR) and '*' (AND). */
module FsrFunction {
  import opened Common

  /** A token as the caller passes it: a Python int (bools count as ints), a string,
      or any other value. */
  datatype RawToken = IntToken(n: int) | StrToken(s: string) | OtherToken

  /** A stored token. Indices are any ints: their range is only checked by solve. */
  datatype Token = Index(i: int) | Xor | And

  function Recognise(t: RawToken): Option<Token>
  {
    match t
    case IntToken(n) => Some(Index(n))
    case StrToken(s) => if s == "+" then Some(Xor) else if s == "*" then Some(And) else None
    case OtherToken => None
  }

  // ---------------------------------------------------------------------------
  // Construction

  function Operands(e: seq<Token>): nat
  {
    if e == [] then 0 else Operands(e[..|e| - 1]) + (if e[|e| - 1].Index? then 1 else 0)
  }

  function Operators(e: seq<Token>): nat
  {
    if e == [] then 0 else Operators(e[..|e| - 1]) + (if e[|e| - 1].Index? then 0 else 1)
  }

  /** Stack effect of an expression: operands minus operators. */
  function Balance(e: seq<Token>): int { Operands(e) - Operators(e) }

  function Delta(t: Token): int { if t.Index? then 1 else -1 }

  /** The raw counts kept by the constructor: int tokens and '+' / '*' tokens. */
  function RawOperands(raw: seq<RawToken>): nat
  {
    if raw == [] then 0 else RawOperands(raw[..|raw| - 1]) + (if raw[|raw| - 1].IntToken? then 1 else 0)
  }

  function RawOperators(raw: seq<RawToken>): nat
  {
    if raw == [] then 0
    else RawOperators(raw[..|raw| - 1]) + (if raw[|raw| - 1] in {StrToken("+"), StrToken("*")} then 1 else 0)
  }

  /** Token-by-token translation; any unrecognised token makes it fail. */
  function Translate(raw: seq<RawToken>): Result<seq<Token>>
  {
    if raw == [] then Ok([])
    else match Translate(raw[..|raw| - 1])
      case Err(e) => Err(e)
      case Ok(ts) =>
        match Recognise(raw[|raw| - 1])
        case None => Err(UnknownToken)
        case Some(t) => Ok(ts + [t])
  }

  /** What `FSRFunction(expression)` accepts and stores. */
  function Parse(raw: seq<RawToken>): (r: Result<seq<Token>>)
    ensures r.Ok? ==> Balance(r.value) == 1
    ensures r.Err? ==> r.error == UnknownToken || r.error == UnbalancedExpression
  {
    TranslateOnlyUnknown(raw);
    match Translate(raw)
    case Err(e) => Err(e)
    case Ok(ts) => if Balance(ts) == 1 then Ok(ts) else Err(UnbalancedExpression)
  }

  lemma {:induction false} TranslateErrPersists(raw: seq<RawToken>, i: nat)
    requires i <= |raw| && Translate(raw[..i]).Err?
    ensures Translate(raw) == Err(UnknownToken)
    decreases |raw| - i
  {
    if i == |raw| {
      assert raw[..i] == raw;
      TranslateOnlyUnknown(raw);
    } else {
      assert raw[..i + 1][..i] == raw[..i];
      TranslateOnlyUnknown(raw[..i]);
      TranslateErrPersists(raw, i + 1);
    }
  }

  lemma {:induction false} TranslateOnlyUnknown(raw: seq<RawToken>)
    ensures Translate(raw).Err? ==> Translate(raw) == Err(UnknownToken)
  {
    if raw != [] {
      TranslateOnlyUnknown(raw[..|raw| - 1]);
    }
  }

  /** The constructor's loop: appends each recognised token and counts operands and
      operators; an unknown token raises at once, an unbalanced count at the end. */
  method ValidateTokens(raw: seq<RawToken>) returns (r: Result<seq<Token>>)
    ensures r == Parse(raw)
  {
    var expression: seq<Token> := [];
    var operandsCount, operatorsCount := 0, 0;
    var i := 0;
    while i < |raw|
      invariant 0 <= i <= |raw|
      invariant Translate(raw[..i]) == Ok(expression)
      invariant operandsCount == Operands(expression) && operatorsCount == Operators(expression)
    {
      var token := raw[i];
      assert raw[..i + 1][..i] == raw[..i];
      if token.IntToken? {
        operandsCount := operandsCount + 1;
        expression := expression + [Index(token.n)];
      } else if token == StrToken("+") || token == StrToken("*") {
        operatorsCount := operatorsCount + 1;
        expression := expression + [if token == StrToken("+") then Xor else And];
      } else {
        TranslateErrPersists(raw, i + 1);
        return Err(UnknownToken);
      }
      assert (expression)[..|expression| - 1] == expression[..|expression| - 1];
      i := i + 1;
    }
    assert raw[..i] == raw;
    if operandsCount - operatorsCount != 1 {
      return Err(UnbalancedExpression);
    }
    r := Ok(expression);
  }

  lemma {:induction false} TranslateShape(raw: seq<RawToken>)
    ensures Translate(raw).Ok? <==> forall k :: 0 <= k < |raw| ==> Recognise(raw[k]).Some?
    ensures Translate(raw).Ok? ==>
      |Translate(raw).value| == |raw| &&
      forall k :: 0 <= k < |raw| ==> Recognise(raw[k]) == Some(Translate(raw).value[k])
  {
    if raw != [] {
      var init, last := raw[..|raw| - 1], raw[|raw| - 1];
      TranslateShape(init);
      assert forall k :: 0 <= k < |init| ==> init[k] == raw[k];
    }
  }

  lemma {:induction false} TranslateCounts(raw: seq<RawToken>)
    ensures Translate(raw).Ok? ==>
      Operands(Translate(raw).value) == RawOperands(raw) &&
      Operators(Translate(raw).value) == RawOperators(raw)
  {
    if raw != [] && Translate(raw).Ok? {
      var init := raw[..|raw| - 1];
      TranslateCounts(init);
      var ts := Translate(raw).value;
      assert ts[..|ts| - 1] == Translate(init).value;
    }
  }

  /** Construction accepts exactly the token lists made only of ints, '+' and '*' with one
      more int than operators; an accepted list is stored token for token, in order. */
  lemma ParseAcceptsIff(raw: seq<RawToken>)
    ensures Parse(raw).Ok? <==>
      (forall k :: 0 <= k < |raw| ==> Recognise(raw[k]).Some?) &&
      RawOperands(raw) - RawOperators(raw) == 1
    ensures (exists k :: 0 <= k < |raw| && Recognise(raw[k]).None?) ==> Parse(raw) == Err(UnknownToken)
    ensures Parse(raw).Ok? ==>
      |Parse(raw).value| == |raw| &&
      forall k :: 0 <= k < |raw| ==> Recognise(raw[k]) == Some(Parse(raw).value[k])
  {
    TranslateShape(raw);
    TranslateCounts(raw);
    TranslateOnlyUnknown(raw);
  }

  /** Rejected: two operands and no operator. */
  lemma ParseRejectsMissingOperator()
    ensures Parse([IntToken(0), IntToken(1)]) == Err(UnbalancedExpression)
  {
    TranslateSnoc([], IntToken(0));
    TranslateSnoc([IntToken(0)], IntToken(1));
    BalanceSnoc([], Index(0));
    BalanceSnoc([Index(0)], Index(1));
  }

  /** Rejected: an operator short of operands. */
  lemma ParseRejectsMissingOperand()
    ensures Parse([IntToken(0), StrToken("+")]) == Err(UnbalancedExpression)
  {
    TranslateSnoc([], IntToken(0));
    TranslateSnoc([IntToken(0)], StrToken("+"));
    BalanceSnoc([], Index(0));
    BalanceSnoc([Index(0)], Xor);
  }

  /** Rejected: one operator too many. */
  lemma ParseRejectsSurplusOperator()
    ensures Parse([IntToken(0), IntToken(1), StrToken("+"), StrToken("+")]) == Err(UnbalancedExpression)
  {
    var plus, i0, i1 := StrToken("+"), IntToken(0), IntToken(1);
    TranslateSnoc([], i0);
    TranslateSnoc([i0], i1);
    TranslateSnoc([i0, i1], plus);
    TranslateSnoc([i0, i1, plus], plus);
    assert [i0, i1] + [plus] == [i0, i1, plus] && [i0, i1, plus] + [plus] == [i0, i1, plus, plus];
    var x0, x1 := Index(0), Index(1);
    BalanceSnoc([], x0);
    BalanceSnoc([x0], x1);
    BalanceSnoc([x0, x1], Xor);
    BalanceSnoc([x0, x1, Xor], Xor);
    assert [x0, x1] + [Xor] == [x0, x1, Xor] && [x0, x1, Xor] + [Xor] == [x0, x1, Xor, Xor];
  }

  /** Rejected: an operator string other than "+" and "*". */
  lemma ParseRejectsUnknownOperator()
    ensures Parse([IntToken(0), StrToken("xor")]) == Err(UnknownToken)
  {
    TranslateSnoc([], IntToken(0));
    TranslateSnoc([IntToken(0)], StrToken("xor"));
  }

  /** A balanced XOR chain is accepted and stored as given. */
  lemma ParseAcceptsExample()
    ensures Parse([IntToken(0), IntToken(1), IntToken(2), StrToken("+"), StrToken("+")])
         == Ok([Index(0), Index(1), Index(2), Xor, Xor])
  {
    var plus, i0, i1, i2 := StrToken("+"), IntToken(0), IntToken(1), IntToken(2);
    TranslateSnoc([], i0);
    TranslateSnoc([i0], i1);
    TranslateSnoc([i0, i1], i2);
    TranslateSnoc([i0, i1, i2], plus);
    TranslateSnoc([i0, i1, i2, plus], plus);
    assert [] + [i0] == [i0] && [i0] + [i1] == [i0, i1];
    assert [i0, i1] + [i2] == [i0, i1, i2] && [i0, i1, i2] + [plus] == [i0, i1, i2, plus];
    assert [i0, i1, i2, plus] + [plus] == [i0, i1, i2, plus, plus];
    var x0, x1, x2 := Index(0), Index(1), Index(2);
    assert [] + [x0] == [x0] && [x0] + [x1] == [x0, x1];
    assert [x0, x1] + [x2] == [x0, x1, x2] && [x0, x1, x2] + [Xor] == [x0, x1, x2, Xor];
    assert [x0, x1, x2, Xor] + [Xor] == [x0, x1, x2, Xor, Xor];
    assert Translate([i0]) == Ok([x0]);
    assert Translate([i0, i1]) == Ok([x0, x1]);
    assert Translate([i0, i1, i2]) == Ok([x0, x1, x2]);
    assert Translate([i0, i1, i2, plus]) == Ok([x0, x1, x2, Xor]);
    assert Translate([i0, i1, i2, plus, plus]) == Ok([x0, x1, x2, Xor, Xor]);
    BalanceSnoc([], x0);
    BalanceSnoc([x0], x1);
    BalanceSnoc([x0, x1], x2);
    BalanceSnoc([x0, x1, x2], Xor);
    BalanceSnoc([x0, x1, x2, Xor], Xor);
    assert [x0, x1] + [x2] == [x0, x1, x2] && [x0, x1, x2] + [Xor] == [x0, x1, x2, Xor];
    assert [x0, x1, x2, Xor] + [Xor] == [x0, x1, x2, Xor, Xor];
  }

  lemma TranslateSnoc(a: seq<RawToken>, x: RawToken)
    ensures Translate(a + [x]) ==
      match Translate(a)
      case Err(e) => Err(e)
      case Ok(ts) => (match Recognise(x) case None => Err(UnknownToken) case Some(t) => Ok(ts + [t]))
  {
    assert (a + [x])[..|a|] == a;
  }

  lemma BalanceSnoc(e: seq<Token>, t: Token)
    ensures Balance(e + [t]) == Balance(e) + Delta(t)
  {
    assert (e + [t])[..|e|] == e;
  }

  // ---------------------------------------------------------------------------
  // Evaluation

  /** One token of the stack machine: an index pushes the state value, an operator pops
      two values (val1 first) and pushes their numpy XOR / AND as 0 or 1. */
  function Push(stack: seq<int>, t: Token, s: seq<int>): (r: Result<seq<int>>)
    ensures r.Ok? ==> |r.value| == |stack| + Delta(t)
    ensures r.Err? ==> (r.error == IndexError && t.Index?) || (r.error == StackUnderflow && !t.Index?)
  {
    match t
    case Index(i) =>
      (match PyIndex(|s|, i)
       case None => Err(IndexError)
       case Some(j) => Ok(stack + [s[j]]))
    case _ =>
      if |stack| < 2 then Err(StackUnderflow)
      else
        var val1, val2 := stack[|stack| - 1], stack[|stack| - 2];
        Ok(stack[..|stack| - 2] + [if t == Xor then TruthXor(val1, val2) else TruthAnd(val1, val2)])
  }

  function Run(stack: seq<int>, e: seq<Token>, s: seq<int>): (r: Result<seq<int>>)
    ensures r.Err? ==> r.error == IndexError || r.error == StackUnderflow
    decreases |e|
  {
    if e == [] then Ok(stack)
    else match Push(stack, e[0], s)
      case Err(err) => Err(err)
      case Ok(st) => Run(st, e[1..], s)
  }

  /** The value `solve` returns once the bounds check is behind it. */
  function Evaluate(e: seq<Token>, s: seq<int>): (r: Result<int>)
    ensures r.Err? ==> r.error == IndexError || r.error == StackUnderflow || r.error == TooManyValues
  {
    match Run([], e, s)
    case Err(err) => Err(err)
    case Ok(st) => if |st| == 1 then Ok(st[0]) else Err(TooManyValues)
  }

  /** Every index token lies in [0, n). */
  predicate InBounds(e: seq<Token>, n: int)
  {
    forall k :: 0 <= k < |e| && e[k].Index? ==> 0 <= e[k].i < n
  }

  /** The abstract value of an FSRFunction object. */
  datatype FnView = FnView(expression: seq<Token>, checked: bool)

  /** `solve(state)`: the one-time bounds check while `checked` is false, then the stack
      machine; returns the result and the function's new view. */
  function SolveOn(f: FnView, s: seq<int>): (r: (Result<int>, FnView))
    ensures r.1.expression == f.expression
    ensures r.1.checked <==> f.checked || InBounds(f.expression, |s|)
    ensures r.0 == Err(IndexOutOfBounds) <==> !f.checked && !InBounds(f.expression, |s|)
  {
    if !f.checked && !InBounds(f.expression, |s|) then (Err(IndexOutOfBounds), f)
    else (Evaluate(f.expression, s), f.(checked := true))
  }

  /** The stack loop of solve. */
  method EvaluateStack(e: seq<Token>, s: seq<int>) returns (r: Result<int>)
    ensures r == Evaluate(e, s)
  {
    var stack: seq<int> := [];
    var i := 0;
    while i < |e|
      invariant 0 <= i <= |e|
      invariant Run([], e, s) == Run(stack, e[i..], s)
    {
      var token := e[i];
      assert e[i..][1..] == e[i + 1..];
      if token.Index? {
        var j := PyIndex(|s|, token.i);
        if j.None? {
          return Err(IndexError);
        }
        stack := stack + [s[j.value]];
      } else {
        if |stack| < 2 {
          return Err(StackUnderflow);
        }
        var val1 := stack[|stack| - 1];
        var val2 := stack[|stack| - 2];
        stack := stack[..|stack| - 2];
        stack := stack + [if token == Xor then TruthXor(val1, val2) else TruthAnd(val1, val2)];
      }
      i := i + 1;
    }
    if |stack| != 1 {
      return Err(TooManyValues);
    }
    r := Ok(stack[0]);
  }

  /** The default output function of both registers, `FSRFunction([n - 1])` for a
      register of n cells: it reads the last cell. */
  function DefaultOut(n: int): (r: FnView)
    ensures !r.checked && (InBounds(r.expression, n) <==> n >= 1)
  {
    var e := [Index(n - 1)];
    assert e[0] == Index(n - 1) && |e| == 1;
    FnView(e, false)
  }

  lemma DefaultOutBalanced(n: int)
    ensures Balance(DefaultOut(n).expression) == 1
  {
    assert [Index(n - 1)] == [] + [Index(n - 1)];
    BalanceSnoc([], Index(n - 1));
  }


  class FSRFunction {
    const expression: seq<Token>
    var checked: bool

    ghost predicate Valid() { Balance(expression) == 1 }

    function View(): FnView reads this { FnView(expression, checked) }

    constructor (tokens: seq<Token>)
      requires Balance(tokens) == 1
      ensures Valid() && expression == tokens && !checked
    {
      expression := tokens;
      checked := false;
    }

    /** `FSRFunction(expression)`: fails exactly when Parse does. */
    static method Create(raw: seq<RawToken>) returns (r: Result<FSRFunction>)
      ensures Parse(raw).Err? ==> r == Err(Parse(raw).error)
      ensures Parse(raw).Ok? ==>
        r.Ok? && fresh(r.value) && r.value.Valid() &&
        r.value.View() == FnView(Parse(raw).value, false)
    {
      var tokens := ValidateTokens(raw);
      if tokens.Err? {
        return Err(tokens.error);
      }
      var f := new FSRFunction(tokens.value);
      r := Ok(f);
    }

    /** `__check(fsr_size)`: raises on an index outside [0, size), else sets `checked`. */
    method Check(size: int) returns (ok: bool)
      modifies this`checked
      ensures ok == InBounds(expression, size)
      ensures checked == (old(checked) || ok)
    {
      var i := 0;
      while i < |expression|
        invariant 0 <= i <= |expression|
        invariant forall k :: 0 <= k < i && expression[k].Index? ==> 0 <= expression[k].i < size
      {
        var token := expression[i];
        if token.Index? && (token.i > size - 1 || token.i < 0) {
          return false;
        }
        i := i + 1;
      }
      checked := true;
      ok := true;
    }

    /** `solve(fsr_state)`. */
    method Solve(s: seq<int>) returns (r: Result<int>)
      modifies this`checked
      ensures (r, View()) == SolveOn(old(View()), s)
    {
      if !checked {
        var ok := Check(|s|);
        if !ok {
          return Err(IndexOutOfBounds);
        }
      }
      r := EvaluateStack(expression, s);
    }
  }

  /** `FSRFunction([n - 1])`, the default output function. */
  method NewDefaultOut(n: int) returns (f: FSRFunction)
    ensures fresh(f) && f.Valid() && f.View() == DefaultOut(n)
  {
    DefaultOutBalanced(n);
    f := new FSRFunction([Index(n - 1)]);
  }
}
