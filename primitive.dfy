/**
 * The variadic primitives of src/primitive: `add_numbers`,
 * `multiply_numbers` and `minmax`.
 *
 * A C call `f(count, x0, x1, ...)` reads its `count` trailing `double`
 * arguments with `va_arg`; here those arguments are the sequence `args`
 * and `count` is `|args|`.
 */
module Primitive {
  import opened Wrappers

  // ----- add_numbers -----

  /** The left-to-right sum of `xs`, starting from 0. */
  function Sum(xs: seq<real>): real {
    if |xs| == 0 then 0.0 else Sum(xs[..|xs| - 1]) + xs[|xs| - 1]
  }

  /** `add_numbers`: `total += value` over all the arguments, from 0. */
  method AddNumbers(args: seq<real>) returns (total: real)
    ensures total == Sum(args)
  {
    total := 0.0;
    var i := 0;
    while i < |args|
      invariant 0 <= i <= |args|
      invariant total == Sum(args[..i])
    {
      assert args[..i + 1][..i] == args[..i];
      total := total + args[i];
      i := i + 1;
    }
    assert args[..|args|] == args;
  }

  /** The sum of a concatenation is the sum of the sums: the order in
      which the arguments are grouped does not matter. */
  lemma {:induction false} SumAppend(xs: seq<real>, ys: seq<real>)
    ensures Sum(xs + ys) == Sum(xs) + Sum(ys)
    decreases |ys|
  {
    if |ys| == 0 {
      assert xs + ys == xs;
    } else {
      var n := |ys| - 1;
      assert (xs + ys)[..|xs + ys| - 1] == xs + ys[..n];
      SumAppend(xs, ys[..n]);
    }
  }

  /** Peeling off the first argument instead of the last. */
  lemma SumFirst(xs: seq<real>)
    requires |xs| >= 1
    ensures Sum(xs) == xs[0] + Sum(xs[1..])
  {
    assert xs == [xs[0]] + xs[1..];
    SumAppend([xs[0]], xs[1..]);
    assert [xs[0]][..0] == [];
  }

  /** `add_numbers(3, 1.0, 2.0, 3.0)` is 6. */
  lemma SumExample()
    ensures Sum([1.0, 2.0, 3.0]) == 6.0
  {
    assert [1.0, 2.0, 3.0][..2] == [1.0, 2.0];
    assert [1.0, 2.0][..1] == [1.0];
    assert [1.0][..0] == [];
  }

  // ----- multiply_numbers -----

  /** The left-to-right product of `xs`, seeded with its first element. */
  function Product(xs: seq<real>): real
    requires |xs| >= 1
  {
    if |xs| == 1 then xs[0] else Product(xs[..|xs| - 1]) * xs[|xs| - 1]
  }

  /** `multiply_numbers`: the first argument, then `total = total * value`
      over the rest. The first argument is read unconditionally, so at
      least one is required. */
  method MultiplyNumbers(args: seq<real>) returns (total: real)
    requires |args| >= 1
    ensures total == Product(args)
  {
    total := args[0];
    var i := 1;
    while i < |args|
      invariant 1 <= i <= |args|
      invariant total == Product(args[..i])
    {
      assert args[..i + 1][..i] == args[..i];
      total := total * args[i];
      i := i + 1;
    }
    assert args[..|args|] == args;
  }

  /** The product is 0 exactly when some argument is 0. */
  lemma {:induction false} ProductZero(xs: seq<real>)
    requires |xs| >= 1
    ensures Product(xs) == 0.0 <==> exists i :: 0 <= i < |xs| && xs[i] == 0.0
  {
    if |xs| > 1 {
      var n := |xs| - 1;
      var init := xs[..n];
      ProductZero(init);
      if Product(xs) == 0.0 {
        if Product(init) == 0.0 {
          var i :| 0 <= i < n && init[i] == 0.0;
          assert xs[i] == 0.0;
        } else {
          assert xs[n] == 0.0;
        }
      } else {
        forall i | 0 <= i < |xs|
          ensures xs[i] != 0.0
        {
          if i < n {
            assert init[i] == xs[i];
          }
        }
      }
    }
  }

  /** Peeling off the first factor instead of the last. */
  lemma {:induction false} ProductFirst(xs: seq<real>)
    requires |xs| >= 2
    ensures Product(xs) == xs[0] * Product(xs[1..])
  {
    var n := |xs| - 1;
    if |xs| == 2 {
      assert xs[1..] == [xs[1]];
    } else {
      ProductFirst(xs[..n]);
      assert xs[..n][1..] == xs[1..][..n - 1];
      assert xs[..n][0] == xs[0];
      var p := Product(xs[1..][..n - 1]);
      assert Product(xs[1..]) == p * xs[n];
      assert (xs[0] * p) * xs[n] == xs[0] * (p * xs[n]);
    }
  }

  /** `multiply_numbers(2, 5.0, 4.0)` is 20. */
  lemma ProductExample()
    ensures Product([5.0, 4.0]) == 20.0
  {
  }

  /** The multiplication step of the arithmetic chain: `multiply_numbers(2, 6.0, 2.0)` is 12. */
  lemma ChainProductExample()
    ensures Product([6.0, 2.0]) == 12.0
  {
  }

  // ----- minmax -----

  /** The running minimum (`decision == 0`) or maximum (any other
      `decision`) of `xs`: the first element, replaced by each later one
      that is strictly smaller (respectively larger). */
  function Extreme(decision: int, xs: seq<real>): real
    requires |xs| >= 1
  {
    if |xs| == 1 then xs[0]
    else
      var r := Extreme(decision, xs[..|xs| - 1]);
      var v := xs[|xs| - 1];
      if decision == 0 then (if v < r then v else r)
      else (if v > r then v else r)
  }

  /** `minmax`: no arguments give the NaN sentinel, modelled as `None`;
      otherwise the minimum when `decision == 0`, else the maximum. */
  method MinMax(decision: int, args: seq<real>) returns (result: Option<real>)
    ensures result.None? <==> |args| == 0
    ensures result.Some? ==> result.value == Extreme(decision, args)
    ensures result.Some? ==> result.value in args
    ensures result.Some? && decision == 0 ==> forall i :: 0 <= i < |args| ==> result.value <= args[i]
    ensures result.Some? && decision != 0 ==> forall i :: 0 <= i < |args| ==> result.value >= args[i]
  {
    if |args| == 0 {
      return None;
    }
    var r := args[0];
    var i := 1;
    if decision == 0 {
      while i < |args|
        invariant 1 <= i <= |args|
        invariant r == Extreme(decision, args[..i])
      {
        assert args[..i + 1][..i] == args[..i];
        var v := args[i];
        if v < r {
          r := v;
        }
        i := i + 1;
      }
    } else {
      while i < |args|
        invariant 1 <= i <= |args|
        invariant r == Extreme(decision, args[..i])
      {
        assert args[..i + 1][..i] == args[..i];
        var v := args[i];
        if v > r {
          r := v;
        }
        i := i + 1;
      }
    }
    assert args[..|args|] == args;
    ExtremeIsArgument(decision, args);
    ExtremeIsBound(decision, args);
    result := Some(r);
  }

  /** The result is always one of the arguments. */
  lemma {:induction false} ExtremeIsArgument(decision: int, xs: seq<real>)
    requires |xs| >= 1
    ensures exists i :: 0 <= i < |xs| && xs[i] == Extreme(decision, xs)
  {
    if |xs| > 1 {
      var n := |xs| - 1;
      ExtremeIsArgument(decision, xs[..n]);
      if Extreme(decision, xs) != xs[n] {
        var i :| 0 <= i < n && xs[..n][i] == Extreme(decision, xs[..n]);
        assert xs[i] == Extreme(decision, xs);
      } else {
        assert xs[n] == Extreme(decision, xs);
      }
    } else {
      assert xs[0] == Extreme(decision, xs);
    }
  }

  /** In min mode the result is at most every argument; in max mode at least. */
  lemma {:induction false} ExtremeIsBound(decision: int, xs: seq<real>)
    requires |xs| >= 1
    ensures decision == 0 ==> forall i :: 0 <= i < |xs| ==> Extreme(decision, xs) <= xs[i]
    ensures decision != 0 ==> forall i :: 0 <= i < |xs| ==> Extreme(decision, xs) >= xs[i]
  {
    if |xs| > 1 {
      var n := |xs| - 1;
      ExtremeIsBound(decision, xs[..n]);
      var r, e := Extreme(decision, xs[..n]), Extreme(decision, xs);
      forall i | 0 <= i < n
        ensures decision == 0 ==> e <= xs[i]
        ensures decision != 0 ==> e >= xs[i]
      {
        assert xs[..n][i] == xs[i];
      }
    }
  }

  /** Conversely, an argument that bounds all the others is the result. */
  lemma ExtremeIsUnique(decision: int, xs: seq<real>, m: real)
    requires |xs| >= 1 && m in xs
    requires decision == 0 ==> forall i :: 0 <= i < |xs| ==> m <= xs[i]
    requires decision != 0 ==> forall i :: 0 <= i < |xs| ==> m >= xs[i]
    ensures Extreme(decision, xs) == m
  {
    ExtremeIsArgument(decision, xs);
    ExtremeIsBound(decision, xs);
    var j :| 0 <= j < |xs| && xs[j] == m;
  }

  /** `min(5, 2, 8) = 2`, `max(5, 2, 8) = 8`, `min(-5, -2, -8, -1) = -8`, `min(42) = 42`. */
  lemma MinMaxExamples()
    ensures Extreme(0, [5.0, 2.0, 8.0]) == 2.0
    ensures Extreme(1, [5.0, 2.0, 8.0]) == 8.0
    ensures Extreme(0, [-5.0, -2.0, -8.0, -1.0]) == -8.0
    ensures Extreme(0, [42.0]) == 42.0
  {
    var s := [5.0, 2.0, 8.0];
    ExtremeIsUnique(0, s, 2.0);
    ExtremeIsUnique(1, s, 8.0);
    var t := [-5.0, -2.0, -8.0, -1.0];
    ExtremeIsUnique(0, t, -8.0);
  }
}
