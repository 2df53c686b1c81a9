/**
 * The variadic operations of src/basic-ops: `subtract_numbers` and
 * `divide_numbers`. As in `Primitive`, the `count` trailing arguments are
 * the sequence `args`.
 */
module BasicOps {
  import opened Wrappers
  import opened Primitive

  // ----- subtract_numbers -----

  /** The first element minus each later one, left to right. */
  function Difference(xs: seq<real>): real
    requires |xs| >= 1
  {
    if |xs| == 1 then xs[0] else Difference(xs[..|xs| - 1]) - xs[|xs| - 1]
  }

  /** `subtract_numbers`: the first argument, then `total -= value` over the
      rest. The first argument is read unconditionally, so at least one is
      required. */
  method SubtractNumbers(args: seq<real>) returns (total: real)
    requires |args| >= 1
    ensures total == Difference(args)
  {
    total := args[0];
    var i := 1;
    while i < |args|
      invariant 1 <= i <= |args|
      invariant total == Difference(args[..i])
    {
      assert args[..i + 1][..i] == args[..i];
      total := total - args[i];
      i := i + 1;
    }
    assert args[..|args|] == args;
  }

  /** Subtracting the later arguments one by one is subtracting their sum. */
  lemma {:induction false} DifferenceIsFirstMinusRest(xs: seq<real>)
    requires |xs| >= 1
    ensures Difference(xs) == xs[0] - Sum(xs[1..])
  {
    if |xs| == 1 {
      assert xs[1..] == [];
    } else {
      var n := |xs| - 1;
      DifferenceIsFirstMinusRest(xs[..n]);
      assert xs[..n][1..] == xs[1..][..n - 1];
    }
  }

  /** `subtract_numbers(2, 12.0, 2.0)` is 10. */
  lemma DifferenceExample()
    ensures Difference([12.0, 2.0]) == 10.0
  {
  }

  // ----- divide_numbers -----

  /** The first element divided by each later one, left to right; `None`
      once a divisor is 0. */
  function Quotient(xs: seq<real>): Option<real>
    requires |xs| >= 1
  {
    if |xs| == 1 then Some(xs[0])
    else
      match Quotient(xs[..|xs| - 1])
      case None => None
      case Some(q) => if xs[|xs| - 1] == 0.0 then None else Some(q / xs[|xs| - 1])
  }

  /** `divide_numbers`: 0.0 for no arguments; otherwise the first argument,
      then `total = total / value` over the rest, returning 0.0 at once on a
      zero divisor. */
  method DivideNumbers(args: seq<real>) returns (total: real)
    ensures |args| == 0 ==> total == 0.0
    ensures |args| >= 1 ==> total == Quotient(args).GetOr(0.0)
  {
    if |args| == 0 {
      return 0.0;
    }
    total := args[0];
    var i := 1;
    while i < |args|
      invariant 1 <= i <= |args|
      invariant Quotient(args[..i]) == Some(total)
    {
      assert args[..i + 1][..i] == args[..i];
      var value := args[i];
      if value == 0.0 {
        QuotientNoneExtends(args, i + 1);
        return 0.0;
      }
      total := total / value;
      i := i + 1;
    }
    assert args[..|args|] == args;
  }

  /** Once a prefix has hit a zero divisor, so has every longer prefix:
      the arguments after it are never used. */
  lemma {:induction false} QuotientNoneExtends(xs: seq<real>, n: nat)
    requires 1 <= n <= |xs| && Quotient(xs[..n]) == None
    ensures Quotient(xs) == None
    decreases |xs| - n
  {
    if n < |xs| {
      assert xs[..n + 1][..n] == xs[..n];
      QuotientNoneExtends(xs, n + 1);
    } else {
      assert xs[..n] == xs;
    }
  }

  /** The division fails exactly when some argument after the first is 0;
      a zero first argument is an ordinary dividend. */
  lemma {:induction false} QuotientFailsIffZeroDivisor(xs: seq<real>)
    requires |xs| >= 1
    ensures Quotient(xs) == None <==> exists i :: 1 <= i < |xs| && xs[i] == 0.0
  {
    if |xs| > 1 {
      var n := |xs| - 1;
      var init := xs[..n];
      QuotientFailsIffZeroDivisor(init);
      if Quotient(xs) == None {
        if Quotient(init) == None {
          var i :| 1 <= i < n && init[i] == 0.0;
          assert xs[i] == 0.0;
        } else {
          assert xs[n] == 0.0;
        }
      } else {
        forall i | 1 <= i < |xs|
          ensures xs[i] != 0.0
        {
          if i < n {
            assert init[i] == xs[i];
          }
        }
      }
    }
  }

  /** A successful division undoes multiplication by the divisors: the
      quotient times the product of the later arguments is the first one. */
  lemma {:induction false} QuotientTimesDivisors(xs: seq<real>)
    requires |xs| >= 2 && Quotient(xs).Some?
    ensures Quotient(xs).value * Product(xs[1..]) == xs[0]
  {
    var n := |xs| - 1;
    var init := xs[..n];
    var d := xs[n];
    var q := Quotient(init).value;
    assert d != 0.0 && Quotient(xs).value == q / d;
    if |xs| == 2 {
      assert xs[1..] == [d];
      assert q == xs[0];
    } else {
      QuotientTimesDivisors(init);
      assert init[1..] == xs[1..][..n - 1];
      var p := Product(init[1..]);
      assert Product(xs[1..]) == p * d;
      assert q * p == xs[0];
      assert (q / d) * (p * d) == q * p;
    }
  }

  /** `divide_numbers(2, 10.0, 2.0)` is 5. */
  lemma QuotientExample()
    ensures Quotient([10.0, 2.0]) == Some(5.0)
  {
  }

  /** A zero divisor stops the division, whatever follows it: `10 / 0 / 2`
      fails, and `divide_numbers` then returns 0.0. */
  lemma ZeroDivisorExample()
    ensures Quotient([10.0, 0.0, 2.0]) == None
    ensures Quotient([10.0, 0.0, 2.0]).GetOr(0.0) == 0.0
  {
  }

  /** The chain `((1 + 2 + 3) * 2 - 2) / 2` through the four variadic operations is 5. */
  lemma ArithmeticChain()
    ensures Quotient([Difference([Product([Sum([1.0, 2.0, 3.0]), 2.0]), 2.0]), 2.0]) == Some(5.0)
  {
    SumExample();
    assert [6.0, 2.0][..1] == [6.0];
    assert Product([6.0, 2.0]) == 12.0;
    DifferenceExample();
    QuotientExample();
  }
}
