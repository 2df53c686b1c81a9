/**
 * Vector operations (src/linalg/vectors): element-wise sum, scalar multiple,
 * 3-component cross product and dot product of `double` vectors.
 *
 * A C vector `const double *v` with `length` elements is an `array<real>` of
 * which the first `length` slots are read. The result buffers come from an
 * allocator: `arena_push` for `vecadd` and `veccross`, `malloc` for
 * `vecscale`. Which allocator it is does not matter here; what matters is
 * that the request may fail. The outcome of the request is the parameter
 * `granted`: when it is false the C function returns NULL before writing
 * anything, and when it is true the buffer is a fresh array of exactly the
 * requested number of elements.
 */
module Vectors {

  import opened RealSeqs

  /** `VECCROSS_SIZE`: the number of components of a cross product. */
  const CrossSize: nat := 3

  // ----- Specification -----

  /** The zero vector of `n` components. */
  function Zeros(n: nat): (z: seq<real>)
    ensures |z| == n && forall i :: 0 <= i < n ==> z[i] == 0.0
  {
    seq(n, _ => 0.0)
  }

  /** Component-wise sum. */
  function Add(u: seq<real>, v: seq<real>): (w: seq<real>)
    requires |u| == |v|
    ensures |w| == |u|
  {
    seq(|u|, i requires 0 <= i < |u| => u[i] + v[i])
  }

  /** Every component multiplied by `s`, in the order `v[i] * s`. */
  function Scale(v: seq<real>, s: real): (w: seq<real>)
    ensures |w| == |v|
  {
    seq(|v|, i requires 0 <= i < |v| => v[i] * s)
  }

  /** The 2x2 determinant `| a b ; c d |`. */
  function Det2(a: real, b: real, c: real, d: real): real {
    a * d - b * c
  }

  /** The cross product of two 3-component vectors: component `i` is the
      determinant of the other two components of `u` and `v`. */
  function Cross(u: seq<real>, v: seq<real>): (w: seq<real>)
    requires |u| == CrossSize && |v| == CrossSize
    ensures |w| == CrossSize
  {
    [Det2(u[1], u[2], v[1], v[2]),
     Det2(u[2], u[0], v[2], v[0]),
     Det2(u[0], u[1], v[0], v[1])]
  }

  /** The sum of the products `u[i] * v[i]`, accumulated from index 0 upwards
      starting at 0: the last product is the last one added. */
  function Dot(u: seq<real>, v: seq<real>): real
    requires |u| == |v|
  {
    if |u| == 0 then 0.0
    else Dot(u[..|u| - 1], v[..|v| - 1]) + u[|u| - 1] * v[|v| - 1]
  }

  // ----- The C functions -----

  /** `vecadd`: NULL when the arena refuses the buffer, otherwise a fresh
      buffer of `length` elements holding the component-wise sum. */
  method VecAdd(granted: bool, vec1: array<real>, vec2: array<real>, length: nat) returns (r: array?<real>)
    requires length <= vec1.Length && length <= vec2.Length
    ensures r == null <==> !granted
    ensures r != null ==> fresh(r) && r.Length == length && r[..] == Add(vec1[..length], vec2[..length])
  {
    if !granted {
      return null;
    }
    r := new real[length];
    var i := 0;
    while i < length
      invariant 0 <= i <= length
      invariant forall k :: 0 <= k < i ==> r[k] == vec1[k] + vec2[k]
    {
      r[i] := vec1[i] + vec2[i];
      i := i + 1;
    }
    assert r[..] == Add(vec1[..length], vec2[..length]);
  }

  /** `veccross`: NULL when the arena refuses the buffer, otherwise a fresh
      buffer of `VECCROSS_SIZE` elements holding `vec1 × vec2`. */
  method VecCross(granted: bool, vec1: array<real>, vec2: array<real>) returns (r: array?<real>)
    requires CrossSize <= vec1.Length && CrossSize <= vec2.Length
    ensures r == null <==> !granted
    ensures r != null ==> fresh(r) && r.Length == CrossSize && r[..] == Cross(vec1[..CrossSize], vec2[..CrossSize])
  {
    if !granted {
      return null;
    }
    r := new real[CrossSize];
    r[0] := vec1[1] * vec2[2] - vec1[2] * vec2[1];
    r[1] := vec1[2] * vec2[0] - vec1[0] * vec2[2];
    r[2] := vec1[0] * vec2[1] - vec1[1] * vec2[0];
    var u, v := vec1[..CrossSize], vec2[..CrossSize];
    assert u[0] == vec1[0] && u[1] == vec1[1] && u[2] == vec1[2];
    assert v[0] == vec2[0] && v[1] == vec2[1] && v[2] == vec2[2];
    var w := Cross(u, v);
    assert w[0] == u[1] * v[2] - u[2] * v[1];
    assert r[0] == w[0];
    assert r[1] == w[1];
    assert r[2] == w[2];
    assert r[..] == [r[0], r[1], r[2]] == w;
  }

  /** `vecscale`: NULL when `malloc` fails, otherwise a fresh buffer of
      `length` elements holding `arr[i] * scalar`. */
  method VecScale(granted: bool, arr: array<real>, scalar: real, length: nat) returns (r: array?<real>)
    requires length <= arr.Length
    ensures r == null <==> !granted
    ensures r != null ==> fresh(r) && r.Length == length && r[..] == Scale(arr[..length], scalar)
  {
    if !granted {
      return null;
    }
    r := new real[length];
    var i := 0;
    while i < length
      invariant 0 <= i <= length
      invariant forall k :: 0 <= k < i ==> r[k] == arr[k] * scalar
    {
      r[i] := arr[i] * scalar;
      i := i + 1;
    }
    forall k | 0 <= k < length
      ensures r[..][k] == Scale(arr[..length], scalar)[k]
    {
      assert arr[..length][k] == arr[k];
    }
    assert r[..] == Scale(arr[..length], scalar);
  }

  /** `vecdot`: the accumulator loop computes the dot product of the first
      `length` components. */
  method VecDot(vec1: array<real>, vec2: array<real>, length: nat) returns (sum: real)
    requires length <= vec1.Length && length <= vec2.Length
    ensures sum == Dot(vec1[..length], vec2[..length])
  {
    sum := 0.0;
    var i := 0;
    while i < length
      invariant 0 <= i <= length
      invariant sum == Dot(vec1[..i], vec2[..i])
    {
      assert vec1[..i + 1][..i] == vec1[..i] && vec2[..i + 1][..i] == vec2[..i];
      sum := sum + vec1[i] * vec2[i];
      i := i + 1;
    }
  }

  // ----- vecadd -----

  /** Adding the zero vector, on either side, gives the other operand back. */
  lemma AddZero(v: seq<real>)
    ensures Add(v, Zeros(|v|)) == v && Add(Zeros(|v|), v) == v
  {
  }

  /** `v + (-v)` is the zero vector. */
  lemma AddNegIsZero(v: seq<real>)
    ensures Add(v, Neg(v)) == Zeros(|v|) && Add(Neg(v), v) == Zeros(|v|)
  {
  }

  /** The sum does not depend on the order of its operands. */
  lemma AddCommutes(u: seq<real>, v: seq<real>)
    requires |u| == |v|
    ensures Add(u, v) == Add(v, u)
  {
  }

  // ----- vecscale -----

  /** Scaling by 1 is the identity, by 0 gives the zero vector, and by -1 negates. */
  lemma ScaleSpecialFactors(v: seq<real>)
    ensures Scale(v, 1.0) == v
    ensures Scale(v, 0.0) == Zeros(|v|)
    ensures Scale(v, -1.0) == Neg(v)
  {
  }

  /** Scaling by `b` and then by `a` is scaling by `a * b`. */
  lemma ScaleAssociates(v: seq<real>, a: real, b: real)
    ensures Scale(Scale(v, b), a) == Scale(v, a * b)
  {
    forall i | 0 <= i < |v|
      ensures Scale(Scale(v, b), a)[i] == Scale(v, a * b)[i]
    {
      assert (v[i] * b) * a == v[i] * (a * b);
    }
  }

  /** Scaling distributes over the component-wise sum. */
  lemma ScaleDistributes(u: seq<real>, v: seq<real>, s: real)
    requires |u| == |v|
    ensures Add(Scale(u, s), Scale(v, s)) == Scale(Add(u, v), s)
  {
    forall i | 0 <= i < |u|
      ensures Add(Scale(u, s), Scale(v, s))[i] == Scale(Add(u, v), s)[i]
    {
      assert u[i] * s + v[i] * s == (u[i] + v[i]) * s;
    }
  }

  // ----- vecdot -----

  /** With no components the dot product is 0. */
  lemma DotEmpty(u: seq<real>, v: seq<real>)
    requires |u| == |v| == 0
    ensures Dot(u, v) == 0.0
  {
  }

  /** The dot product does not depend on the order of its operands. */
  lemma {:induction false} DotCommutes(u: seq<real>, v: seq<real>)
    requires |u| == |v|
    ensures Dot(u, v) == Dot(v, u)
  {
    if |u| > 0 {
      DotCommutes(u[..|u| - 1], v[..|v| - 1]);
    }
  }

  /** The dot product distributes over the component-wise sum. */
  lemma {:induction false} DotDistributes(a: seq<real>, b: seq<real>, c: seq<real>)
    requires |a| == |b| == |c|
    ensures Dot(a, Add(b, c)) == Dot(a, b) + Dot(a, c)
  {
    if |a| > 0 {
      var n := |a| - 1;
      assert Add(b, c)[..n] == Add(b[..n], c[..n]);
      DotDistributes(a[..n], b[..n], c[..n]);
      assert a[n] * (b[n] + c[n]) == a[n] * b[n] + a[n] * c[n];
    }
  }

  /** Dotting with the zero vector, on either side, gives 0. */
  lemma {:induction false} DotZero(v: seq<real>)
    ensures Dot(v, Zeros(|v|)) == 0.0 && Dot(Zeros(|v|), v) == 0.0
  {
    if |v| > 0 {
      var n := |v| - 1;
      assert Zeros(|v|)[..n] == Zeros(n);
      DotZero(v[..n]);
    }
  }

  /** `v · v` is a sum of squares, so it is never negative. */
  lemma {:induction false} DotSelfNonNegative(v: seq<real>)
    ensures Dot(v, v) >= 0.0
  {
    if |v| > 0 {
      var n := |v| - 1;
      DotSelfNonNegative(v[..n]);
      assert v[n] * v[n] >= 0.0;
    }
  }

  /** `(1, 2, 3) · (4, 5, 6) = 32`. */
  lemma DotExample()
    ensures Dot([1.0, 2.0, 3.0], [4.0, 5.0, 6.0]) == 32.0
  {
    var u, v := [1.0, 2.0, 3.0], [4.0, 5.0, 6.0];
    assert u[..2] == [1.0, 2.0] && v[..2] == [4.0, 5.0];
    assert u[..2][..1] == [1.0] && v[..2][..1] == [4.0];
    assert [1.0][..0] == [] && [4.0][..0] == [];
  }

  /** `(3, 4) · (3, 4) = 25`. */
  lemma DotSelfExample()
    ensures Dot([3.0, 4.0], [3.0, 4.0]) == 25.0
  {
  }

  // ----- veccross -----

  /** The basis vectors `i`, `j`, `k` of three-dimensional space. */
  function I(): seq<real> { [1.0, 0.0, 0.0] }
  function J(): seq<real> { [0.0, 1.0, 0.0] }
  function K(): seq<real> { [0.0, 0.0, 1.0] }

  /** `i × j = k`, `j × k = i`, `k × i = j`, and in the other order the sign flips. */
  lemma CrossBasis()
    ensures Cross(I(), J()) == K() && Cross(J(), K()) == I() && Cross(K(), I()) == J()
    ensures Cross(J(), I()) == Neg(K())
  {
  }

  /** `(1, 2, 3) × (4, 5, 6) = (-3, 6, -3)`. */
  lemma CrossExample()
    ensures Cross([1.0, 2.0, 3.0], [4.0, 5.0, 6.0]) == [-3.0, 6.0, -3.0]
  {
  }

  /** Swapping the operands negates the cross product. */
  lemma CrossAntiCommutes(u: seq<real>, v: seq<real>)
    requires |u| == CrossSize && |v| == CrossSize
    ensures Cross(v, u) == Neg(Cross(u, v))
  {
  }

  /** A vector crossed with itself, or with its negation, is the zero vector. */
  lemma CrossParallelIsZero(v: seq<real>)
    requires |v| == CrossSize
    ensures Cross(v, v) == Zeros(CrossSize)
    ensures Cross(Neg(v), v) == Zeros(CrossSize)
  {
    assert Zeros(CrossSize) == [0.0, 0.0, 0.0];
    var n := Neg(v);
    assert n == [-v[0], -v[1], -v[2]];
    Det2ParallelRows(v[1], v[2]);
    Det2ParallelRows(v[2], v[0]);
    Det2ParallelRows(v[0], v[1]);
  }

  /** A 2x2 determinant whose rows are equal, or opposite, is 0. */
  lemma Det2ParallelRows(a: real, b: real)
    ensures Det2(a, b, a, b) == 0.0 && Det2(-a, -b, a, b) == 0.0
  {
  }

  /** The zero vector crossed with anything is the zero vector. */
  lemma CrossZero(v: seq<real>)
    requires |v| == CrossSize
    ensures Cross(Zeros(CrossSize), v) == Zeros(CrossSize)
    ensures Cross(v, Zeros(CrossSize)) == Zeros(CrossSize)
  {
  }
}
