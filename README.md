# OpenDI numerical core in Dafny

A model of the numerical core of OpenDI, a small C toolkit. It covers:

- **Romberg integration.** `romberg_integrate` keeps two rows of a Richardson table and starts from the single-panel trapezoid. At each level it halves the panel width, samples the new midpoints and extrapolates. It stops early when two successive diagonal entries agree to within `eps`; otherwise it returns the last diagonal entry.
- **Vector operations.**
  - `vecadd`, `veccross` and `vecscale` fill a freshly obtained buffer. The first two take it from an arena, `vecscale` from `malloc`.
  - `vecdot` accumulates a sum of products.
- **Variadic reductions.** `add_numbers`, `subtract_numbers`, `multiply_numbers`, `divide_numbers` and `minmax`.

C `double` is modelled as `real`, so every property is about exact arithmetic. The files are:

- `romberg.dfy` (module `Romberg`): the integrator as a method over two `array<real>` rows, proved equal to the specification function `Integrate`. It also holds the lemmas about that function. A row negated entry by entry is written with `RealSeqs.Neg`.
- `vectors.dfy` (module `Vectors`): the four vector functions and the algebra the tests rely on.
  - The outcome of the allocation request is the parameter `granted`.
  - `false` means the allocator returned NULL.
  - `true` means a fresh array of exactly the requested length.
- `primitive.dfy` (module `Primitive`): `add_numbers`, `multiply_numbers` and `minmax`.
- `basic_ops.dfy` (module `BasicOps`): `subtract_numbers` and `divide_numbers`.
- `wrappers.dfy` (module `Wrappers`): the `Option` type.
- `real_seqs.dfy` (module `RealSeqs`): entry-wise negation `Neg`, shared by `Romberg` and `Vectors`.

Each C function is a Dafny method, and each loop carries its invariants. Each method is proved equal to a specification function, and the lemmas state the properties of those functions. The pairs are:

- `RombergIntegrate` and `Integrate`; inside it, `NextLevel` and `Row`, `ExtrapolateRow` and `Richardson`, `MidpointTotal` and `MidpointSum`;
- `VecAdd` and `Add`, `VecScale` and `Scale`, `VecCross` and `Cross` (each a sequence comprehension), and `VecDot` and the recursive `Dot`;
- `AddNumbers` and `Sum`, `MultiplyNumbers` and `Product`, `MinMax` and `Extreme`;
- `SubtractNumbers` and `Difference`, `DivideNumbers` and `Quotient`.

Apart from `Add`, `Scale` and `Cross`, each specification function is recursive, or, in the case of `Integrate`, defined through the recursive `Run`. A variadic call `f(count, x0, x1, ...)` is modelled as `args == [x0, x1, ...]`, with `count == |args|`.

## Model

| member | source | states |
|---|---|---|
| Romberg.RombergIntegrate | src/calculus/integrals/romberg/romberg.c:4-52 | For `0 <= kMax <= 30`, the two-row computation returns exactly `Integrate(f, a, b, eps, kMax)`. That is the diagonal entry of the first level whose diagonal moved by less than `eps`, or else the diagonal entry of level `kMax`. Every row index stays within the `kMax + 1` slots. |
| Romberg.NextLevel | src/calculus/integrals/romberg/romberg.c:14-31 | Given `rPrev[..i+1] == Row(i)` and the halved width `h == Width(a, b, i+1)`, one level leaves `rCurr[..i+2] == Row(i+1)`, keeps `rCurr[i+2..]` as it was, and leaves `rPrev` untouched. |
| Romberg.MidpointTotal | src/calculus/integrals/romberg/romberg.c:16-22 | The midpoint loop sums `f(a + (2j-1)h)` over exactly `j = 1 .. 2^i`, in that order. |
| Romberg.ExtrapolateRow | src/calculus/integrals/romberg/romberg.c:26-31 | With `pow4` running through `4^1 .. 4^k`, the loop fills entries `1..k` with `(4^m new[m-1] - old[m-1]) / (4^m - 1)`. Entry 0 and the entries after `k` are kept. |
| Romberg.NextRow | src/calculus/integrals/romberg/romberg.c:24-31 | `Row(k)` is the Richardson recurrence applied to `Row(k-1)`, seeded with `0.5 * Row(k-1)[0] + h * c`. |
| Romberg.SampleIndexFitsInt | src/calculus/integrals/romberg/romberg.c:18-20 | For every level `i < 30`, `2 * (1 << i)` is at most `2^31 - 1`, so `1 << i` and `2*j - 1` never overflow a C `int`. |
| Romberg.NoRefinementIsTrapezoid | src/calculus/integrals/romberg/romberg.c:11-47 | With `kMax = 0` the result is the single-panel trapezoid `((b-a)/2)(f(b) + f(a))`. |
| Romberg.IntegrateIsFirstConvergedDiagonal | src/calculus/integrals/romberg/romberg.c:33-47 | If no level `1..k-1` converged, and either level `k` converged or `k = kMax`, then the result is level `k`'s diagonal entry. Non-convergence is silent. |
| Romberg.RunFromEarlierLevel | src/calculus/integrals/romberg/romberg.c:33-45 | The same statement, for the loop entered at any level `i < k`. |
| Romberg.IntegrateIsDiagonal | src/calculus/integrals/romberg/romberg.c:33-47 | The result is always the diagonal entry of some level `k <= kMax`. |
| Romberg.RunLevel | src/calculus/integrals/romberg/romberg.c:33-47 | The level whose diagonal entry the loop returns when entered at level `i` lies between `i` and `kMax`. |
| Romberg.EmptyIntervalIsZero | tests/test_romberg.c:133-141 | `romberg_integrate(f, a, a, eps, kMax)` is exactly 0, for every `f`, `eps` and `kMax`. |
| Romberg.EmptyIntervalRowIsZero | src/calculus/integrals/romberg/romberg.c:11-31 | On `[a, a]` every entry of every row is 0. |
| Romberg.EmptyIntervalWidthIsZero | src/calculus/integrals/romberg/romberg.c:6-15 | On `[a, a]` the width is 0 at every level. |
| Romberg.RichardsonOfZeros | src/calculus/integrals/romberg/romberg.c:26-31 | Extrapolating from a zero row with a zero seed gives zeros. |
| Romberg.ReversedBoundsNegate | tests/test_romberg.c:143-151 | Swapping `a` and `b` negates the result exactly, for every `f`, `eps` and `kMax`. |
| Romberg.ReversedRunIsNegated | src/calculus/integrals/romberg/romberg.c:33-47 | The loop entered at any level returns negated values under swapped bounds, because the exit test `fabs(new - old) < eps` does not change under negation. |
| Romberg.ReversedConverged | src/calculus/integrals/romberg/romberg.c:33 | The exit test at level `k` gives the same verdict for `[a, b]` and `[b, a]`. |
| Romberg.ReversedDiagonal | src/calculus/integrals/romberg/romberg.c:33-34 | The diagonal entry of every level changes sign with the bounds. |
| Romberg.ReversedRowIsNegated | src/calculus/integrals/romberg/romberg.c:11-31 | Every row computed on `[b, a]` is the entry-wise negation of the one on `[a, b]`. |
| Romberg.ReversedSeed | src/calculus/integrals/romberg/romberg.c:15-24 | Entry 0 of every level changes sign with the bounds: `h` flips sign and the same midpoints are sampled in reverse order. |
| Romberg.MidpointSumMirror | src/calculus/integrals/romberg/romberg.c:18-22 | Walking `n` midpoints back from `p + 2nh` with step `-h` gives the same sum as walking forward from `p` with step `h`. |
| Romberg.MidpointSumPeel | src/calculus/integrals/romberg/romberg.c:18-22 | The midpoint sum is its first sample plus the sum over the remaining midpoints, starting `2h` further on. |
| Romberg.WidthSpan | src/calculus/integrals/romberg/romberg.c:6-15 | After `k` halvings, `2^k` panels of the current width span exactly `[a, b]`. |
| Romberg.WidthReversed | src/calculus/integrals/romberg/romberg.c:6-15 | The width at every level changes sign with the bounds. |
| Romberg.RichardsonNegated | src/calculus/integrals/romberg/romberg.c:26-31 | The extrapolation recurrence commutes with negating both rows. |
| Romberg.RichardsonStepNegated | src/calculus/integrals/romberg/romberg.c:29 | One extrapolation step commutes with negation. |
| Romberg.TrapezoidStepNegated | src/calculus/integrals/romberg/romberg.c:24 | The entry-0 update commutes with negating the previous entry and `h`. |
| Vectors.VecAdd | src/linalg/vectors/vecadd.c:5-17 | Returns NULL exactly when the arena refuses the buffer. Otherwise it returns a fresh buffer of `length` elements holding `vec1[i] + vec2[i]`. The inputs are not modified. |
| Vectors.VecCross | src/linalg/vectors/veccross.c:4-17 | Returns NULL exactly when the arena refuses the buffer. Otherwise it returns a fresh buffer of 3 elements holding `vec1 × vec2`. |
| Vectors.VecScale | src/linalg/vectors/vecscale.c:4-17 | Returns NULL exactly when `malloc` fails. Otherwise it returns a fresh buffer of `length` elements holding `arr[i] * scalar`. The input is not modified. |
| Vectors.VecDot | src/linalg/vectors/vecdot.c:3-11 | The accumulator loop returns the dot product of the first `length` components. |
| Vectors.AddZero | tests/test_vecadd.c:34-41 | Adding the zero vector, on either side, returns the other operand. |
| Vectors.AddNegIsZero | tests/test_vecadd.c:43-50 | `v + (-v)` and `(-v) + v` are the zero vector. |
| Vectors.AddCommutes | src/linalg/vectors/vecadd.c:12-15 | The component-wise sum does not depend on operand order. |
| Vectors.ScaleSpecialFactors | tests/test_vecscale.c:33-55 | Scaling by 1 is the identity, by 0 gives the zero vector, and by -1 negates. |
| Vectors.ScaleAssociates | tests/test_vecscale.c:87-97 | Scaling by `b` and then by `a` equals scaling by `a * b`. |
| Vectors.ScaleDistributes | tests/test_vecscale.c:99-112 | `s·u + s·v = s·(u + v)`. |
| Vectors.DotEmpty | src/linalg/vectors/vecdot.c:5-11 | With `length = 0` the dot product is 0. |
| Vectors.DotCommutes | tests/unit/linalg/vectors/test_vecdot.c:75-80 | `u · v = v · u`. |
| Vectors.DotDistributes | tests/unit/linalg/vectors/test_vecdot.c:82-89 | `a · (b + c) = a · b + a · c`. |
| Vectors.DotZero | tests/unit/linalg/vectors/test_vecdot.c:31-35 | Dotting with the zero vector, on either side, gives 0. |
| Vectors.DotSelfNonNegative | tests/unit/linalg/vectors/test_vecdot.c:37-41 | `v · v` is a sum of squares and so never negative. |
| Vectors.DotExample | tests/unit/linalg/vectors/test_vecdot.c:24-29 | `(1, 2, 3) · (4, 5, 6) = 32`. |
| Vectors.DotSelfExample | tests/unit/linalg/vectors/test_vecdot.c:37-41 | `(3, 4) · (3, 4) = 25`. |
| Vectors.CrossBasis | tests/unit/linalg/vectors/test_veccross.c:30-66 | `i × j = k`, `j × k = i`, `k × i = j` and `j × i = -k`. |
| Vectors.CrossExample | tests/unit/linalg/vectors/test_veccross.c:68-75 | `(1, 2, 3) × (4, 5, 6) = (-3, 6, -3)`. |
| Vectors.CrossAntiCommutes | tests/unit/linalg/vectors/test_veccross.c:39-43 | `v × u = -(u × v)` for all `u`, `v`. |
| Vectors.CrossParallelIsZero | tests/unit/linalg/vectors/test_veccross.c:45-91 | `v × v = 0` and `(-v) × v = 0`. |
| Vectors.CrossZero | tests/unit/linalg/vectors/test_veccross.c:77-83 | `0 × v = 0` and `v × 0 = 0`. |
| Vectors.Det2ParallelRows | src/linalg/vectors/veccross.c:13-15 | A component vanishes when the operands are equal or opposite. |
| Primitive.AddNumbers | src/primitive/add/add.c:5-22 | Returns the left-to-right sum of all the arguments, starting from 0, so no arguments give 0. |
| Primitive.SumAppend | src/primitive/add/add.c:12-17 | The sum of a concatenation is the sum of the parts' sums. |
| Primitive.SumFirst | src/primitive/add/add.c:12-17 | The sum is the first argument plus the sum of the rest. |
| Primitive.SumExample | tests/test_opendi_full_integration.c:243 | `add_numbers(3, 1.0, 2.0, 3.0)` is 6. |
| Primitive.MultiplyNumbers | src/primitive/multiply/multiply.c:4-20 | For at least one argument, returns the product seeded with the first argument, so a single argument is returned unchanged. |
| Primitive.ProductZero | src/primitive/multiply/multiply.c:9-16 | The product is 0 if and only if some argument is 0. |
| Primitive.ProductFirst | src/primitive/multiply/multiply.c:9-16 | The product is the first argument times the product of the rest. |
| Primitive.ProductExample | tests/unit/test_master_header.c:23 | `multiply_numbers(2, 5.0, 4.0)` is 20. |
| Primitive.ChainProductExample | tests/test_opendi_full_integration.c:244 | `multiply_numbers(2, 6.0, 2.0)`, the chain's step with `result` equal to 6, is 12. |
| Primitive.MinMax | src/primitive/minmax/minmax.c:5-35 | No arguments give the NaN sentinel (`None`). Otherwise the result is one of the arguments. With `decision == 0` it is at most every argument; with any other `decision` it is at least every argument. |
| Primitive.ExtremeIsArgument | src/primitive/minmax/minmax.c:14-31 | The running minimum or maximum is always one of the arguments. |
| Primitive.ExtremeIsBound | src/primitive/minmax/minmax.c:16-31 | In min mode it is at most every argument; in max mode it is at least every argument. |
| Primitive.ExtremeIsUnique | src/primitive/minmax/minmax.c:16-31 | Conversely, an argument that bounds all the others is the result. |
| Primitive.MinMaxExamples | tests/test_minmax.c:9-22 | `min(5, 2, 8) = 2`, `max(5, 2, 8) = 8`, `min(-5, -2, -8, -1) = -8` and `min(42) = 42`. |
| BasicOps.SubtractNumbers | src/basic-ops/subtract/subtract.c:4-22 | For at least one argument, returns the first argument minus each later one in order. |
| BasicOps.DifferenceIsFirstMinusRest | src/basic-ops/subtract/subtract.c:11-18 | The result equals the first argument minus the sum of the later ones. |
| BasicOps.DifferenceExample | tests/test_opendi_full_integration.c:245 | `subtract_numbers(2, 12.0, 2.0)` is 10. |
| BasicOps.DivideNumbers | src/basic-ops/divide/divide.c:5-36 | No arguments give 0.0. Otherwise the result is `Quotient(args)` when every later argument is nonzero, and 0.0 when one of them is zero. |
| BasicOps.QuotientNoneExtends | src/basic-ops/divide/divide.c:20-25 | Once a zero divisor is met, the arguments after it cannot change the outcome. |
| BasicOps.QuotientFailsIffZeroDivisor | src/basic-ops/divide/divide.c:15-29 | The division fails if and only if some argument after the first is 0. A zero first argument is an ordinary dividend. |
| BasicOps.QuotientTimesDivisors | src/basic-ops/divide/divide.c:15-29 | A successful quotient times the product of the divisors is the first argument. |
| BasicOps.QuotientExample | tests/test_opendi_full_integration.c:246 | `divide_numbers(2, 10.0, 2.0)` is 5. |
| BasicOps.ZeroDivisorExample | src/basic-ops/divide/divide.c:20-25 | `10 / 0 / 2` fails at the zero divisor, so `divide_numbers` returns 0.0 without looking at the 2. |
| BasicOps.ArithmeticChain | tests/test_opendi_full_integration.c:243-246 | `((1 + 2 + 3) * 2 - 2) / 2` through the four variadic operations is 5. |

## Left out

- Floating point: rounding, NaN and infinities are not modelled. Every `double` is an exact `real`. The accuracy-to-tolerance tests of the integrator depend on truncation and rounding error, so they have no counterpart here.
- MinMax: the C function keeps its running result in a `float` and returns a `float`. That narrowing is not modelled, so the model's result is the exact argument. The NaN returned for zero arguments is `None`.
- RombergIntegrate: `f` is a total, pure `real -> real` parameter.
- RombergIntegrate: `kMax` must be between 0 and 30.
  - A negative `k_max` writes outside a `calloc(k_max + 1)` row in C.
  - From `k_max = 31` on, `2*j` in `2*j - 1` overflows a C `int` at the last level, where `j` reaches `1 << 30`; from `k_max = 32` on, `1 << i` itself overflows.
  - Neither case is modelled.
- RombergIntegrate: `calloc` is used without a NULL check, and the rows are later released with `free`. The rows are modelled as fresh arrays that are always obtained, with arbitrary initial contents: the proof does not rely on the zero fill, so it holds for any contents, `calloc`'s zeros included. Releasing them is not modelled.
- VecAdd, VecCross, VecScale: the allocator is the parameter `granted`.
  - The arena's capacity, offset and alignment rules are not modelled, because `arena.h` and `arena.c` are not part of this model.
  - Overflow of the byte count `length * sizeof(double)` is not modelled.
  - `VECCROSS_SIZE` is taken to be 3.
- Vector headers: `include/linalg/vectors/vecadd.h` declares `vecadd` without an arena, and `include/linalg/vectors/vecscale.h` declares `vecscale` with one. The model follows the `.c` files.
- Variadic arguments: `va_list` handling is replaced by a sequence.
  - A `count` that disagrees with the number of arguments actually passed is not modelled.
  - A negative `count` is not modelled.
- SubtractNumbers: at least one argument is required, because the C code reads the first argument even when `count` is 0.
- MultiplyNumbers: at least one argument is required, for the same reason.
- DivideNumbers: the message printed on a zero divisor is not modelled.
- ArithmeticChain: the final `exponents` step of the chain is not modelled, because `exponents` is not part of this model.
- Not modelled at all:
  - the finite-difference formulas (`forwarddiff`, `backwarddiff`, `centraldiff`, `secondderivative`);
  - `vecnorm`, which is `sqrt` of `vecdot`;
  - the plotting front end `graph.c`.
  - Their point is floating-point error or external libraries.
