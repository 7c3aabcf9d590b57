/** Complex numbers over the reals, and the sums the radar chain takes over them.
    The source works in single-precision `gr_complex`; here every value is exact. */
module ComplexMath {

  datatype Complex = Complex(re: real, im: real)

  const Zero: Complex := Complex(0.0, 0.0)

  const One: Complex := Complex(1.0, 0.0)

  function Add(a: Complex, b: Complex): Complex { Complex(a.re + b.re, a.im + b.im) }

  function Sub(a: Complex, b: Complex): Complex { Complex(a.re - b.re, a.im - b.im) }

  function Mul(a: Complex, b: Complex): Complex {
    Complex(a.re * b.re - a.im * b.im, a.re * b.im + a.im * b.re)
  }

  function Conj(a: Complex): Complex { Complex(a.re, -a.im) }

  /** Multiplication by a real factor. */
  function ScaleBy(a: Complex, k: real): Complex { Complex(k * a.re, k * a.im) }

  function Sq(x: real): real { x * x }

  lemma SqNonNegative(x: real)
    ensures Sq(x) >= 0.0
  {
    calc {
      Sq(x);
      == x * x;
      >= 0.0;
    }
  }

  lemma SqPositive(x: real)
    requires x != 0.0
    ensures Sq(x) > 0.0
  {
    calc {
      Sq(x);
      == x * x;
      > 0.0;
    }
  }

  lemma SqZero(x: real)
    requires Sq(x) == 0.0
    ensures x == 0.0
  {
    if x != 0.0 {
      SqPositive(x);
    }
  }

  /** |a|^2 */
  function NormSq(a: Complex): real { Sq(a.re) + Sq(a.im) }

  lemma NormSqNonNegative(a: Complex)
    ensures NormSq(a) >= 0.0
  {
    SqNonNegative(a.re);
    SqNonNegative(a.im);
  }

  /** Only zero has norm zero. */
  lemma NormSqPositive(a: Complex)
    requires a != Zero
    ensures NormSq(a) > 0.0
  {
    if a.re != 0.0 {
      SqPositive(a.re);
      SqNonNegative(a.im);
    } else {
      SqPositive(a.im);
      SqNonNegative(a.re);
    }
  }

  /** Complex division. The floating-point code yields inf/NaN for a zero divisor;
      this model has no NaN and yields Zero there. */
  function Div(a: Complex, b: Complex): Complex {
    if NormSq(b) == 0.0 then Zero else ScaleBy(Mul(a, Conj(b)), 1.0 / NormSq(b))
  }

  /** A complex value divided by a real one, as `gr_complex / float`. Floating point
      gives inf/NaN for a zero divisor; this model has no NaN and gives Zero there. */
  function DivReal(a: Complex, d: real): (r: Complex)
    ensures d != 0.0 ==> ScaleBy(r, d) == a
    ensures d == 0.0 ==> r == Zero
  {
    if d == 0.0 then Zero
    else
      assert d * (1.0 / d * a.re) == (d * (1.0 / d)) * a.re;
      assert d * (1.0 / d * a.im) == (d * (1.0 / d)) * a.im;
      ScaleBy(a, 1.0 / d)
  }

  /** Every sample multiplied by its real window coefficient. */
  function Windowed(x: seq<Complex>, win: seq<real>): (r: seq<Complex>)
    requires |win| == |x|
    ensures |r| == |x|
  {
    seq(|x|, i requires 0 <= i < |x| => ScaleBy(x[i], win[i]))
  }

  /** The real square-root function that the C++ and Python code call. */
  ghost predicate IsSqrt(sqrt: real -> real) {
    forall x: real {:trigger sqrt(x)} :: x >= 0.0 ==> sqrt(x) >= 0.0 && Sq(sqrt(x)) == x
  }

  /** An FFT plan of size `n` (forward or inverse) as the linear map it computes:
      output `k` is the sum over `j` of `matrix[k][j] * x[j]`. The twiddle factors
      e^(-/+ 2 pi i jk / n) are data here, as the model has no trigonometry; the
      properties proved below only rely on the plan's size. */
  datatype Plan = Plan(matrix: seq<seq<Complex>>)

  predicate PlanOfSize(f: Plan, n: nat) {
    |f.matrix| == n && forall k :: 0 <= k < n ==> |f.matrix[k]| == n
  }

  /** Sum over `j` of `a[j] * x[j]`. */
  function Inner(a: seq<Complex>, x: seq<Complex>): Complex
    requires |a| == |x|
  {
    if |a| == 0 then Zero else Add(Mul(a[0], x[0]), Inner(a[1..], x[1..]))
  }

  /** Running the plan on `x`: the first `k` outputs. */
  function ExecuteRows(f: Plan, x: seq<Complex>, k: nat): (r: seq<Complex>)
    requires PlanOfSize(f, |x|) && k <= |x|
    ensures |r| == k
    decreases k
  {
    if k == 0 then [] else ExecuteRows(f, x, k - 1) + [Inner(f.matrix[k - 1], x)]
  }

  /** `fft_complex::execute` on an input of the plan's size. */
  function Execute(f: Plan, x: seq<Complex>): (r: seq<Complex>)
    requires PlanOfSize(f, |x|)
    ensures |r| == |x|
  {
    ExecuteRows(f, x, |x|)
  }

  /** Output `k` of a plan is row `k` of its matrix applied to the input. */
  lemma {:induction false} ExecuteAt(f: Plan, x: seq<Complex>, k: nat, j: nat)
    requires PlanOfSize(f, |x|) && j < k <= |x|
    ensures ExecuteRows(f, x, k)[j] == Inner(f.matrix[j], x)
    decreases k
  {
    if j < k - 1 {
      ExecuteAt(f, x, k - 1, j);
    }
  }

  /** Sum of the first `n` elements. */
  function SumPrefix(s: seq<Complex>, n: nat): Complex
    requires n <= |s|
  {
    if n == 0 then Zero else Add(SumPrefix(s, n - 1), s[n - 1])
  }

  function Sum(s: seq<Complex>): Complex {
    SumPrefix(s, |s|)
  }

  /** Energy of the first `n` elements. */
  function EnergyPrefix(s: seq<Complex>, n: nat): real
    requires n <= |s|
  {
    if n == 0 then 0.0 else EnergyPrefix(s, n - 1) + NormSq(s[n - 1])
  }

  /** Total energy: sum of |s[i]|^2. */
  function Energy(s: seq<Complex>): real {
    EnergyPrefix(s, |s|)
  }

  function Scale(s: seq<Complex>, k: real): (r: seq<Complex>)
    ensures |r| == |s|
  {
    seq(|s|, i requires 0 <= i < |s| => ScaleBy(s[i], k))
  }

  /** Every element shifted by -c. */
  function Shift(s: seq<Complex>, c: Complex): (r: seq<Complex>)
    ensures |r| == |s|
  {
    seq(|s|, i requires 0 <= i < |s| => Sub(s[i], c))
  }

  /** Arithmetic mean of a non-empty sequence. */
  function Mean(s: seq<Complex>): Complex
    requires |s| > 0
  {
    ScaleBy(Sum(s), 1.0 / (|s| as real))
  }

  /** Subtract the arithmetic mean from every element. */
  function Center(s: seq<Complex>): (r: seq<Complex>)
    requires |s| > 0
    ensures |r| == |s|
    ensures Sum(r) == Zero
  {
    CenterSumsToZero(s);
    Shift(s, Mean(s))
  }

  lemma CenterAt(s: seq<Complex>, i: nat)
    requires i < |s|
    ensures Center(s)[i] == Sub(s[i], Mean(s))
  {
  }

  lemma MeanSingle(z: Complex)
    ensures Mean([z]) == z
  {
    assert Sum([z]) == Add(SumPrefix([z], 0), z);
  }

  /** A single point is its own mean, so centering leaves the one point 0. */
  lemma CenterSingle(z: Complex)
    ensures Center([z])[0] == Zero
  {
    MeanSingle(z);
    assert Center([z])[0] == Sub(z, z);
  }

  lemma EnergySingle(s: seq<Complex>)
    requires |s| == 1
    ensures Energy(s) == NormSq(s[0])
  {
    assert Energy(s) == EnergyPrefix(s, 0) + NormSq(s[0]);
  }

  lemma NormSqZero()
    ensures NormSq(Zero) == 0.0
  {
  }

  /** A one-element sequence holding 0 has energy 0. */
  lemma EnergyOfZero(s: seq<Complex>)
    requires |s| == 1 && s[0] == Zero
    ensures Energy(s) == 0.0
  {
    EnergySingle(s);
    NormSqZero();
  }

  lemma {:induction false} SumPrefixShift(s: seq<Complex>, c: Complex, n: nat)
    requires n <= |s|
    ensures SumPrefix(Shift(s, c), n) == Sub(SumPrefix(s, n), ScaleBy(c, n as real))
  {
    if n > 0 {
      SumPrefixShift(s, c, n - 1);
      var m := (n - 1) as real;
      var a, x := SumPrefix(s, n - 1), s[n - 1];
      assert Shift(s, c)[n - 1] == Sub(x, c);
      assert (n as real) * c.re == m * c.re + c.re;
      assert (n as real) * c.im == m * c.im + c.im;
      assert SumPrefix(Shift(s, c), n) == Add(Sub(a, ScaleBy(c, m)), Sub(x, c));
    }
  }

  lemma SumShift(s: seq<Complex>, c: Complex)
    ensures Sum(Shift(s, c)) == Sub(Sum(s), ScaleBy(c, |s| as real))
  {
    SumPrefixShift(s, c, |s|);
  }

  lemma CenterSumsToZero(s: seq<Complex>)
    requires |s| > 0
    ensures Sum(Shift(s, Mean(s))) == Zero
  {
    SumShift(s, Mean(s));
    var n := |s| as real;
    assert n > 0.0;
    var t := Sum(s);
    assert n * (1.0 / n) == 1.0;
    assert n * (1.0 / n * t.re) == (n * (1.0 / n)) * t.re;
    assert n * (1.0 / n * t.im) == (n * (1.0 / n)) * t.im;
    assert ScaleBy(Mean(s), n) == t;
  }

  lemma {:induction false} SumPrefixScale(s: seq<Complex>, k: real, n: nat)
    requires n <= |s|
    ensures SumPrefix(Scale(s, k), n) == ScaleBy(SumPrefix(s, n), k)
  {
    if n > 0 {
      SumPrefixScale(s, k, n - 1);
    }
  }

  lemma SumScale(s: seq<Complex>, k: real)
    ensures Sum(Scale(s, k)) == ScaleBy(Sum(s), k)
  {
    SumPrefixScale(s, k, |s|);
  }

  lemma {:induction false} EnergyPrefixScale(s: seq<Complex>, k: real, n: nat)
    requires n <= |s|
    ensures EnergyPrefix(Scale(s, k), n) == Sq(k) * EnergyPrefix(s, n)
  {
    if n > 0 {
      EnergyPrefixScale(s, k, n - 1);
      var a := s[n - 1];
      SqScale(k, a.re);
      SqScale(k, a.im);
      assert NormSq(ScaleBy(a, k)) == Sq(k) * NormSq(a);
    }
  }

  lemma EnergyScale(s: seq<Complex>, k: real)
    ensures Energy(Scale(s, k)) == Sq(k) * Energy(s)
  {
    EnergyPrefixScale(s, k, |s|);
  }

  lemma SqScale(k: real, x: real)
    ensures Sq(k * x) == Sq(k) * Sq(x)
  {
    calc {
      Sq(k * x);
      == (k * x) * (k * x);
      == (k * k) * (x * x);
      == Sq(k) * Sq(x);
    }
  }

  /** Energy only grows as the prefix lengthens. */
  lemma {:induction false} EnergyPrefixMonotone(s: seq<Complex>, m: nat, n: nat)
    requires m <= n <= |s|
    ensures EnergyPrefix(s, m) <= EnergyPrefix(s, n)
    decreases n
  {
    if m < n {
      EnergyPrefixMonotone(s, m, n - 1);
      NormSqNonNegative(s[n - 1]);
    }
  }

  lemma EnergyNonNegative(s: seq<Complex>)
    ensures Energy(s) >= 0.0
  {
    EnergyPrefixMonotone(s, 0, |s|);
  }

  lemma DivCancel(n: real, e: real)
    requires e != 0.0
    ensures n / e * e == n
  {
  }

  /** Scaling a sequence by sqrt(|s| / Energy(s)) makes its energy |s|, that is,
      mean energy 1 per element. */
  lemma NormalizedEnergy(s: seq<Complex>, fact: real)
    requires Energy(s) != 0.0
    requires Sq(fact) == (|s| as real) / Energy(s)
    ensures Energy(Scale(s, fact)) == |s| as real
  {
    var n, e := |s| as real, Energy(s);
    calc {
      Energy(Scale(s, fact));
      == { EnergyScale(s, fact); }
      Sq(fact) * e;
      == (n / e) * e;
      == { DivCancel(n, e); }
      n;
    }
  }

  /** Hermitian inner product: sum over k of x[k] * conj(y[k]). */
  function Dot(x: seq<Complex>, y: seq<Complex>): Complex
    requires |x| == |y|
  {
    if |x| == 0 then Zero else Add(Mul(x[0], Conj(y[0])), Dot(x[1..], y[1..]))
  }

  lemma {:induction false} DotConjSymmetric(x: seq<Complex>, y: seq<Complex>)
    requires |x| == |y|
    ensures Dot(x, y) == Conj(Dot(y, x))
  {
    if |x| > 0 {
      DotConjSymmetric(x[1..], y[1..]);
      var a, b := x[0], y[0];
      assert Mul(a, Conj(b)) == Conj(Mul(b, Conj(a))) by {
        assert a.re * b.re - a.im * -b.im == b.re * a.re - b.im * -a.im;
        assert a.re * -b.im + a.im * b.re == -(b.re * -a.im + b.im * a.re);
      }
      var rest := Dot(y[1..], x[1..]);
      assert Dot(x, y) == Add(Conj(Mul(b, Conj(a))), Conj(rest));
    }
  }

  lemma {:induction false} DotSelfRealNonNegative(x: seq<Complex>)
    ensures Dot(x, x).im == 0.0
    ensures Dot(x, x).re >= 0.0
  {
    if |x| > 0 {
      DotSelfRealNonNegative(x[1..]);
      var a := x[0];
      assert Mul(a, Conj(a)).re == NormSq(a);
      NormSqNonNegative(a);
    }
  }
}
