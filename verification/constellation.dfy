/** `get_constellation` of lib/ofdmradar_impl.cc: the symbol alphabet of each modulation
    scheme, and the centering and energy normalisation applied to QPSK and QAM. */
module Constellation {
  import opened ComplexMath
  import opened Results
  import opened Words
  import opened Grid

  /** `modulation_scheme`; `OtherScheme` stands for an enum value outside the four
      named ones, which reaches the `default:` branch. */
  datatype Scheme = BPSK | QPSK | PSK | QAM | OtherScheme

  function Pow2(k: nat): (r: nat)
    ensures r >= 1
  {
    if k == 0 then 1 else 2 * Pow2(k - 1)
  }

  function Pow4(k: nat): (r: nat)
    ensures r >= 1
  {
    if k == 0 then 1 else 4 * Pow4(k - 1)
  }

  /** `__builtin_popcount`: the number of one bits. */
  function Popcount(n: nat): nat {
    if n == 0 then 0 else n % 2 + Popcount(n / 2)
  }

  /** `__builtin_ffs`: one plus the index of the lowest one bit, 0 for 0. */
  function Ffs(n: nat): nat {
    if n == 0 then 0 else if n % 2 == 1 then 1 else 1 + Ffs(n / 2)
  }

  /** The QAM order guard: rejected when `order < 4`, when more than one bit is set,
      or when `ffs(order)` is even. */
  predicate QamOrderAccepted(order: int) {
    !(order < 4 || Popcount(order) != 1 || Ffs(order) % 2 == 0)
  }

  /** `n` is 4^k for some k >= 1. */
  ghost predicate IsPowerOfFour(n: int) {
    exists k: nat :: 1 <= k && n == Pow4(k)
  }

  /** Logical right shift `n >> s`. */
  function Shr(n: nat, s: nat): nat {
    if s == 0 then n else Shr(n / 2, s - 1)
  }

  /** `edge = order >> ((ffs(order) - 1) >> 1)`, the integer square root of 2^(2k). */
  function QamEdge(order: int): nat
    requires order >= 1
  {
    Shr(order, (Ffs(order) - 1) / 2)
  }

  lemma {:induction false} ShrPow2(a: nat, b: nat)
    ensures Shr(Pow2(a + b), b) == Pow2(a)
  {
    if b > 0 {
      assert Pow2(a + b) / 2 == Pow2(a + b - 1);
      ShrPow2(a, b - 1);
    }
  }

  lemma {:induction false} Pow4IsPow2(k: nat)
    ensures Pow4(k) == Pow2(2 * k)
  {
    if k > 0 {
      Pow4IsPow2(k - 1);
      assert Pow2(2 * k) == 4 * Pow2(2 * (k - 1));
    }
  }

  lemma {:induction false} Pow2Bits(j: nat)
    ensures Popcount(Pow2(j)) == 1
    ensures Ffs(Pow2(j)) == j + 1
  {
    if j > 0 {
      Pow2Bits(j - 1);
      assert Pow2(j) / 2 == Pow2(j - 1);
      assert Pow2(j) % 2 == 0;
    }
  }

  /** A number with exactly one bit set is 2^(ffs(n) - 1). */
  lemma {:induction false} SingleBitIsPow2(n: nat)
    requires Popcount(n) == 1
    ensures Ffs(n) >= 1
    ensures n == Pow2(Ffs(n) - 1)
  {
    if n % 2 == 1 {
      assert Popcount(n / 2) == 0;
      ZeroPopcount(n / 2);
    } else {
      SingleBitIsPow2(n / 2);
    }
  }

  lemma {:induction false} ZeroPopcount(n: nat)
    requires Popcount(n) == 0
    ensures n == 0
  {
    if n > 0 {
      ZeroPopcount(n / 2);
    }
  }

  /** Every power of four from 4 up, and nothing else, passes the QAM guard. */
  lemma QamAcceptsPowersOfFour(k: nat)
    requires 1 <= k
    ensures QamOrderAccepted(Pow4(k))
    ensures QamEdge(Pow4(k)) == Pow2(k)
  {
    Pow4IsPow2(k);
    Pow2Bits(2 * k);
    assert Pow4(k) >= 4 by { assert Pow4(k) == 4 * Pow4(k - 1); }
    assert (Ffs(Pow4(k)) - 1) / 2 == k;
    ShrPow2(k, k);
  }

  lemma {:induction false} QamAcceptedIsPowerOfFour(order: int)
    requires QamOrderAccepted(order)
    ensures (Ffs(order) - 1) / 2 >= 1
    ensures order == Pow4((Ffs(order) - 1) / 2)
  {
    SingleBitIsPow2(order);
    var k := (Ffs(order) - 1) / 2;
    assert Ffs(order) - 1 == 2 * k;
    Pow4IsPow2(k);
  }

  lemma {:induction false} Pow2Split(a: nat, b: nat)
    ensures Pow2(a + b) == Pow2(a) * Pow2(b)
  {
    if a > 0 {
      Pow2Split(a - 1, b);
      assert Pow2(a + b) == 2 * Pow2(a - 1 + b);
    }
  }

  /** For an accepted order the edge is an exact square root. */
  lemma QamEdgeSquared(order: int)
    requires QamOrderAccepted(order)
    ensures QamEdge(order) >= 2
    ensures QamEdge(order) * QamEdge(order) == order
  {
    QamAcceptedIsPowerOfFour(order);
    var k := (Ffs(order) - 1) / 2;
    QamAcceptsPowersOfFour(k);
    Pow4IsPow2(k);
    Pow2Split(k, k);
    assert Pow2(k) >= 2 by { assert Pow2(k) == 2 * Pow2(k - 1); }
  }

  /** Rows `x` in `[0, rows)` of the lattice: entry `x * edge + y` is `x + i*y`, as the
      nested loop writes it. */
  function LatticeRows(edge: nat, rows: nat): (r: seq<Complex>)
    ensures |r| == rows * edge
    ensures rows >= 1 && edge >= 2 ==> r[0] == Complex(0.0, 0.0) && r[1] == Complex(0.0, 1.0)
  {
    if rows == 0 then []
    else LatticeRows(edge, rows - 1) + seq(edge, y requires 0 <= y < edge => Complex((rows - 1) as real, y as real))
  }

  /** The integer QAM lattice of `edge * edge` points. */
  function QamLattice(edge: nat): seq<Complex> {
    LatticeRows(edge, edge)
  }

  lemma {:induction false} LatticeRowsEntry(edge: nat, rows: nat, x: nat, y: nat)
    requires x < rows && y < edge
    ensures Index2(edge, x, y) < rows * edge
    ensures LatticeRows(edge, rows)[Index2(edge, x, y)] == Complex(x as real, y as real)
  {
    var prefix := LatticeRows(edge, rows - 1);
    if x < rows - 1 {
      LatticeRowsEntry(edge, rows - 1, x, y);
      MulMonotone(rows, rows - 1, edge);
    } else {
      IndexIsProduct(edge, x, y);
      assert |prefix| == x * edge;
    }
  }

  /** Entry `x * edge + y` of the lattice is `x + i*y`, and `(x, y) -> x * edge + y` is a
      bijection from `[0, edge)^2` onto the lattice's index range. */
  lemma LatticeLayout(edge: nat)
    ensures |QamLattice(edge)| == edge * edge
    ensures forall x: nat, y: nat {:trigger Index2(edge, x, y)} :: x < edge && y < edge ==>
      Index2(edge, x, y) < edge * edge && QamLattice(edge)[Index2(edge, x, y)] == Complex(x as real, y as real)
    ensures forall x1: nat, y1: nat, x2: nat, y2: nat {:trigger Index2(edge, x1, y1), Index2(edge, x2, y2)} ::
      x1 < edge && y1 < edge && x2 < edge && y2 < edge && Index2(edge, x1, y1) == Index2(edge, x2, y2) ==>
      x1 == x2 && y1 == y2
    ensures forall i: nat {:trigger RowOf(edge, i)} :: i < edge * edge ==>
      RowOf(edge, i) < edge && ColOf(edge, i) < edge && Index2(edge, RowOf(edge, i), ColOf(edge, i)) == i
  {
    LatticeEntries(edge);
    LatticeIndexInjective(edge);
    forall i: nat | i < edge * edge
      ensures RowOf(edge, i) < edge && ColOf(edge, i) < edge && Index2(edge, RowOf(edge, i), ColOf(edge, i)) == i
    {
      LatticeIndexOnto(edge, i);
    }
  }

  lemma LatticeEntries(edge: nat)
    ensures forall x: nat, y: nat {:trigger Index2(edge, x, y)} :: x < edge && y < edge ==>
      Index2(edge, x, y) < edge * edge && QamLattice(edge)[Index2(edge, x, y)] == Complex(x as real, y as real)
  {
    forall x: nat, y: nat {:trigger Index2(edge, x, y)} | x < edge && y < edge
      ensures Index2(edge, x, y) < edge * edge && QamLattice(edge)[Index2(edge, x, y)] == Complex(x as real, y as real)
    {
      LatticeRowsEntry(edge, edge, x, y);
    }
  }

  lemma LatticeIndexInjective(edge: nat)
    ensures forall x1: nat, y1: nat, x2: nat, y2: nat {:trigger Index2(edge, x1, y1), Index2(edge, x2, y2)} ::
      x1 < edge && y1 < edge && x2 < edge && y2 < edge && Index2(edge, x1, y1) == Index2(edge, x2, y2) ==>
      x1 == x2 && y1 == y2
  {
    forall x1: nat, y1: nat, x2: nat, y2: nat {:trigger Index2(edge, x1, y1), Index2(edge, x2, y2)} |
      x1 < edge && y1 < edge && x2 < edge && y2 < edge && Index2(edge, x1, y1) == Index2(edge, x2, y2)
      ensures x1 == x2 && y1 == y2
    {
      IndexUnique(edge, x1, y1, x2, y2);
    }
  }

  lemma LatticeIndexOnto(edge: nat, i: nat)
    requires i < edge * edge
    ensures RowOf(edge, i) < edge && ColOf(edge, i) < edge && Index2(edge, RowOf(edge, i), ColOf(edge, i)) == i
  {
    DivBound(i, edge);
    IndexIsProduct(edge, RowOf(edge, i), ColOf(edge, i));
  }

  lemma EnergyFirstTwo(t: seq<Complex>)
    requires |t| >= 2
    ensures Energy(t) >= NormSq(t[0]) + NormSq(t[1])
  {
    assert EnergyPrefix(t, 2) == NormSq(t[0]) + NormSq(t[1]) by {
      assert EnergyPrefix(t, 1) == NormSq(t[0]);
    }
    EnergyPrefixMonotone(t, 2, |t|);
  }

  /** Two distinct entries make the centered energy positive, so the normalisation
      factor is defined. */
  lemma CenteredEnergyPositive(s: seq<Complex>, c: Complex)
    requires |s| >= 2 && s[0] != s[1]
    ensures Energy(Shift(s, c)) > 0.0
  {
    var t := Shift(s, c);
    ShiftKeepsDistinct(s, c);
    if t[0] != Zero {
      EnergyLeadPositive(t, 0);
    } else {
      EnergyLeadPositive(t, 1);
    }
  }

  lemma ShiftKeepsDistinct(s: seq<Complex>, c: Complex)
    requires |s| >= 2 && s[0] != s[1]
    ensures Shift(s, c)[0] != Zero || Shift(s, c)[1] != Zero
  {
  }

  /** A sequence with a non-zero entry among its first two has positive energy. */
  lemma EnergyLeadPositive(t: seq<Complex>, k: nat)
    requires k < 2 <= |t| && t[k] != Zero
    ensures Energy(t) > 0.0
  {
    EnergyFirstTwo(t);
    NormSqNonNegative(t[1 - k]);
    NormSqPositive(t[k]);
  }

  lemma SqrtPositive(f: real, x: real)
    requires f >= 0.0 && x > 0.0 && Sq(f) == x
    ensures f > 0.0
  {
    if f == 0.0 {
    }
  }

  /** `constellation_normalize_energy`'s factor `sqrt(size / total)` for the centered
      symbols. */
  function NormFactor(raw: seq<Complex>, sqrt: real -> real): (fact: real)
    requires |raw| >= 2 && raw[0] != raw[1]
    requires IsSqrt(sqrt)
    ensures fact > 0.0
    ensures Energy(Center(raw)) > 0.0
    ensures Sq(fact) == (|raw| as real) / Energy(Center(raw))
  {
    var total := Energy(Center(raw));
    CenteredEnergyPositive(raw, Mean(raw));
    var x := (|raw| as real) / total;
    assert x > 0.0;
    SqrtPositive(sqrt(x), x);
    sqrt(x)
  }

  /** Symbol `i` after centering and normalisation: `(raw[i] - mean) * fact`. */
  function NormalisedPoint(raw: seq<Complex>, sqrt: real -> real, i: int): Complex
    requires |raw| >= 2 && raw[0] != raw[1]
    requires IsSqrt(sqrt)
    requires 0 <= i < |raw|
  {
    ScaleBy(Sub(raw[i], Mean(raw)), NormFactor(raw, sqrt))
  }

  /** `constellation_center` then `constellation_normalize_energy`: subtract the mean,
      then scale by `sqrt(size / total)`. The symbols end with zero sum and total
      energy equal to their count. */
  method CenterNormalize(raw: seq<Complex>, sqrt: real -> real) returns (r: seq<Complex>)
    requires |raw| >= 2 && raw[0] != raw[1]
    requires IsSqrt(sqrt)
    ensures |r| == |raw|
    ensures forall i {:trigger NormalisedPoint(raw, sqrt, i)} :: 0 <= i < |r| ==> r[i] == NormalisedPoint(raw, sqrt, i)
    ensures Sum(r) == Zero
    ensures Energy(r) == |raw| as real
  {
    var fact := NormFactor(raw, sqrt);
    NormalizedEnergy(Center(raw), fact);
    SumScale(Center(raw), fact);
    r := Scale(Center(raw), fact);
  }

  /** The QAM branch of `get_constellation`: the guard, then the centered and
      normalised `edge x edge` lattice, where entry `x * edge + y` comes from `x + i*y`. */
  method QamConstellation(order: int, sqrt: real -> real) returns (r: Result<seq<Complex>>)
    requires IsSqrt(sqrt)
    ensures r.Ok? <==> IsPowerOfFour(order)
    ensures r.Err? ==> r.error == InvalidQamOrder
    ensures r.Ok? ==> UnitPower(r.value) && QamLayout(order, sqrt, r.value)
  {
    QamGuardIsPowerOfFour(order);
    if !QamOrderAccepted(order) {
      return Err(InvalidQamOrder);
    }
    var edge := QamEdge(order);
    QamEdgeSquared(order);
    LatticeCorner(edge);
    LatticeLayout(edge);
    var lattice := QamLattice(edge);
    var points := CenterNormalize(lattice, sqrt);
    forall x: nat, y: nat | x < edge && y < edge
      ensures Index2(edge, x, y) < order
      ensures points[Index2(edge, x, y)] ==
        ScaleBy(Sub(Complex(x as real, y as real), Mean(lattice)), NormFactor(lattice, sqrt))
    {
      assert points[Index2(edge, x, y)] == NormalisedPoint(lattice, sqrt, Index2(edge, x, y));
    }
    r := Ok(points);
  }

  /** The first two lattice points, `0` and `i`, differ. */
  lemma LatticeCorner(edge: nat)
    requires edge >= 2
    ensures |QamLattice(edge)| >= 2
    ensures QamLattice(edge)[0] == Complex(0.0, 0.0)
    ensures QamLattice(edge)[1] == Complex(0.0, 1.0)
  {
    LatticeRowsEntry(edge, edge, 0, 0);
    LatticeRowsEntry(edge, edge, 0, 1);
    MulMonotone(edge, 2, edge);
  }

  /** `get_constellation`. `sqrt` is `std::sqrt`; `unitPoint(i, order)` is the point
      `cos(2*pi*i/order) + i*sin(2*pi*i/order)` (trigonometry is not modelled). It
      succeeds exactly for BPSK, QPSK, PSK of order at least 2 and QAM of an order that is
      a power of four from 4 up. */
  method GetConstellation(scheme: Scheme, order: int, sqrt: real -> real, unitPoint: (int, int) -> Complex)
    returns (r: Result<seq<Complex>>)
    requires IsSqrt(sqrt)
    ensures r.Ok? <==> Accepted(scheme, order)
    ensures r.Err? ==> r.error == ErrorFor(scheme)
    ensures r.Ok? ==> |r.value| == SizeFor(scheme, order)
    ensures scheme == BPSK ==> r == Ok([Complex(1.0, 0.0), Complex(-1.0, 0.0)])
    ensures scheme == PSK && r.Ok? ==> forall i :: 0 <= i < order ==> r.value[i] == unitPoint(i, order)
    ensures (scheme == QPSK || scheme == QAM) && r.Ok? ==> UnitPower(r.value)
    ensures scheme == QPSK ==> r.Ok? && QpskAlphabet(r.value, sqrt)
    ensures scheme == QAM && r.Ok? ==> QamLayout(order, sqrt, r.value)
  {
    if scheme == BPSK || scheme == QPSK {
      r := FixedConstellation(scheme, sqrt);
    } else {
      r := OrderedConstellation(scheme, order, sqrt, unitPoint);
    }
  }

  /** The branches of `get_constellation` whose alphabet does not depend on the order. */
  method FixedConstellation(scheme: Scheme, sqrt: real -> real) returns (r: Result<seq<Complex>>)
    requires IsSqrt(sqrt)
    requires scheme == BPSK || scheme == QPSK
    ensures r.Ok? && |r.value| == SizeFor(scheme, 0)
    ensures scheme == BPSK ==> r == Ok([Complex(1.0, 0.0), Complex(-1.0, 0.0)])
    ensures scheme == QPSK ==> UnitPower(r.value) && QpskAlphabet(r.value, sqrt)
  {
    if scheme == BPSK {
      r := Ok([Complex(1.0, 0.0), Complex(-1.0, 0.0)]);
    } else {
      var points := QpskConstellation(sqrt);
      r := Ok(points);
    }
  }

  /** The branches of `get_constellation` that check the requested order, and the
      rejection of any other scheme. */
  method OrderedConstellation(scheme: Scheme, order: int, sqrt: real -> real, unitPoint: (int, int) -> Complex)
    returns (r: Result<seq<Complex>>)
    requires IsSqrt(sqrt)
    requires scheme != BPSK && scheme != QPSK
    ensures r.Ok? <==> Accepted(scheme, order)
    ensures r.Err? ==> r.error == ErrorFor(scheme)
    ensures r.Ok? ==> |r.value| == order
    ensures scheme == PSK && r.Ok? ==> forall i :: 0 <= i < order ==> r.value[i] == unitPoint(i, order)
    ensures scheme == QAM && r.Ok? ==> UnitPower(r.value) && QamLayout(order, sqrt, r.value)
  {
    match scheme
    case PSK =>
      r := PskConstellation(order, unitPoint);
    case QAM =>
      r := QamConstellation(order, sqrt);
    case OtherScheme =>
      r := Err(UnsupportedScheme);
  }

  /** Zero mean and average energy one: what centering and normalising achieve. */
  predicate UnitPower(s: seq<Complex>) {
    Sum(s) == Zero && Energy(s) == |s| as real
  }

  /** The QPSK alphabet `(+-1 +- i) / sqrt(2)`, in the order of the raw points
      `0, 1, i, 1+i`. */
  predicate QpskAlphabet(s: seq<Complex>, sqrt: real -> real) {
    |s| == 4 &&
    s[0] == ScaleBy(Complex(-0.5, -0.5), sqrt(2.0)) &&
    s[1] == ScaleBy(Complex(0.5, -0.5), sqrt(2.0)) &&
    s[2] == ScaleBy(Complex(-0.5, 0.5), sqrt(2.0)) &&
    s[3] == ScaleBy(Complex(0.5, 0.5), sqrt(2.0))
  }

  /** The QAM alphabet of `order == edge * edge` points: entry `x * edge + y` is the
      lattice point `x + i*y`, moved by the lattice mean and scaled by the
      normalisation factor. */
  ghost predicate QamLayout(order: int, sqrt: real -> real, s: seq<Complex>)
    requires IsSqrt(sqrt)
  {
    order >= 4 &&
    var edge := QamEdge(order);
    edge >= 2 && edge * edge == order && |s| == order &&
    (LatticeCorner(edge);
     forall x: nat, y: nat {:trigger Index2(edge, x, y)} :: x < edge && y < edge ==>
       Index2(edge, x, y) < order &&
       s[Index2(edge, x, y)] ==
         ScaleBy(Sub(Complex(x as real, y as real), Mean(QamLattice(edge))), NormFactor(QamLattice(edge), sqrt)))
  }

  /** Which requests `get_constellation` accepts. */
  ghost predicate Accepted(scheme: Scheme, order: int) {
    match scheme
    case BPSK => true
    case QPSK => true
    case PSK => order >= 2
    case QAM => IsPowerOfFour(order)
    case OtherScheme => false
  }

  /** The exception each scheme's branch throws. */
  function ErrorFor(scheme: Scheme): Error {
    match scheme
    case PSK => InvalidConstellationOrder
    case QAM => InvalidQamOrder
    case _ => UnsupportedScheme
  }

  /** The number of symbols each scheme's branch returns. */
  function SizeFor(scheme: Scheme, order: int): int {
    match scheme
    case BPSK => 2
    case QPSK => 4
    case _ => order
  }

  /** The QPSK branch's raw points `0, 1, i, 1+i`, written over the reals `zero` and
      `one` so that the proofs below work with variables; the lemmas take
      `one == zero + 1`, and `QpskConstellation` uses `zero == 0`. */
  function QpskRaw(zero: real, one: real): seq<Complex> {
    [Complex(zero, zero), Complex(one, zero), Complex(zero, one), Complex(one, one)]
  }

  lemma SumOfFour(s: seq<Complex>)
    requires |s| == 4
    ensures Sum(s) == Add(Add(Add(Add(Zero, s[0]), s[1]), s[2]), s[3])
  {
    assert SumPrefix(s, 1) == Add(Zero, s[0]);
    assert SumPrefix(s, 2) == Add(SumPrefix(s, 1), s[1]);
    assert SumPrefix(s, 3) == Add(SumPrefix(s, 2), s[2]);
  }

  lemma EnergyOfFour(s: seq<Complex>)
    requires |s| == 4
    ensures Energy(s) == NormSq(s[0]) + NormSq(s[1]) + NormSq(s[2]) + NormSq(s[3])
  {
    assert EnergyPrefix(s, 1) == NormSq(s[0]);
    assert EnergyPrefix(s, 2) == EnergyPrefix(s, 1) + NormSq(s[1]);
    assert EnergyPrefix(s, 3) == EnergyPrefix(s, 2) + NormSq(s[2]);
  }

  lemma QpskSum(zero: real, one: real)
    ensures Sum(QpskRaw(zero, one)) == Complex(2.0 * zero + 2.0 * one, 2.0 * zero + 2.0 * one)
  {
    SumOfFour(QpskRaw(zero, one));
  }

  /** The mean of the QPSK points is `(1 + i) / 2` (shifted by `zero`). */
  lemma QpskMean(zero: real, one: real)
    requires one == zero + 1.0
    ensures Mean(QpskRaw(zero, one)) == Complex(zero + 0.5, zero + 0.5)
  {
    QpskSum(zero, one);
  }

  /** Centering moves the QPSK points to `(+-1 +- i) / 2`. */
  lemma QpskCentered(zero: real, one: real)
    requires one == zero + 1.0
    ensures |Center(QpskRaw(zero, one))| == 4
    ensures Center(QpskRaw(zero, one))[0] == Complex(-0.5, -0.5)
    ensures Center(QpskRaw(zero, one))[1] == Complex(0.5, -0.5)
    ensures Center(QpskRaw(zero, one))[2] == Complex(-0.5, 0.5)
    ensures Center(QpskRaw(zero, one))[3] == Complex(0.5, 0.5)
  {
    var raw := QpskRaw(zero, one);
    var m := Mean(raw);
    QpskMean(zero, one);
    CenterAt(raw, 0);
    CenterAt(raw, 1);
    CenterAt(raw, 2);
    CenterAt(raw, 3);
  }

  /** ... of total energy 2. */
  lemma QpskCenteredEnergy(zero: real, one: real)
    requires one == zero + 1.0
    ensures Energy(Center(QpskRaw(zero, one))) == 2.0
  {
    QpskCentered(zero, one);
    EnergyOfFour(Center(QpskRaw(zero, one)));
  }

  /** The QPSK branch: the points `0, 1, i, 1+i`, centered and normalised, that is
      `(+-1 +- i) / sqrt(2)`, written `sqrt(2) * (+-0.5 +- 0.5i)`. */
  method QpskConstellation(sqrt: real -> real) returns (r: seq<Complex>)
    requires IsSqrt(sqrt)
    ensures UnitPower(r) && QpskAlphabet(r, sqrt)
  {
    r := QpskFrom(0.0, 1.0, sqrt);
  }

  /** `QpskConstellation` over the points `zero + {0, 1, i, 1+i}`: centering removes
      the shift, so any `zero` gives the same result and the proof can work on names
      rather than on literal points. */
  method QpskFrom(zero: real, one: real, sqrt: real -> real) returns (r: seq<Complex>)
    requires one == zero + 1.0 && IsSqrt(sqrt)
    ensures UnitPower(r) && QpskAlphabet(r, sqrt)
  {
    QpskFactor(zero, one, sqrt);
    r := QpskScaled(zero, one, sqrt, sqrt(2.0));
    QpskPoints(zero, one, sqrt, r);
  }

  /** The raw QPSK points centred and normalised: the centred points scaled by the
      normalisation factor `fact`. */
  method QpskScaled(zero: real, one: real, sqrt: real -> real, fact: real) returns (r: seq<Complex>)
    requires zero != one && IsSqrt(sqrt)
    requires NormFactor(QpskRaw(zero, one), sqrt) == fact
    ensures |r| == 4 && Sum(r) == Zero && Energy(r) == 4.0
    ensures forall k :: 0 <= k < 4 ==> r[k] == ScaleBy(Center(QpskRaw(zero, one))[k], fact)
  {
    var raw := QpskRaw(zero, one);
    r := CenterNormalize(raw, sqrt);
    forall k | 0 <= k < 4
      ensures r[k] == ScaleBy(Center(raw)[k], fact)
    {
      assert r[k] == NormalisedPoint(raw, sqrt, k);
      CenterAt(raw, k);
    }
  }

  /** The QPSK normalisation factor is `sqrt(4 / 2)`. */
  lemma QpskFactor(zero: real, one: real, sqrt: real -> real)
    requires one == zero + 1.0 && IsSqrt(sqrt)
    ensures NormFactor(QpskRaw(zero, one), sqrt) == sqrt(2.0)
  {
    var raw := QpskRaw(zero, one);
    var e := Energy(Center(raw));
    QpskCenteredEnergy(zero, one);
    assert (|raw| as real) / e == 2.0;
    assert NormFactor(raw, sqrt) == sqrt((|raw| as real) / e);
  }

  /** The centred and normalised QPSK points, spelled out. */
  lemma QpskPoints(zero: real, one: real, sqrt: real -> real, r: seq<Complex>)
    requires one == zero + 1.0 && IsSqrt(sqrt)
    requires |r| == 4
    requires forall k :: 0 <= k < 4 ==> r[k] == ScaleBy(Center(QpskRaw(zero, one))[k], sqrt(2.0))
    ensures r[0] == ScaleBy(Complex(-0.5, -0.5), sqrt(2.0))
    ensures r[1] == ScaleBy(Complex(0.5, -0.5), sqrt(2.0))
    ensures r[2] == ScaleBy(Complex(-0.5, 0.5), sqrt(2.0))
    ensures r[3] == ScaleBy(Complex(0.5, 0.5), sqrt(2.0))
  {
    QpskCentered(zero, one);
  }

  /** The PSK branch: `order` points on the unit circle, rejected below order 2. */
  function PskConstellation(order: int, unitPoint: (int, int) -> Complex): (r: Result<seq<Complex>>)
    ensures r.Ok? <==> order >= 2
    ensures r.Err? ==> r.error == InvalidConstellationOrder
    ensures r.Ok? ==> |r.value| == order && forall i :: 0 <= i < order ==> r.value[i] == unitPoint(i, order)
  {
    if order < 2 then Err(InvalidConstellationOrder)
    else Ok(seq(order, i => unitPoint(i, order)))
  }

  /** The QAM guard accepts exactly the powers of four from 4 up. */
  lemma QamGuardIsPowerOfFour(order: int)
    ensures QamOrderAccepted(order) <==> IsPowerOfFour(order)
  {
    if QamOrderAccepted(order) {
      QamAcceptedIsPowerOfFour(order);
    }
    if IsPowerOfFour(order) {
      var k: nat :| 1 <= k && order == Pow4(k);
      QamAcceptsPowersOfFour(k);
    }
  }
}
