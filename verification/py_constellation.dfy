/** The Python reference model of the symbol alphabet (docs/ofdmradar/constellation.py):
    the `Constellation` class, its QAM and BPSK alphabets, and the mapping of indices
    and bit strings to symbols. */
module PyConstellation {
  import opened ComplexMath
  import opened Results
  import opened Grid
  import Cpp = Constellation

  /** A constructed object: `order`, `power` (bits per symbol) and `symbols`. The
      `mods` array is derived from `power`, see `Mods`. */
  datatype Constellation = Constellation(order: int, power: nat, symbols: seq<Complex>)

  /** `str.upper` on ASCII text. */
  function Upper(s: string): (r: string)
    ensures |r| == |s|
  {
    seq(|s|, i requires 0 <= i < |s| => if 'a' <= s[i] <= 'z' then (s[i] as int - 32) as char else s[i])
  }

  // ---------------------------------------------------------------------------------
  // The QAM order check

  /** The exponent `p` with `2^p == n` when there is one: where `numpy.log2(n)` is an
      integer. */
  function Log2Exact(n: int): Option<nat>
    decreases if n > 0 then n else 0
  {
    if n <= 0 then None
    else if n == 1 then Some(0)
    else if n % 2 == 1 then None
    else match Log2Exact(n / 2)
      case None => None
      case Some(p) => Some(p + 1)
  }

  lemma {:induction false} Log2ExactCorrect(n: int, p: nat)
    ensures Log2Exact(n) == Some(p) <==> n == Cpp.Pow2(p)
    decreases if n > 0 then n else 0
  {
    if n >= 2 && n % 2 == 0 && p >= 1 {
      Log2ExactCorrect(n / 2, p - 1);
    } else if n >= 2 && n % 2 == 0 && p == 0 {
      Log2ExactSome(n / 2);
    } else if p >= 1 {
      assert Cpp.Pow2(p) == 2 * Cpp.Pow2(p - 1);
    }
  }

  lemma Log2ExactSome(n: int)
    ensures Log2Exact(2 * n) != Some(0)
  {
  }

  /** The constructor's QAM checks as written: `order > 0`, and `log2(order)` is an
      integer with its lowest bit clear. */
  predicate QamOrderAsWritten(order: int) {
    order > 0 && Log2Exact(order).Some? && Log2Exact(order).value % 2 == 0
  }

  /** The checks with order 1 excluded as well, so that the alphabet has two or more
      points to normalise; this is the C++ guard's condition. */
  predicate QamOrderChecked(order: int) {
    QamOrderAsWritten(order) && order != 1
  }

  /** The checks as written admit exactly the powers of four, 4^0 = 1 included. */
  lemma QamOrderAsWrittenIsPowerOfFour(order: int)
    ensures QamOrderAsWritten(order) <==> exists k: nat :: order == Cpp.Pow4(k)
  {
    if QamOrderAsWritten(order) {
      var p := Log2Exact(order).value;
      Log2ExactCorrect(order, p);
      Cpp.Pow4IsPow2(p / 2);
      assert order == Cpp.Pow4(p / 2);
    }
    if exists k: nat :: order == Cpp.Pow4(k) {
      var k: nat :| order == Cpp.Pow4(k);
      Cpp.Pow4IsPow2(k);
      Log2ExactCorrect(order, 2 * k);
    }
  }

  /** With order 1 excluded, the Python check accepts exactly the orders the C++ guard
      of `get_constellation` accepts. */
  lemma QamOrderCheckedMatchesCpp(order: int)
    ensures QamOrderChecked(order) <==> Cpp.IsPowerOfFour(order)
  {
    QamOrderAsWrittenIsPowerOfFour(order);
    if QamOrderChecked(order) {
      var k: nat :| order == Cpp.Pow4(k);
      assert k >= 1;
    }
    if Cpp.IsPowerOfFour(order) {
      var k: nat :| 1 <= k && order == Cpp.Pow4(k);
      assert order == 4 * Cpp.Pow4(k - 1);
      assert exists k': nat :: order == Cpp.Pow4(k');
    }
  }

  // ---------------------------------------------------------------------------------
  // normalize_constellation

  /** `normalize_constellation`: subtract the mean, then divide by the square root of
      the mean energy. */
  function Normalize(c: seq<Complex>, sqrt: real -> real): (r: seq<Complex>)
    requires |c| > 0
    ensures |r| == |c|
  {
    var noOffset := Center(c);
    var avgEnergy := Energy(noOffset) / (|c| as real);
    seq(|c|, i requires 0 <= i < |c| => DivReal(noOffset[i], sqrt(avgEnergy)))
  }

  /** Two distinct points normalise to zero sum and mean energy 1. */
  lemma NormalizeUnitEnergy(c: seq<Complex>, sqrt: real -> real)
    requires IsSqrt(sqrt)
    requires |c| >= 2 && c[0] != c[1]
    ensures Sum(Normalize(c, sqrt)) == Zero
    ensures Energy(Normalize(c, sqrt)) == |c| as real
  {
    var noOffset := Center(c);
    var n, e := |c| as real, Energy(noOffset);
    Cpp.CenteredEnergyPositive(c, Mean(c));
    var avg := e / n;
    var f := sqrt(avg);
    Cpp.SqrtPositive(f, avg);
    var g := 1.0 / f;
    assert Normalize(c, sqrt) == Scale(noOffset, g);
    assert Sq(g) == n / e by {
      assert f * f == e / n;
      assert g * g == 1.0 / (f * f);
    }
    NormalizedEnergy(noOffset, g);
    SumScale(noOffset, g);
  }

  // ---------------------------------------------------------------------------------
  // The constructor

  /** `mods = 2 ** (power - 1 - arange(power))`: the place values of a big-endian
      group of `power` bits. */
  function Mods(power: nat): (r: seq<int>)
    ensures |r| == power
  {
    seq(power, k requires 0 <= k < power => Cpp.Pow2(power - 1 - k))
  }

  /** The QAM alphabet for `power = log2(order)`: the `edge x edge` integer lattice with
      `edge = 2 ** (power >> 1)`, normalised. */
  function QamSymbols(power: nat, sqrt: real -> real): (r: seq<Complex>)
  {
    var edge := Cpp.Pow2(power / 2);
    assert |Cpp.QamLattice(edge)| == edge * edge >= 1 by { MulAtLeast(edge, edge); }
    Normalize(Cpp.QamLattice(edge), sqrt)
  }

  /** The QAM branch with the checks as written. */
  function QamAsWritten(order: int, sqrt: real -> real): Result<Constellation> {
    if !QamOrderAsWritten(order) then Err(InvalidQamOrder)
    else Ok(Constellation(order, Log2Exact(order).value, QamSymbols(Log2Exact(order).value, sqrt)))
  }

  /** The QAM branch with order 1 rejected. */
  function Qam(order: int, sqrt: real -> real): Result<Constellation> {
    if !QamOrderChecked(order) then Err(InvalidQamOrder)
    else Ok(Constellation(order, Log2Exact(order).value, QamSymbols(Log2Exact(order).value, sqrt)))
  }

  /** An object the constructor can return: `power` bits per symbol, `2^power`
      symbols. */
  predicate Valid(c: Constellation) {
    c.order == Cpp.Pow2(c.power) && |c.symbols| == c.order
  }

  /** The accepted QAM orders are the powers of four from 4 up. Such an alphabet has
      `power = log2(order)` bits per symbol, `order` symbols laid out as the lattice
      (entry `x * edge + y` from `x + i*y`), zero sum and mean energy 1. */
  lemma QamAlphabet(order: int, sqrt: real -> real)
    requires IsSqrt(sqrt)
    ensures Qam(order, sqrt).Ok? <==> Cpp.IsPowerOfFour(order)
    ensures Qam(order, sqrt).Err? ==> Qam(order, sqrt).error == InvalidQamOrder
    ensures Qam(order, sqrt).Ok? ==>
      var c := Qam(order, sqrt).value;
      Valid(c) && c.order == order && c.power % 2 == 0 && c.power >= 2 &&
      Sum(c.symbols) == Zero && Energy(c.symbols) == order as real
  {
    QamOrderCheckedMatchesCpp(order);
    if QamOrderChecked(order) {
      var p := Log2Exact(order).value;
      Log2ExactCorrect(order, p);
      var edge := Cpp.Pow2(p / 2);
      Cpp.Pow2Split(p / 2, p / 2);
      assert p / 2 + p / 2 == p;
      assert edge * edge == order;
      assert Cpp.Pow2(0) == 1;
      assert p >= 2;
      assert edge >= 2 by { assert edge == 2 * Cpp.Pow2(p / 2 - 1); }
      Cpp.LatticeCorner(edge);
      NormalizeUnitEnergy(Cpp.QamLattice(edge), sqrt);
    }
  }

  /** `Constellation(scheme, order)` as written: the scheme name is compared after
      upper-casing; QAM goes through the checks as written, so order 1 is accepted;
      BPSK ignores `order` and uses `[1, -1]`, unnormalised; any other name is
      rejected. */
  function New(scheme: string, order: int, sqrt: real -> real): Result<Constellation> {
    if Upper(scheme) == "QAM" then QamAsWritten(order, sqrt)
    else if Upper(scheme) == "BPSK" then Ok(Constellation(2, 1, [Complex(1.0, 0.0), Complex(-1.0, 0.0)]))
    else Err(UnsupportedScheme)
  }

  /** The constructor with order 1 rejected, as evidently intended. */
  function NewIntended(scheme: string, order: int, sqrt: real -> real): Result<Constellation> {
    if Upper(scheme) == "QAM" then Qam(order, sqrt)
    else if Upper(scheme) == "BPSK" then Ok(Constellation(2, 1, [Complex(1.0, 0.0), Complex(-1.0, 0.0)]))
    else Err(UnsupportedScheme)
  }

  /** The constructor as written accepts, for QAM, exactly the powers of four with
      4^0 = 1 included; every object it returns is valid; BPSK is exactly `[1, -1]`
      with order 2 and one bit per symbol; unknown schemes raise. */
  lemma NewAsWritten(scheme: string, order: int, sqrt: real -> real)
    ensures New(scheme, order, sqrt).Ok? ==> Valid(New(scheme, order, sqrt).value)
    ensures Upper(scheme) == "QAM" ==>
      (New(scheme, order, sqrt).Ok? <==> exists k: nat :: order == Cpp.Pow4(k))
    ensures Upper(scheme) == "QAM" && New(scheme, order, sqrt).Err? ==>
      New(scheme, order, sqrt).error == InvalidQamOrder
    ensures Upper(scheme) == "BPSK" ==>
      New(scheme, order, sqrt) == Ok(Constellation(2, 1, [Complex(1.0, 0.0), Complex(-1.0, 0.0)]))
    ensures Upper(scheme) != "QAM" && Upper(scheme) != "BPSK" ==> New(scheme, order, sqrt) == Err(UnsupportedScheme)
  {
    QamOrderAsWrittenIsPowerOfFour(order);
    if Upper(scheme) == "QAM" && QamOrderAsWritten(order) {
      var p := Log2Exact(order).value;
      Log2ExactCorrect(order, p);
      var edge := Cpp.Pow2(p / 2);
      Cpp.Pow2Split(p / 2, p / 2);
      assert p / 2 + p / 2 == p;
      assert |Cpp.QamLattice(edge)| == order;
    }
    assert Cpp.Pow2(1) == 2;
  }

  /** The corrected constructor accepts, for QAM, exactly the orders the C++ guard of
      `get_constellation` accepts, and its alphabets have at least one bit per symbol. */
  lemma NewValid(scheme: string, order: int, sqrt: real -> real)
    requires IsSqrt(sqrt)
    ensures NewIntended(scheme, order, sqrt).Ok? ==>
      Valid(NewIntended(scheme, order, sqrt).value) && NewIntended(scheme, order, sqrt).value.power >= 1
    ensures Upper(scheme) == "QAM" ==> (NewIntended(scheme, order, sqrt).Ok? <==> Cpp.IsPowerOfFour(order))
  {
    QamAlphabet(order, sqrt);
    assert Cpp.Pow2(1) == 2;
  }

  /** The two constructors differ exactly on QAM of order 1. */
  lemma NewDiffersOnlyAtOrderOne(scheme: string, order: int, sqrt: real -> real)
    ensures New(scheme, order, sqrt) != NewIntended(scheme, order, sqrt) <==> Upper(scheme) == "QAM" && order == 1
  {
    OrderOneOnlyDifference(order);
  }

  lemma SqrtZero(sqrt: real -> real)
    requires IsSqrt(sqrt)
    ensures sqrt(0.0) == 0.0
  {
    SqZero(sqrt(0.0));
  }

  /** Entry `i` of the normalised alphabet, spelled out. */
  lemma NormalizeAt(c: seq<Complex>, sqrt: real -> real, i: nat)
    requires i < |c|
    ensures Normalize(c, sqrt)[i] == DivReal(Center(c)[i], sqrt(Energy(Center(c)) / (|c| as real)))
  {
  }

  /** A one-point sequence centres to the point 0, of energy 0. */
  lemma CenterSinglePoint(c: seq<Complex>)
    requires |c| == 1
    ensures Energy(Center(c)) == 0.0
  {
    assert c == [c[0]];
    CenterSingle(c[0]);
    EnergyOfZero(Center(c));
  }

  /** Division by a zero real gives 0 here, where floating point gives NaN. */
  lemma DivRealByZero(x: Complex, d: real)
    requires d == 0.0
    ensures DivReal(x, d) == Zero
  {
  }

  /** A one-point alphabet centres to the point 0, its mean energy is 0, and the
      division by `sqrt(0)` is 0/0: NaN in numpy, `Zero` in this model. */
  lemma NormalizeSinglePoint(c: seq<Complex>, sqrt: real -> real)
    requires IsSqrt(sqrt)
    requires |c| == 1
    ensures |Normalize(c, sqrt)| == 1 && Normalize(c, sqrt)[0] == Zero
  {
    NormalizeAt(c, sqrt, 0);
    var d := sqrt(Energy(Center(c)) / 1.0);
    assert d == 0.0 by {
      CenterSinglePoint(c);
      SqrtZero(sqrt);
    }
    DivRealByZero(Center(c)[0], d);
  }

  lemma SinglePointEnergy(c: seq<Complex>, sqrt: real -> real)
    requires IsSqrt(sqrt)
    requires |c| == 1
    ensures Energy(Normalize(c, sqrt)) == 0.0
  {
    NormalizeSinglePoint(c, sqrt);
    EnergyOfZero(Normalize(c, sqrt));
  }

  /** The checks as written accept order 1, as `log2(1) = 0` is even; the corrected
      checks reject it. */
  lemma OrderOneAccepted()
    ensures QamOrderAsWritten(1) && Log2Exact(1) == Some(0)
    ensures !QamOrderChecked(1)
  {
  }

  /** A power whose lattice edge is 1 gives a one-point alphabet holding 0. */
  lemma OnePointAlphabet(power: nat, sqrt: real -> real)
    requires IsSqrt(sqrt)
    requires |Cpp.QamLattice(Cpp.Pow2(power / 2))| == 1
    ensures |QamSymbols(power, sqrt)| == 1 && QamSymbols(power, sqrt)[0] == Zero
  {
    NormalizeSinglePoint(Cpp.QamLattice(Cpp.Pow2(power / 2)), sqrt);
  }

  /** ... and that alphabet has energy 0. */
  lemma OnePointAlphabetEnergy(power: nat, sqrt: real -> real)
    requires IsSqrt(sqrt)
    requires |Cpp.QamLattice(Cpp.Pow2(power / 2))| == 1
    ensures Energy(QamSymbols(power, sqrt)) == 0.0
  {
    SinglePointEnergy(Cpp.QamLattice(Cpp.Pow2(power / 2)), sqrt);
  }

  /** Among the orders the checks as written accept, exactly order 1 is rejected by the
      corrected checks, and it is the only accepted order below 4. */
  lemma OrderOneOnlyDifference(order: int)
    ensures QamOrderAsWritten(order) && !QamOrderChecked(order) <==> order == 1
    ensures QamOrderAsWritten(order) && order < 4 <==> order == 1
  {
    if order == 1 {
      OrderOneAccepted();
    }
    if QamOrderAsWritten(order) && order < 4 {
      LowOrderLattice(order);
    }
  }

  /** An accepted order below 4 has `power` 0, hence a lattice of one point. */
  lemma LowOrderLattice(order: int)
    requires QamOrderAsWritten(order) && order < 4
    ensures Log2Exact(order).value == 0 && order == 1
    ensures |Cpp.QamLattice(Cpp.Pow2(Log2Exact(order).value / 2))| == 1
  {
    var p := Log2Exact(order).value;
    Log2ExactCorrect(order, p);
    assert p == 0;
  }

  /** Order 1 passes the checks as written, and the constructor then returns a one-point
      alphabet holding 0 (0/0, that is NaN, in numpy). */
  lemma QamOrderOneAsWritten(order: int, sqrt: real -> real)
    requires IsSqrt(sqrt)
    requires QamOrderAsWritten(order) && order < 4
    ensures QamAsWritten(order, sqrt).Ok?
    ensures |QamAsWritten(order, sqrt).value.symbols| == 1
    ensures QamAsWritten(order, sqrt).value.symbols[0] == Zero
  {
    LowOrderLattice(order);
    OnePointAlphabet(Log2Exact(order).value, sqrt);
  }

  /** The order-1 alphabet has energy 0, so its mean energy is not 1. */
  lemma QamOrderOneEnergy(order: int, sqrt: real -> real)
    requires IsSqrt(sqrt)
    requires QamOrderAsWritten(order) && order < 4
    ensures QamAsWritten(order, sqrt).Ok?
    ensures Energy(QamAsWritten(order, sqrt).value.symbols) == 0.0
  {
    LowOrderLattice(order);
    OnePointAlphabetEnergy(Log2Exact(order).value, sqrt);
  }

  // ---------------------------------------------------------------------------------
  // modulate_data and modulate_bits

  /** Every index lies in `[0, order)`. */
  predicate InAlphabet(data: seq<int>, order: int) {
    forall i :: 0 <= i < |data| ==> 0 <= data[i] < order
  }

  /** `modulate_data`: rejects an index outside `[0, order)`, otherwise looks every
      index up in the alphabet. */
  method ModulateData(c: Constellation, data: seq<int>) returns (r: Result<seq<Complex>>)
    requires Valid(c)
    ensures r.Ok? <==> InAlphabet(data, c.order)
    ensures r.Err? ==> r.error == DataOutOfRange
    ensures r.Ok? ==> |r.value| == |data|
    ensures r.Ok? ==> forall i :: 0 <= i < |data| ==> 0 <= data[i] < |c.symbols| && r.value[i] == c.symbols[data[i]]
  {
    var i := 0;
    while i < |data|
      invariant i <= |data|
      invariant InAlphabet(data[..i], c.order)
    {
      if !(0 <= data[i] < c.order) {
        assert !InAlphabet(data, c.order) by {
          assert !(0 <= data[i] < c.order);
        }
        return Err(DataOutOfRange);
      }
      assert data[..i + 1] == data[..i] + [data[i]];
      i := i + 1;
    }
    assert data[..i] == data;
    r := Ok(seq(|data|, k requires 0 <= k < |data| => c.symbols[data[k]]));
  }

  /** Every entry is a bit, 0 or 1. */
  predicate IsBits(bits: seq<int>) {
    forall i :: 0 <= i < |bits| ==> bits[i] == 0 || bits[i] == 1
  }

  /** `sum(bits * mods)` over one group: the entries weighted by their place values. */
  function Weighted(g: seq<int>, mods: seq<int>): int
    requires |g| == |mods|
  {
    if |g| == 0 then 0 else g[0] * mods[0] + Weighted(g[1..], mods[1..])
  }

  /** The symbol index of one group of bits. */
  function GroupIndex(g: seq<int>): int {
    Weighted(g, Mods(|g|))
  }

  /** The `power`-bit big-endian representation of `v`: the inverse of `GroupIndex`. */
  function ToBits(v: nat, power: nat): (r: seq<int>)
    ensures |r| == power
  {
    if power == 0 then [] else [(v / Cpp.Pow2(power - 1)) % 2] + ToBits(v % Cpp.Pow2(power - 1), power - 1)
  }

  lemma ModsTail(p: nat)
    requires p >= 1
    ensures Mods(p)[1..] == Mods(p - 1)
    ensures Mods(p)[0] == Cpp.Pow2(p - 1)
  {
  }

  /** The leading bit of a group carries the place value `2^(|g|-1)`. */
  lemma {:induction false} GroupIndexCons(g: seq<int>)
    requires |g| >= 1
    ensures GroupIndex(g) == g[0] * Cpp.Pow2(|g| - 1) + GroupIndex(g[1..])
  {
    var m := Mods(|g|);
    ModsTail(|g|);
    calc {
      GroupIndex(g);
      Weighted(g, m);
      g[0] * m[0] + Weighted(g[1..], m[1..]);
      g[0] * Cpp.Pow2(|g| - 1) + Weighted(g[1..], Mods(|g| - 1));
    }
  }

  /** A group of bits is a number below `2^|g|`, and writing that number back as
      `|g|` bits gives the group. */
  lemma {:induction false} GroupIndexRoundTrip(g: seq<int>)
    requires IsBits(g)
    ensures 0 <= GroupIndex(g) < Cpp.Pow2(|g|)
    ensures ToBits(GroupIndex(g), |g|) == g
  {
    if |g| > 0 {
      var p := |g|;
      var half := Cpp.Pow2(p - 1);
      GroupIndexCons(g);
      GroupIndexRoundTrip(g[1..]);
      var rest := GroupIndex(g[1..]);
      var v := GroupIndex(g);
      assert v == g[0] * half + rest;
      ModUnique(v, half, g[0], rest);
      assert [v / half % 2] + ToBits(rest, p - 1) == g;
    }
  }

  /** The leading bit of `v < 2^p` is `v / 2^(p-1)`, which is 0 or 1. */
  lemma LeadingBit(v: nat, half: nat)
    requires 0 < half && v < 2 * half
    ensures v / half < 2
    ensures v == v / half * half + v % half
  {
    if v < half {
      ModUnique(v, half, 0, v);
    } else {
      ModUnique(v, half, 1, v - half);
    }
  }

  /** Every index below `2^power` is the group index of its `power` bits. */
  lemma {:induction false} ToBitsRoundTrip(v: nat, power: nat)
    requires v < Cpp.Pow2(power)
    ensures IsBits(ToBits(v, power))
    ensures GroupIndex(ToBits(v, power)) == v
  {
    if power > 0 {
      var half := Cpp.Pow2(power - 1);
      assert Cpp.Pow2(power) == 2 * half;
      LeadingBit(v, half);
      var b, rest := v / half, v % half;
      ToBitsRoundTrip(rest, power - 1);
      var g := ToBits(v, power);
      assert g[0] == b && g[1..] == ToBits(rest, power - 1) by {
        assert b % 2 == b;
      }
      GroupIndexCons(g);
      assert IsBits(g) by {
        forall i | 0 <= i < |g|
          ensures g[i] == 0 || g[i] == 1
        {
          if i > 0 {
            assert g[i] == g[1..][i - 1];
          }
        }
      }
    }
  }

  /** The indices of `rows` groups of `power` bits: `reshape((rows, power))` and the
      weighted row sums. */
  function Groups(bits: seq<int>, power: nat, rows: nat): (r: seq<int>)
    requires |bits| == Cells(power, rows)
    ensures |r| == rows
    decreases rows
  {
    if rows == 0 then []
    else
      IndexStep(power, rows - 1);
      Groups(bits[..Cells(power, rows - 1)], power, rows - 1) + [GroupIndex(bits[Cells(power, rows - 1)..])]
  }

  /** Row `k` of the reshaped bits starts at `k * power`; its index is below
      `2^power`. */
  lemma {:induction false} GroupsAt(bits: seq<int>, power: nat, rows: nat, k: nat)
    requires power >= 1 && |bits| == Cells(power, rows) && IsBits(bits) && k < rows
    ensures Index2(power, k, 0) + power <= |bits|
    ensures Groups(bits, power, rows)[k] == GroupIndex(bits[Index2(power, k, 0)..Index2(power, k, 0) + power])
    ensures 0 <= Groups(bits, power, rows)[k] < Cpp.Pow2(power)
    decreases rows
  {
    IndexStep(power, rows - 1);
    if k < rows - 1 {
      var front := bits[..Cells(power, rows - 1)];
      GroupsAt(front, power, rows - 1, k);
      FrontGroup(bits, power, rows, k);
    } else {
      LastGroup(bits, power, rows);
    }
  }

  /** A group of the first `rows - 1` rows reads the same bits in the whole array. */
  lemma FrontGroup(bits: seq<int>, power: nat, rows: nat, k: nat)
    requires power >= 1 && |bits| == Cells(power, rows) && k + 1 < rows
    ensures Index2(power, k, 0) + power <= Cells(power, rows - 1) <= |bits|
    ensures bits[..Cells(power, rows - 1)][Index2(power, k, 0)..Index2(power, k, 0) + power]
         == bits[Index2(power, k, 0)..Index2(power, k, 0) + power]
    ensures Groups(bits, power, rows)[k] == Groups(bits[..Cells(power, rows - 1)], power, rows - 1)[k]
  {
    IndexStep(power, rows - 1);
    IndexOrder(power, k, 0, rows - 1);
  }

  /** The last group is the index of the last `power` bits. */
  lemma LastGroup(bits: seq<int>, power: nat, rows: nat)
    requires power >= 1 && |bits| == Cells(power, rows) && IsBits(bits) && rows >= 1
    ensures Index2(power, rows - 1, 0) + power == |bits|
    ensures Groups(bits, power, rows)[rows - 1]
         == GroupIndex(bits[Index2(power, rows - 1, 0)..Index2(power, rows - 1, 0) + power])
    ensures 0 <= GroupIndex(bits[Index2(power, rows - 1, 0)..Index2(power, rows - 1, 0) + power]) < Cpp.Pow2(power)
  {
    IndexStep(power, rows - 1);
    var last := bits[Index2(power, rows - 1, 0)..];
    assert last == bits[Index2(power, rows - 1, 0)..Index2(power, rows - 1, 0) + power];
    GroupIndexRoundTrip(last);
  }

  /** A length divisible by `power` is a whole number of rows. */
  lemma RowsOfLength(n: nat, power: nat)
    requires power >= 1 && n % power == 0
    ensures n == Cells(power, n / power)
  {
    CellsIsProduct(power, n / power);
  }

  /** `modulate_bits`: rejects anything other than 0/1 entries, then divides by
      `power`, which fails for the zero-bit alphabet of order 1, then rejects a length
      that is not a multiple of `power`; otherwise reads each group of `power` bits big-endian
      and modulates the resulting indices, which are always in range. */
  method ModulateBits(c: Constellation, bits: seq<int>) returns (r: Result<seq<Complex>>)
    requires Valid(c)
    ensures r.Ok? <==> IsBits(bits) && c.power >= 1 && |bits| % c.power == 0
    ensures !IsBits(bits) ==> r == Err(NotBits)
    ensures IsBits(bits) && c.power == 0 ==> r == Err(ZeroDivision)
    ensures IsBits(bits) && c.power >= 1 && |bits| % c.power != 0 ==> r == Err(LengthNotMultiple)
    ensures r.Ok? ==> |bits| == Cells(c.power, |r.value|)
    ensures r.Ok? ==> forall k :: 0 <= k < |r.value| ==>
      && Index2(c.power, k, 0) + c.power <= |bits|
      && 0 <= GroupIndex(bits[Index2(c.power, k, 0)..Index2(c.power, k, 0) + c.power]) < |c.symbols|
      && r.value[k] == c.symbols[GroupIndex(bits[Index2(c.power, k, 0)..Index2(c.power, k, 0) + c.power])]
  {
    if !IsBits(bits) {
      return Err(NotBits);
    }
    if c.power == 0 {
      return Err(ZeroDivision);
    }
    if |bits| % c.power != 0 {
      return Err(LengthNotMultiple);
    }
    var rows := |bits| / c.power;
    RowsOfLength(|bits|, c.power);
    var indices := Groups(bits, c.power, rows);
    forall k | 0 <= k < rows
      ensures Index2(c.power, k, 0) + c.power <= |bits|
      ensures indices[k] == GroupIndex(bits[Index2(c.power, k, 0)..Index2(c.power, k, 0) + c.power])
      ensures 0 <= indices[k] < c.order
    {
      GroupsAt(bits, c.power, rows, k);
    }
    r := ModulateData(c, indices);
  }
}
