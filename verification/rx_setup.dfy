/** The receiver's constructor (lib/ofdmradar_rx_impl.cc): the reference symbols of the
    whole frame, the two window tapers and their common normalisation, and the number
    of input samples per frame cycle. The window builder `ofdmradar_params::window`
    (a GNU Radio window of the parameter set's type) and `std::sqrt` are parameters. */
module RxSetup {
  import opened ComplexMath
  import opened Words
  import opened Grid
  import opened Params
  import opened Shared
  import opened Rx
  import opened RxIndex

  // ---------------------------------------------------------------------------------
  // Window energy

  /** The energy of a window: the sum of its squared taps. */
  function SumSq(w: seq<real>): (r: real)
    ensures r >= 0.0
  {
    SquaresSum(w)
  }

  /** The sum of the squared taps, adding the last tap's square to the sum over the
      others. */
  function SquaresSum(w: seq<real>): (r: real)
    ensures r >= 0.0
  {
    if |w| == 0 then 0.0
    else
      SqNonNegative(w[|w| - 1]);
      SquaresSum(w[..|w| - 1]) + Sq(w[|w| - 1])
  }

  /** Removing the last tap removes its square from the energy. */
  lemma SumSqLast(w: seq<real>)
    requires |w| > 0
    ensures SumSq(w) == SumSq(w[..|w| - 1]) + Sq(w[|w| - 1])
  {
  }

  lemma SumSqSnoc(w: seq<real>, k: nat)
    requires k < |w|
    ensures SumSq(w[..k + 1]) == SumSq(w[..k]) + Sq(w[k])
  {
    assert w[..k + 1][..k] == w[..k];
    SumSqLast(w[..k + 1]);
  }

  lemma {:induction false} SumSqAppend(a: seq<real>, b: seq<real>)
    ensures SumSq(a + b) == SumSq(a) + SumSq(b)
    decreases |b|
  {
    if |b| > 0 {
      var b' := b[..|b| - 1];
      assert (a + b)[..|a + b| - 1] == a + b';
      assert (a + b)[|a + b| - 1] == b[|b| - 1];
      SumSqLast(a + b);
      SumSqLast(b);
      SumSqAppend(a, b');
    } else {
      assert a + b == a;
    }
  }

  /** Every tap times `k`: the symbol taper of the constructor. */
  function SymbolTaper(w: seq<real>, k: real): (r: seq<real>)
    ensures |r| == |w|
  {
    seq(|w|, i requires 0 <= i < |w| => w[i] * k)
  }

  /** Scaling every tap by `k` scales the energy by `k * k`. */
  lemma {:induction false} SumSqScale(w: seq<real>, k: real)
    ensures SumSq(SymbolTaper(w, k)) == Sq(k) * SumSq(w)
    decreases |w|
  {
    var s := SymbolTaper(w, k);
    if |w| > 0 {
      var w' := w[..|w| - 1];
      var s' := SymbolTaper(w', k);
      assert forall i :: 0 <= i < |s'| ==> s[..|s| - 1][i] == s'[i];
      assert s[..|s| - 1] == s';
      SumSqLast(s);
      SumSqLast(w);
      SumSqScale(w', k);
      assert Sq(w[|w| - 1] * k) == Sq(k) * Sq(w[|w| - 1]);
    }
  }

  /** Moving the first `h` taps to the end leaves the energy unchanged. */
  lemma SumSqRotate(w: seq<real>, h: nat)
    requires h <= |w|
    ensures SumSq(w[h..] + w[..h]) == SumSq(w)
  {
    SumSqAppend(w[h..], w[..h]);
    SumSqAppend(w[..h], w[h..]);
    assert w[..h] + w[h..] == w;
  }

  /** The energy of the two-dimensional taper built from a carrier and a symbol taper:
      the sum of `(cw[i] * sw[j])^2` over the grid, which factors into the product of
      the two tapers' energies. */
  function GridPower(cw: seq<real>, sw: seq<real>): real {
    SumSq(cw) * SumSq(sw)
  }

  /** The constructor's double loop: `energy` accumulates `(c_window[i] * s_window[j])^2`
      over every carrier `i` and symbol `j`, which is the product of the two tapers'
      energies. */
  method GridEnergy(cw: seq<real>, sw: seq<real>) returns (energy: real)
    ensures energy == GridPower(cw, sw)
  {
    energy := 0.0;
    var i := 0;
    while i < |cw|
      invariant i <= |cw|
      invariant energy == SumSq(cw[..i]) * SumSq(sw)
    {
      var j := 0;
      while j < |sw|
        invariant j <= |sw|
        invariant energy == SumSq(cw[..i]) * SumSq(sw) + Sq(cw[i]) * SumSq(sw[..j])
      {
        var w := cw[i] * sw[j];
        SumSqSnoc(sw, j);
        assert Sq(w) == Sq(cw[i]) * Sq(sw[j]);
        energy := energy + Sq(w);
        j := j + 1;
      }
      assert sw[..j] == sw;
      SumSqSnoc(cw, i);
      i := i + 1;
    }
    assert cw[..i] == cw;
  }

  // ---------------------------------------------------------------------------------
  // Normalisation

  /** `a / b` in floating point, with 0 for a zero divisor (where the source gets inf
      or NaN, which this model does not have). */
  function Quot(a: real, b: real): (r: real)
    ensures b != 0.0 ==> r * b == a
  {
    if b == 0.0 then 0.0 else a / b
  }

  /** `norm = 1 / sqrt(sqrt(energy / (carriers * symbols)))`, the product taken in
      `unsigned int`. */
  function TaperNorm(p: ParamSet, energy: real, sqrt: real -> real): real {
    Quot(1.0, sqrt(sqrt(Quot(energy, Wrap32(Cells(p.carriers, p.symbols)) as real))))
  }

  /** The fourth power of the norm is `cells / energy`: scaling both tapers by the norm
      scales the grid energy by `cells / energy`. */
  lemma TaperNormFourth(p: ParamSet, energy: real, sqrt: real -> real)
    requires IsSqrt(sqrt) && energy > 0.0
    requires 0 < Cells(p.carriers, p.symbols) < U32
    ensures Sq(Sq(TaperNorm(p, energy, sqrt))) * energy == Cells(p.carriers, p.symbols) as real
  {
    var cells := Cells(p.carriers, p.symbols) as real;
    var q := Quot(energy, Wrap32(Cells(p.carriers, p.symbols)) as real);
    assert q == energy / cells;
    assert q > 0.0;
    var s1 := sqrt(q);
    var s2 := sqrt(s1);
    assert Sq(s1) == q;
    assert Sq(s2) == s1;
    assert s2 > 0.0;
    var norm := Quot(1.0, s2);
    assert norm * s2 == 1.0;
    calc {
      Sq(Sq(norm)) * Sq(Sq(s2));
      == (norm * s2) * (norm * s2) * (norm * s2) * (norm * s2);
      == 1.0;
    }
    assert Sq(Sq(s2)) == q;
    assert Sq(Sq(norm)) * q == 1.0;
    assert Sq(Sq(norm)) * energy == cells by {
      assert energy == q * cells;
    }
  }

  // ---------------------------------------------------------------------------------
  // The constructor

  /** The carrier taper: slot `i` holds tap `fftshift(i, carriers)` times the norm, so
      that the taper is centred on the FFT's zero-frequency bin. */
  function CarrierTaper(w: seq<real>, norm: real): (r: seq<real>)
    ensures |r| == |w|
  {
    seq(|w|, i requires 0 <= i < |w| => w[Fftshift(i, |w|)] * norm)
  }

  /** The norm the constructor computes from the two raw windows. */
  function ConfigNorm(p: ParamSet, window: nat -> seq<real>, sqrt: real -> real): real {
    TaperNorm(p, GridPower(window(p.carriers), window(p.symbols)), sqrt)
  }

  /** What the constructor sets up from the parameters, the symbol generator, the
      window builder, `std::sqrt` and the `buffer_size` argument: the reference table
      of the frame's symbols, the shifted and normalised carrier taper, the normalised
      symbol taper, and the frame length in place of `(size_t)-1`. */
  ghost predicate Constructed(c: RxConfig, rng: (nat, nat) -> nat, window: nat -> seq<real>,
                              sqrt: real -> real, bufferSize: nat)
  {
    && UsableConstellation(c.p) && DrawsInRange(rng, |c.p.constellation|)
    && bufferSize < U64
    && |window(c.p.carriers)| == c.p.carriers && |window(c.p.symbols)| == c.p.symbols
    && IsReference(c.p, rng, c.reference)
    && c.carrierWindow == CarrierTaper(window(c.p.carriers), ConfigNorm(c.p, window, sqrt))
    && c.symbolWindow == SymbolTaper(window(c.p.symbols), ConfigNorm(c.p, window, sqrt))
    && c.bufferSize == EffectiveBufferSize(c.p, bufferSize)
  }

  /** The constructor. The window builder returns `n` taps for a request of size `n`. */
  method NewRx(p: ParamSet, rng: (nat, nat) -> nat, bufferSize: nat, window: nat -> seq<real>,
               sqrt: real -> real) returns (c: RxConfig)
    requires UsableConstellation(p) && DrawsInRange(rng, |p.constellation|)
    requires bufferSize < U64
    requires |window(p.carriers)| == p.carriers && |window(p.symbols)| == p.symbols
    ensures c.p == p
    ensures Constructed(c, rng, window, sqrt, bufferSize)
    ensures RxSizes(p) ==> ValidConfig(c)
    ensures bufferSize != U64 - 1 ==> c.bufferSize == bufferSize
    ensures bufferSize == U64 - 1 ==> c.bufferSize == FrameLength(p)
  {
    var size := EffectiveBufferSize(p, bufferSize);
    var reference := ReferenceSymbols(p, rng);
    var cw, sw := window(p.carriers), window(p.symbols);
    var energy := GridEnergy(cw, sw);
    var norm := TaperNorm(p, energy, sqrt);
    assert norm == ConfigNorm(p, window, sqrt);
    var carrierWindow := CarrierTaper(cw, norm);
    var symbolWindow := SymbolTaper(sw, norm);
    c := RxConfig(p, reference, carrierWindow, symbolWindow, size);
  }

  /** The normalisation gives the two-dimensional taper unit mean power: for an even
      number of carriers (where `fftshift` only reorders the taps) and raw windows that
      are not all zero, the squared products `(carrier_taper[i] * symbol_taper[j])^2`
      sum to `carriers * symbols`. */
  lemma ConstructedTaperPower(c: RxConfig, rng: (nat, nat) -> nat, window: nat -> seq<real>,
                              sqrt: real -> real, bufferSize: nat)
    requires Constructed(c, rng, window, sqrt, bufferSize) && IsSqrt(sqrt)
    requires c.p.carriers % 2 == 0 && 0 < Cells(c.p.carriers, c.p.symbols) < U32
    requires SumSq(window(c.p.carriers)) > 0.0 && SumSq(window(c.p.symbols)) > 0.0
    ensures GridPower(c.carrierWindow, c.symbolWindow) == Cells(c.p.carriers, c.p.symbols) as real
  {
    TaperPower(c.p, window(c.p.carriers), window(c.p.symbols), sqrt, ConfigNorm(c.p, window, sqrt));
  }

  lemma TaperPower(p: ParamSet, cw: seq<real>, sw: seq<real>, sqrt: real -> real, norm: real)
    requires IsSqrt(sqrt) && |cw| % 2 == 0 && 0 < Cells(p.carriers, p.symbols) < U32
    requires SumSq(cw) > 0.0 && SumSq(sw) > 0.0
    requires norm == TaperNorm(p, GridPower(cw, sw), sqrt)
    ensures GridPower(CarrierTaper(cw, norm), SymbolTaper(sw, norm)) == Cells(p.carriers, p.symbols) as real
  {
    var energy := GridPower(cw, sw);
    TaperNormFourth(p, energy, sqrt);
    ScaledGridPower(cw, sw, norm, energy, Cells(p.carriers, p.symbols) as real);
  }

  /** Scaling both tapers by `norm` scales the grid energy by the fourth power of `norm`. */
  lemma ScaledGridPower(cw: seq<real>, sw: seq<real>, norm: real, energy: real, cells: real)
    requires |cw| % 2 == 0 && energy == GridPower(cw, sw) && Sq(Sq(norm)) * energy == cells
    ensures GridPower(CarrierTaper(cw, norm), SymbolTaper(sw, norm)) == cells
  {
    ShiftedTaperEnergy(cw, norm);
    SumSqScale(sw, norm);
    ScaledProduct(CarrierTaper(cw, norm), SymbolTaper(sw, norm), cw, sw, Sq(norm), energy, cells);
  }

  lemma ScaledProduct(ct: seq<real>, st: seq<real>, cw: seq<real>, sw: seq<real>, k: real,
                      energy: real, cells: real)
    requires SumSq(ct) == k * SumSq(cw) && SumSq(st) == k * SumSq(sw)
    requires energy == GridPower(cw, sw) && Sq(k) * energy == cells
    ensures GridPower(ct, st) == cells
  {
    ProductOfScaled(SumSq(ct), SumSq(st), k, SumSq(cw), SumSq(sw), energy, cells);
  }

  lemma ProductOfScaled(a: real, b: real, k: real, x: real, y: real, e: real, cells: real)
    requires a == k * x && b == k * y && e == x * y && Sq(k) * e == cells
    ensures a * b == cells
  {
    assert a * b == (k * k) * (x * y);
  }

  /** For an even number of taps the shifted taper is the rotated window scaled. */
  lemma CarrierTaperRotates(w: seq<real>, norm: real)
    requires |w| % 2 == 0
    ensures CarrierTaper(w, norm) == SymbolTaper(w[|w| / 2..] + w[..|w| / 2], norm)
  {
    var h := |w| / 2;
    var rotated := w[h..] + w[..h];
    forall i | 0 <= i < |w|
      ensures CarrierTaper(w, norm)[i] == SymbolTaper(rotated, norm)[i]
    {
      if i < h {
        assert rotated[i] == w[h + i];
      } else {
        assert rotated[i] == w[i - h];
      }
    }
  }

  /** For an even number of taps the shifted taper holds every tap once: its energy is
      the raw energy times `norm * norm`. */
  lemma ShiftedTaperEnergy(w: seq<real>, norm: real)
    requires |w| % 2 == 0
    ensures SumSq(CarrierTaper(w, norm)) == Sq(norm) * SumSq(w)
  {
    var h := |w| / 2;
    CarrierTaperRotates(w, norm);
    SumSqRotate(w, h);
    ScaledEnergy(w[h..] + w[..h], w, norm);
  }

  /** Scaling a window of the same energy as `u` gives `k * k` times the energy of `u`. */
  lemma ScaledEnergy(t: seq<real>, u: seq<real>, k: real)
    requires SumSq(t) == SumSq(u)
    ensures SumSq(SymbolTaper(t, k)) == Sq(k) * SumSq(u)
  {
    SumSqScale(t, k);
  }
}
