/** `ofdmradar_params`: the parameter set shared by transmitter and receiver, the
    lengths derived from it, and the carrier mask built by its constructor. All
    parameters are `unsigned int`; derived lengths wrap modulo 2^32 as in the C++. */
module Params {
  import opened Words
  import opened ComplexMath
  import opened Counting
  import opened Grid

  /** The parameter set of the ten-argument `make`. The object is immutable after
      construction, so every accessor is a field read of this value. */
  datatype ParamSet = ParamSet(
    carriers: u32,
    symbols: u32,
    periCarriers: u32,
    periSymbols: u32,
    cyclicPrefixLength: u32,
    dcGuard: u32,
    nyquistGuard: u32,
    windowType: int,
    constellation: seq<Complex>,
    seed: u32)

  /** `symbol_length()`: samples per transmitted symbol, `carriers + cyclic_prefix_length`
      in 32-bit arithmetic. */
  function SymbolLength(p: ParamSet): (r: u32)
    ensures p.carriers + p.cyclicPrefixLength < U32 ==> r == p.carriers + p.cyclicPrefixLength
  {
    Wrap32(p.carriers + p.cyclicPrefixLength)
  }

  /** `frame_length()`: `symbol_length * symbols` in 32-bit arithmetic (the product is
      written `Cells`, see module Grid). */
  function FrameLength(p: ParamSet): u32 {
    Wrap32(Cells(SymbolLength(p), p.symbols))
  }

  /** `peri_length()`: the periodogram size `peri_carriers * peri_symbols`, in 32-bit
      arithmetic. */
  function PeriLength(p: ParamSet): u32 {
    Wrap32(Cells(p.periCarriers, p.periSymbols))
  }

  /** The frame sizes do not wrap: symbols and frame fit in 32 bits. */
  predicate FrameFits(p: ParamSet) {
    p.carriers + p.cyclicPrefixLength < U32 && Cells(p.carriers + p.cyclicPrefixLength, p.symbols) < U32
  }

  /** Without wrap-around, a frame is exactly `symbols` back-to-back symbols of
      `carriers + cyclic_prefix_length` samples, and symbol `j` starts at
      `j * symbol_length` and ends inside the frame. */
  lemma FrameLayout(p: ParamSet, j: nat)
    requires FrameFits(p)
    requires j < p.symbols
    ensures SymbolLength(p) == p.carriers + p.cyclicPrefixLength
    ensures FrameLength(p) == (p.carriers + p.cyclicPrefixLength) * p.symbols
    ensures Index2(SymbolLength(p), j, 0) == j * SymbolLength(p)
    ensures j * SymbolLength(p) + SymbolLength(p) <= FrameLength(p)
  {
    var l := p.carriers + p.cyclicPrefixLength;
    CellsIsProduct(l, p.symbols);
    IndexIsProduct(l, j, 0);
    RowInGrid(l, p.symbols, j);
  }

  /** The periodogram has `peri_carriers * peri_symbols` cells when that product fits
      in 32 bits, and wraps otherwise. */
  lemma PeriLengthCells(p: ParamSet)
    ensures Cells(p.periCarriers, p.periSymbols) < U32 ==> PeriLength(p) == p.periCarriers * p.periSymbols
    ensures p.periCarriers * p.periSymbols >= U32 ==> PeriLength(p) == (p.periCarriers * p.periSymbols) % U32
  {
    CellsIsProduct(p.periCarriers, p.periSymbols);
  }

  /** The DC test of the mask loop: carrier `i` is at or below `dc_guard`, or at or above
      the 32-bit value `carriers - dc_guard`. */
  predicate InDcGuard(p: ParamSet, i: nat) {
    i >= Wrap32(p.carriers - p.dcGuard) || i <= p.dcGuard
  }

  /** The Nyquist test of the mask loop. The loop index is `size_t`, so
      `i + nyquist_guard - carriers / 2` is 64-bit arithmetic, while `nyquist_guard * 2`
      is a 32-bit product. */
  predicate PassesNyquistTest(p: ParamSet, i: nat) {
    Wrap64(i + p.nyquistGuard - p.carriers / 2) >= Wrap32(2 * p.nyquistGuard)
  }

  /** `carrier_mask()`: carrier `i` is used when it is outside the DC guard and passes
      the Nyquist test. */
  function CarrierMask(p: ParamSet): (m: seq<bool>)
    ensures |m| == p.carriers
    ensures forall i :: 0 <= i < |m| ==> (m[i] <==> !InDcGuard(p, i) && PassesNyquistTest(p, i))
  {
    seq(p.carriers, i requires 0 <= i < p.carriers => !InDcGuard(p, i) && PassesNyquistTest(p, i))
  }

  /** Number of used carriers: one random draw is made per used carrier. */
  function ActiveCarriers(p: ParamSet): (r: nat)
    ensures r <= p.carriers
  {
    CountTrue(CarrierMask(p))
  }

  /** The DC guard disables the `dc_guard + 1` lowest carriers (DC and the ones above it)
      and the `dc_guard` highest ones (the negative frequencies next to DC). */
  lemma DcGuardExact(p: ParamSet, i: nat)
    requires i < p.carriers
    ensures InDcGuard(p, i) <==> i <= p.dcGuard || i + p.dcGuard >= p.carriers
  {
  }

  /** For any `nyquist_guard < 2^31` (so that `2 * nyquist_guard` does not wrap) the
      Nyquist test fails exactly on `[carriers/2 - nyquist_guard, carriers/2 + nyquist_guard)`:
      a 64-bit wrap of the difference below zero always passes. */
  lemma NyquistGuardExact(p: ParamSet, i: nat)
    requires i < p.carriers
    requires p.nyquistGuard < 0x8000_0000
    ensures !PassesNyquistTest(p, i) <==> p.carriers / 2 <= i + p.nyquistGuard && i < p.carriers / 2 + p.nyquistGuard
  {
  }

  /** Reading the Nyquist term as 32-bit arithmetic gives the same mask whenever
      `nyquist_guard <= carriers / 2`. */
  lemma NyquistTest32BitAgrees(p: ParamSet, i: nat)
    requires i < p.carriers
    requires p.nyquistGuard <= p.carriers / 2
    ensures PassesNyquistTest(p, i) <==> Wrap32(i + p.nyquistGuard - p.carriers / 2) >= Wrap32(2 * p.nyquistGuard)
  {
  }

  /** Which carriers the DC guard disables. */
  function DcGuarded(p: ParamSet): (m: seq<bool>)
    ensures |m| == p.carriers
    ensures forall i :: 0 <= i < |m| ==> (m[i] <==> InDcGuard(p, i))
  {
    seq(p.carriers, i requires 0 <= i < p.carriers => InDcGuard(p, i))
  }

  /** Which carriers the Nyquist test disables. */
  function NyquistGuarded(p: ParamSet): (m: seq<bool>)
    ensures |m| == p.carriers
    ensures forall i :: 0 <= i < |m| ==> (m[i] <==> !PassesNyquistTest(p, i))
  {
    seq(p.carriers, i requires 0 <= i < p.carriers => !PassesNyquistTest(p, i))
  }

  function Interval(n: nat, lo: nat, hi: nat): (m: seq<bool>)
    ensures |m| == n
    ensures forall i :: 0 <= i < n ==> (m[i] <==> lo <= i < hi)
  {
    seq(n, i requires 0 <= i < n => lo <= i < hi)
  }

  /** With `2 * dc_guard + 1 <= carriers`, exactly `2 * dc_guard + 1` carriers around DC
      are left unused. */
  lemma DcGuardWidth(p: ParamSet)
    requires 2 * p.dcGuard + 1 <= p.carriers
    ensures CountTrue(DcGuarded(p)) == 2 * p.dcGuard + 1
  {
    var c, g := p.carriers, p.dcGuard;
    var low, high := Interval(c, 0, g + 1), Interval(c, c - g, c);
    forall i | 0 <= i < c
      ensures DcGuarded(p)[i] <==> low[i] || high[i]
    {
      DcGuardExact(p, i);
    }
    CountDisjointUnion(DcGuarded(p), low, high);
    CountInterval(low, 0, g + 1);
    CountInterval(high, c - g, c);
  }

  /** With `nyquist_guard <= carriers / 2`, exactly `nyquist_guard` bins on each side of
      the Nyquist bin `carriers / 2` are left unused, `2 * nyquist_guard` in total. */
  lemma NyquistGuardWidth(p: ParamSet)
    requires p.nyquistGuard <= p.carriers / 2
    ensures CountTrue(NyquistGuarded(p)) == 2 * p.nyquistGuard
  {
    var h, g := p.carriers / 2, p.nyquistGuard;
    forall i | 0 <= i < p.carriers
      ensures NyquistGuarded(p)[i] <==> h - g <= i < h + g
    {
      NyquistGuardExact(p, i);
    }
    CountInterval(NyquistGuarded(p), h - g, h + g);
  }

  /** When the DC guard and the Nyquist guard do not overlap, the mask uses
      `carriers - (2 * dc_guard + 1) - 2 * nyquist_guard` carriers. */
  lemma ActiveCarrierCount(p: ParamSet)
    requires p.dcGuard + 1 + p.nyquistGuard <= p.carriers / 2
    requires p.carriers / 2 + p.nyquistGuard + p.dcGuard <= p.carriers
    ensures ActiveCarriers(p) == p.carriers - (2 * p.dcGuard + 1) - 2 * p.nyquistGuard
  {
    var c := p.carriers;
    var unused := seq(c, i requires 0 <= i < c => !CarrierMask(p)[i]);
    forall i | 0 <= i < c
      ensures unused[i] <==> DcGuarded(p)[i] || NyquistGuarded(p)[i]
      ensures !(DcGuarded(p)[i] && NyquistGuarded(p)[i])
    {
      assert unused[i] == !CarrierMask(p)[i];
      DcGuardExact(p, i);
      NyquistGuardExact(p, i);
    }
    CountDisjointUnion(unused, DcGuarded(p), NyquistGuarded(p));
    CountComplement(CarrierMask(p), unused);
    DcGuardWidth(p);
    NyquistGuardWidth(p);
  }
}
