/** `ofdmradar_shared`: the random symbol source that transmitter and receiver have in
    common. The generator is `std::default_random_engine` seeded with `seed()`, drawn
    through `uniform_int_distribution(0, constellation().size() - 1)`. Its output is not
    modelled bit for bit: `rng(seed, k)` stands for the k-th index a generator seeded
    with `seed` yields, and the only property assumed is that it lies in range. */
module Shared {
  import opened ComplexMath
  import opened Counting
  import opened Words
  import opened Params
  import opened Grid

  /** The index stream of every seed stays inside the distribution's range. */
  ghost predicate DrawsInRange(rng: (nat, nat) -> nat, size: nat) {
    forall s: nat, k: nat {:trigger rng(s, k)} :: rng(s, k) < size
  }

  /** The distribution's upper bound `size - 1` is converted to `unsigned int`, and the
      drawn index subscripts the constellation: a usable alphabet is non-empty and has at
      most 2^32 points. */
  predicate UsableConstellation(p: ParamSet) {
    1 <= |p.constellation| <= U32
  }

  /** The symbol placed on carrier `i` of a carrier set `mask` when `drawn` indices have
      already been taken from the generator: zero on an unused carrier, otherwise the
      point chosen by the next draw, which is draw number `drawn` plus the number of used
      carriers below `i`. */
  function SymbolFor(mask: seq<bool>, points: seq<Complex>, rng: (nat, nat) -> nat, seed: nat, drawn: nat, i: nat): Complex
    requires DrawsInRange(rng, |points|)
    requires i < |mask|
  {
    if mask[i] then points[rng(seed, drawn + CountTrue(mask[..i]))] else Zero
  }

  /** The carrier loop for an arbitrary carrier set: increasing carrier order, one draw
      per used carrier and none per unused one. */
  method FillCarriers(mask: seq<bool>, points: seq<Complex>, rng: (nat, nat) -> nat, seed: nat, drawn: nat)
      returns (out: seq<Complex>, drawnAfter: nat)
    requires DrawsInRange(rng, |points|)
    ensures |out| == |mask|
    ensures forall i :: 0 <= i < |out| ==> out[i] == SymbolFor(mask, points, rng, seed, drawn, i)
    ensures drawnAfter == drawn + CountTrue(mask)
  {
    out := [];
    drawnAfter := drawn;
    var i := 0;
    while i < |mask|
      invariant 0 <= i <= |mask|
      invariant |out| == i
      invariant drawnAfter == drawn + CountTrue(mask[..i])
      invariant forall j :: 0 <= j < i ==> out[j] == SymbolFor(mask, points, rng, seed, drawn, j)
    {
      CountPrefixStep(mask, i);
      var x := if mask[i] then points[rng(seed, drawnAfter)] else Zero;
      assert x == SymbolFor(mask, points, rng, seed, drawn, i);
      out := out + [x];
      if mask[i] {
        drawnAfter := drawnAfter + 1;
      }
      i := i + 1;
    }
    assert mask[..i] == mask;
  }

  /** The symbol `generate_tx_symbols` places on carrier `i` of the carrier mask. */
  function TxSymbol(p: ParamSet, rng: (nat, nat) -> nat, drawn: nat, i: nat): Complex
    requires UsableConstellation(p) && DrawsInRange(rng, |p.constellation|)
    requires i < p.carriers
  {
    SymbolFor(CarrierMask(p), p.constellation, rng, p.seed, drawn, i)
  }

  /** A used carrier carries a point of the constellation, an unused one carries 0. */
  lemma TxSymbolValues(p: ParamSet, rng: (nat, nat) -> nat, drawn: nat, i: nat)
    requires UsableConstellation(p) && DrawsInRange(rng, |p.constellation|)
    requires i < p.carriers
    ensures CarrierMask(p)[i] ==> TxSymbol(p, rng, drawn, i) in p.constellation
    ensures !CarrierMask(p)[i] ==> TxSymbol(p, rng, drawn, i) == Zero
  {
  }

  /** `generate_tx_symbols`: fills `carriers` entries, each the symbol `TxSymbol` assigns
      to that carrier, and advances the generator by one draw per used carrier. */
  method GenerateTxSymbols(p: ParamSet, rng: (nat, nat) -> nat, drawn: nat) returns (out: seq<Complex>, drawnAfter: nat)
    requires UsableConstellation(p) && DrawsInRange(rng, |p.constellation|)
    ensures |out| == p.carriers
    ensures forall i :: 0 <= i < |out| ==> out[i] == TxSymbol(p, rng, drawn, i)
    ensures drawnAfter == drawn + ActiveCarriers(p)
  {
    out, drawnAfter := FillCarriers(CarrierMask(p), p.constellation, rng, p.seed, drawn);
  }

  /** The symbols of OFDM symbol `s` of a frame: the generator is seeded once, so symbol
      `s` starts after `s` symbols' worth of draws. */
  function FrameSymbolData(p: ParamSet, rng: (nat, nat) -> nat, s: nat): (r: seq<Complex>)
    requires UsableConstellation(p) && DrawsInRange(rng, |p.constellation|)
    ensures |r| == p.carriers
  {
    seq(p.carriers, i requires 0 <= i < p.carriers => TxSymbol(p, rng, Cells(ActiveCarriers(p), s), i))
  }

  /** Distinct used carriers of one symbol, and used carriers of distinct symbols, are
      fed by distinct draws: no index of the stream is used twice. */
  lemma DrawsAreDistinct(p: ParamSet, s1: nat, i1: nat, s2: nat, i2: nat)
    requires i1 < p.carriers && i2 < p.carriers
    requires CarrierMask(p)[i1] && CarrierMask(p)[i2]
    requires (s1, i1) != (s2, i2)
    ensures Cells(ActiveCarriers(p), s1) + CountTrue(CarrierMask(p)[..i1])
         != Cells(ActiveCarriers(p), s2) + CountTrue(CarrierMask(p)[..i2])
  {
    var m, a := CarrierMask(p), ActiveCarriers(p);
    var r1, r2 := CountTrue(m[..i1]), CountTrue(m[..i2]);
    IndexColumn(a, s1, r1);
    IndexColumn(a, s2, r2);
    RankBelowCount(m, i1);
    RankBelowCount(m, i2);
    if Index2(a, s1, r1) == Index2(a, s2, r2) {
      IndexUnique(a, s1, r1, s2, r2);
      if i1 < i2 {
        CountPrefixMonotone(m, i1, i2);
      } else if i2 < i1 {
        CountPrefixMonotone(m, i2, i1);
      }
    }
  }
}
