/** The receiver block `ofdmradar_rx` (lib/ofdmradar_rx_impl.cc). Each call of
    `general_work` advances a resumable pipeline with four counters:
    collect (FFT of each received symbol, division by the reference symbols, inverse FFT
    into row `symbol` of the periodogram buffer), Doppler (FFT along every column),
    emit (copy whole rows to the output) and drain (discard input up to the buffer size),
    after which the counters return to 0. The FFT plans are parameters. */
module Rx {
  import opened ComplexMath
  import opened Results
  import opened Words
  import opened Grid
  import opened Params
  import opened Shared
  import opened CyclicPrefix
  import opened RxIndex
  import Tx

  /** The three FFT plans: the `carriers`-point forward FFT of the shared base, the
      `peri_carriers`-point inverse FFT and the `peri_symbols`-point Doppler FFT. */
  datatype Transforms = Transforms(fft: Plan, periIfft: Plan, dopplerFft: Plan)

  predicate ValidTransforms(p: ParamSet, tr: Transforms) {
    PlanOfSize(tr.fft, p.carriers) && PlanOfSize(tr.periIfft, p.periCarriers) && PlanOfSize(tr.dopplerFft, p.periSymbols)
  }

  /** What the constructor fixes for the life of the block: the parameters, the
      reference symbols of the whole frame, the two normalised window tapers and the
      number of input samples per frame cycle. */
  datatype RxConfig = RxConfig(
    p: ParamSet,
    reference: seq<Complex>,
    carrierWindow: seq<real>,
    symbolWindow: seq<real>,
    bufferSize: nat)

  /** The sizes the receiver relies on: the periodogram is at least as large as the
      frame in both directions (otherwise `pad_spectrum` and the frame-buffer indexing
      leave their ranges), and none of the 32-bit sizes wraps. */
  predicate RxSizes(p: ParamSet) {
    p.carriers <= p.periCarriers && p.symbols <= p.periSymbols
    && Cells(p.periCarriers, p.periSymbols) < U32
    && Cells(p.carriers, p.symbols) < U32
    && p.carriers + p.cyclicPrefixLength < U32
  }

  predicate ValidConfig(c: RxConfig) {
    RxSizes(c.p)
    && |c.reference| == Cells(c.p.carriers, c.p.symbols)
    && |c.carrierWindow| == c.p.carriers
    && |c.symbolWindow| == c.p.symbols
  }

  /** The constructor's `buffer_size`: `(size_t)-1` selects `frame_length()`. */
  function EffectiveBufferSize(p: ParamSet, bufferSize: nat): (r: nat)
    requires bufferSize < U64
    ensures bufferSize != U64 - 1 ==> r == bufferSize
    ensures bufferSize == U64 - 1 ==> r == FrameLength(p)
  {
    if bufferSize == U64 - 1 then FrameLength(p) else bufferSize
  }

  /** `forecast`: ask for at most 0x1000 items, and no more than the buffer still holds;
      the difference is `unsigned long`, so once more than `buffer_size` items have been
      consumed it wraps and the request is 0x1000. */
  function Forecast(bufferSize: nat, totalConsumed: nat): (r: nat)
    requires bufferSize < U64 && totalConsumed < U64
    ensures r <= 0x1000
    ensures totalConsumed <= bufferSize ==> r == if bufferSize - totalConsumed < 0x1000 then bufferSize - totalConsumed else 0x1000
    ensures totalConsumed > bufferSize ==> r == if totalConsumed - bufferSize > U64 - 0x1000 then U64 - (totalConsumed - bufferSize) else 0x1000
  {
    var remaining := Wrap64(bufferSize - totalConsumed);
    assert totalConsumed > bufferSize ==> remaining == U64 + bufferSize - totalConsumed by {
      if totalConsumed > bufferSize {
        Wrap64Negative(bufferSize - totalConsumed);
      }
    }
    if remaining < 0x1000 then remaining else 0x1000
  }
  /** The samples consumed after `steps` calls that each consume exactly what `forecast`
      asked for, starting from `total` consumed samples. */
  function ConsumeForecasts(bufferSize: nat, total: nat, steps: nat): (r: nat)
    requires total <= bufferSize < U64
    ensures total <= r <= bufferSize
    decreases steps
  {
    if steps == 0 then total
    else ConsumeForecasts(bufferSize, total + Forecast(bufferSize, total), steps - 1)
  }

  /** A block that consumes what `forecast` requests never reads past the buffer: after
      `steps` requests it has consumed `0x1000` items per request until the buffer is
      full, and exactly `buffer_size` from then on. */
  lemma {:induction false} ForecastsStayWithinBuffer(bufferSize: nat, total: nat, steps: nat)
    requires total <= bufferSize < U64
    ensures ConsumeForecasts(bufferSize, total, steps)
         == if total + steps * 0x1000 <= bufferSize then total + steps * 0x1000 else bufferSize
    decreases steps
  {
    if steps > 0 {
      ForecastsStayWithinBuffer(bufferSize, total + Forecast(bufferSize, total), steps - 1);
    }
  }


  /** The reference table built by the constructor: row `s` holds the symbols of OFDM
      symbol `s`, drawn from a fresh generator seeded with the same `seed`. */
  ghost predicate IsReference(p: ParamSet, rng: (nat, nat) -> nat, ref: seq<Complex>)
    requires UsableConstellation(p) && DrawsInRange(rng, |p.constellation|)
  {
    |ref| == Cells(p.carriers, p.symbols)
    && forall s: nat, i: nat {:trigger Index2(p.carriers, s, i)} :: s < p.symbols && i < p.carriers ==>
      Index2(p.carriers, s, i) < |ref| && ref[Index2(p.carriers, s, i)] == FrameSymbolData(p, rng, s)[i]
  }

  /** The constructor's reference loop: `symbols` calls of `generate_tx_symbols`, row
      `s` written at offset `s * carriers`. */
  method ReferenceSymbols(p: ParamSet, rng: (nat, nat) -> nat) returns (ref: seq<Complex>)
    requires UsableConstellation(p) && DrawsInRange(rng, |p.constellation|)
    ensures IsReference(p, rng, ref)
  {
    var n, a := p.carriers, ActiveCarriers(p);
    ref := [];
    ghost var rows: seq<seq<Complex>> := [];
    var s := 0;
    var drawn := 0;
    while s < p.symbols
      invariant 0 <= s <= p.symbols
      invariant |rows| == s
      invariant ref == Concat(rows)
      invariant drawn == Cells(a, s)
      invariant forall s' :: 0 <= s' < s ==> rows[s'] == FrameSymbolData(p, rng, s')
    {
      var row, drawnAfter := GenerateTxSymbols(p, rng, drawn);
      assert row == FrameSymbolData(p, rng, s);
      ConcatAppend(rows, row);
      ref := ref + row;
      rows := rows + [row];
      drawn := drawnAfter;
      s := s + 1;
    }
    ConcatCells(rows, n);
  }

  /** The receiver divides by exactly what the transmitter modulated: the carriers of
      reference row `s` are the inverse-FFT input of transmitted symbol `s`, whose
      samples after the cyclic prefix are that inverse FFT. */
  lemma ReferenceMatchesTransmitter(p: ParamSet, rng: (nat, nat) -> nat, ifft: Plan,
                                    ref: seq<Complex>, s: nat)
    requires Tx.TxSetup(p, rng, ifft)
    requires IsReference(p, rng, ref)
    requires s < p.symbols
    ensures Index2(p.carriers, s, 0) + p.carriers <= |ref|
    ensures StripPrefix(Tx.SymbolSamples(p, rng, ifft, s), p.cyclicPrefixLength)
         == Execute(ifft, ref[Index2(p.carriers, s, 0)..Index2(p.carriers, s, 0) + p.carriers])
  {
    var n := p.carriers;
    var base := Index2(n, s, 0);
    RowInGrid(n, p.symbols, s);
    var row := ref[base..base + n];
    forall i | 0 <= i < n
      ensures row[i] == FrameSymbolData(p, rng, s)[i]
    {
      IndexColumn(n, s, i);
    }
    assert row == FrameSymbolData(p, rng, s);
    StripAddRoundTrip(Execute(ifft, row), p.cyclicPrefixLength);
  }

  // ---------------------------------------------------------------------------------
  // The FFT scratch buffers

  function Max(a: nat, b: nat): nat { if a >= b then a else b }

  /** The scratch buffers `d_fft_in` / `d_fft_out` as the shared base allocates them:
      `max(carriers, symbols)` complex entries. */
  function ScratchLengthAsWritten(p: ParamSet): nat {
    Max(p.carriers, p.symbols)
  }

  /** The scratch size the receiver actually needs: its plans and loops use
      `peri_carriers` and `peri_symbols` entries as well as `carriers`. */
  function ScratchLength(p: ParamSet): nat {
    Max(Max(p.carriers, p.symbols), Max(p.periCarriers, p.periSymbols))
  }

  /** The parameters of the shipped example flowgraph. */
  const ExampleParams: ParamSet :=
    ParamSet(1024, 128, 4096, 1024, 128, 1, 64, 0, [Complex(1.0, 0.0), Complex(-1.0, 0.0)], 0)

  /** With the example parameters the allocated scratch holds 1024 entries, but the last
      carrier is padded to slot 4095 of the 4096-entry periodogram spectrum and the
      `peri_carriers`-point inverse FFT reads and writes 4096 entries. */
  lemma ScratchOverflowAsWritten()
    ensures RxSizes(ExampleParams)
    ensures ScratchLengthAsWritten(ExampleParams) == 1024
    ensures PadSpectrum(1023, 1024, 4096) == Ok(4095)
    ensures ExampleParams.periCarriers > ScratchLengthAsWritten(ExampleParams)
  {
    CellsIsProduct(4096, 1024);
    CellsIsProduct(1024, 128);
  }

  /** With the corrected size every scratch index the receiver uses is in range: the
      padded carrier slots, the `peri_carriers` and `peri_symbols` FFT lengths and the
      `carriers`-point forward FFT. */
  lemma ScratchCoversReceiver(p: ParamSet)
    requires RxSizes(p)
    ensures forall i: u32 :: i < p.carriers ==>
      PadSpectrum(i, p.carriers, p.periCarriers).Ok? && PadSpectrum(i, p.carriers, p.periCarriers).value < ScratchLength(p)
    ensures p.carriers <= ScratchLength(p) && p.periCarriers <= ScratchLength(p) && p.periSymbols <= ScratchLength(p)
  {
    PadSpectrumPlacement(p.carriers, p.periCarriers);
  }

  // ---------------------------------------------------------------------------------
  // Collect: one received symbol to one periodogram row

  /** The channel estimate on carrier `i` of received symbol `s`: the windowed FFT bin
      divided by the reference symbol, or 0 on an unused carrier. */
  function Estimate(c: RxConfig, fftOut: seq<Complex>, s: nat, i: nat): Complex
    requires ValidConfig(c) && |fftOut| == c.p.carriers
    requires s < c.p.symbols && i < c.p.carriers
  {
    IndexInGrid(c.p.carriers, c.p.symbols, s, i);
    if CarrierMask(c.p)[i] then Div(ScaleBy(fftOut[i], c.carrierWindow[i]), c.reference[Index2(c.p.carriers, s, i)])
    else Zero
  }

  /** The padded spectrum: slot `j` carries the estimate of the carrier `pad_spectrum`
      places there, and every slot no carrier reaches is 0 (see `PaddedSpectrumSlots`). */
  function PaddedSpectrum(c: RxConfig, fftOut: seq<Complex>, s: nat): (r: seq<Complex>)
    requires ValidConfig(c) && |fftOut| == c.p.carriers && s < c.p.symbols
    ensures |r| == c.p.periCarriers
  {
    PaddedPrefix(c, fftOut, s, c.p.periCarriers)
  }

  /** The first `k` slots of the padded spectrum. */
  function PaddedPrefix(c: RxConfig, fftOut: seq<Complex>, s: nat, k: nat): (r: seq<Complex>)
    requires ValidConfig(c) && |fftOut| == c.p.carriers && s < c.p.symbols
    ensures |r| == k
    decreases k
  {
    if k == 0 then [] else PaddedPrefix(c, fftOut, s, k - 1) + [PaddedSlot(c, fftOut, s, c.p.carriers, k - 1)]
  }

  lemma {:induction false} PaddedPrefixAt(c: RxConfig, fftOut: seq<Complex>, s: nat, k: nat, j: nat)
    requires ValidConfig(c) && |fftOut| == c.p.carriers && s < c.p.symbols
    requires j < k
    ensures PaddedPrefix(c, fftOut, s, k)[j] == PaddedSlot(c, fftOut, s, c.p.carriers, j)
    decreases k
  {
    if j < k - 1 {
      PaddedPrefixAt(c, fftOut, s, k - 1, j);
    }
  }

  /** Each carrier's estimate sits at its `pad_spectrum` slot, and a slot that no
      carrier is padded to holds 0. */
  lemma PaddedSpectrumSlots(c: RxConfig, fftOut: seq<Complex>, s: nat, j: u32)
    requires ValidConfig(c) && |fftOut| == c.p.carriers && s < c.p.symbols
    requires j < c.p.periCarriers
    ensures forall i: u32 :: i < c.p.carriers && PadSpectrum(i, c.p.carriers, c.p.periCarriers) == Ok(j) ==>
      PaddedSpectrum(c, fftOut, s)[j] == Estimate(c, fftOut, s, i)
    ensures (forall i: u32 :: i < c.p.carriers ==> PadSpectrum(i, c.p.carriers, c.p.periCarriers) != Ok(j)) ==>
      PaddedSpectrum(c, fftOut, s)[j] == Zero
  {
    PaddedPrefixAt(c, fftOut, s, c.p.periCarriers, j);
    UnpadInvertsPad(c.p.carriers, c.p.periCarriers, j);
    PadSpectrumPlacement(c.p.carriers, c.p.periCarriers);
  }

  /** Slot `j` after the first `upto` carriers have been placed. */
  function PaddedSlot(c: RxConfig, fftOut: seq<Complex>, s: nat, upto: nat, j: nat): Complex
    requires ValidConfig(c) && |fftOut| == c.p.carriers && s < c.p.symbols
  {
    match UnpadIndex(j, c.p.carriers, c.p.periCarriers)
    case Some(i) => if i < upto && i < c.p.carriers then Estimate(c, fftOut, s, i) else Zero
    case None => Zero
  }

  /** Placing carrier `ic`'s estimate at its `pad_spectrum` slot turns the slots after
      `ic` carriers into the slots after `ic + 1`. */
  lemma PadStep(c: RxConfig, fftOut: seq<Complex>, s: nat, ic: u32, next: nat, idx: nat,
                scratch: seq<Complex>, placed: seq<Complex>)
    requires ValidConfig(c) && |fftOut| == c.p.carriers && s < c.p.symbols && ic < c.p.carriers
    requires next == ic + 1
    requires PadSpectrum(ic, c.p.carriers, c.p.periCarriers) == Ok(idx) && idx < |scratch|
    requires c.p.periCarriers <= |scratch|
    requires forall j :: 0 <= j < c.p.periCarriers ==> scratch[j] == PaddedSlot(c, fftOut, s, ic, j)
    requires placed == scratch[idx := Estimate(c, fftOut, s, ic)]
    ensures forall j :: 0 <= j < c.p.periCarriers ==> placed[j] == PaddedSlot(c, fftOut, s, next, j)
  {
    forall j | 0 <= j < c.p.periCarriers
      ensures placed[j] == PaddedSlot(c, fftOut, s, next, j)
    {
      UnpadInvertsPad(c.p.carriers, c.p.periCarriers, j);
    }
  }

  /** The "divide out TX symbols" loop: clear `peri_carriers` scratch entries, then write
      each carrier's estimate to its `pad_spectrum` slot. `pad_spectrum` never raises
      here, as `carriers <= peri_carriers`. */
  method PadRow(c: RxConfig, fftOut: seq<Complex>, s: nat) returns (spectrum: seq<Complex>)
    requires ValidConfig(c) && |fftOut| == c.p.carriers && s < c.p.symbols
    ensures spectrum == PaddedSpectrum(c, fftOut, s)
  {
    var n, pn := c.p.carriers, c.p.periCarriers;
    ScratchCoversReceiver(c.p);
    var scratch := seq(ScratchLength(c.p), _ => Zero);
    var ic: u32 := 0;
    while ic < n
      invariant ic <= n
      invariant |scratch| == ScratchLength(c.p)
      invariant forall j :: 0 <= j < pn ==> scratch[j] == PaddedSlot(c, fftOut, s, ic, j)
    {
      var idx := PadSpectrum(ic, n, pn).value;
      var placed := scratch[idx := Estimate(c, fftOut, s, ic)];
      PadStep(c, fftOut, s, ic, ic + 1, idx, scratch, placed);
      scratch := placed;
      ic := ic + 1;
    }
    spectrum := scratch[..pn];
    PaddedSpectrumIs(c, fftOut, s, spectrum);
  }

  /** A sequence of `peri_carriers` slots that agrees with every fully placed slot is
      the padded spectrum. */
  lemma PaddedSpectrumIs(c: RxConfig, fftOut: seq<Complex>, s: nat, spectrum: seq<Complex>)
    requires ValidConfig(c) && |fftOut| == c.p.carriers && s < c.p.symbols
    requires |spectrum| == c.p.periCarriers
    requires forall j :: 0 <= j < c.p.periCarriers ==> spectrum[j] == PaddedSlot(c, fftOut, s, c.p.carriers, j)
    ensures spectrum == PaddedSpectrum(c, fftOut, s)
  {
    forall j | 0 <= j < c.p.periCarriers
      ensures spectrum[j] == PaddedSpectrum(c, fftOut, s)[j]
    {
      PaddedPrefixAt(c, fftOut, s, c.p.periCarriers, j);
    }
  }

  /** Row `s` of the periodogram buffer: the inverse `peri_carriers`-point FFT of the
      padded spectrum of received symbol window `window`. */
  function ChannelRow(c: RxConfig, tr: Transforms, s: nat, window: seq<Complex>): (r: seq<Complex>)
    requires ValidConfig(c) && ValidTransforms(c.p, tr) && |window| == c.p.carriers && s < c.p.symbols
    ensures |r| == c.p.periCarriers
  {
    Execute(tr.periIfft, PaddedSpectrum(c, Execute(tr.fft, window), s))
  }

  /** The counters of `general_work` and the periodogram buffer they index. */
  datatype RxState = RxState(
    symbolIdx: nat,
    carrierIdx: nat,
    wrSymbolIdx: nat,
    totalConsumed: nat,
    frame: seq<Complex>)

  /** The constructor's state: every counter 0 and a zeroed `peri_length` buffer. */
  function InitialState(p: ParamSet): (st: RxState)
    requires RxSizes(p)
    ensures RxInvariant(p, st)
    ensures st.symbolIdx == 0 && st.carrierIdx == 0 && st.wrSymbolIdx == 0 && st.totalConsumed == 0
  {
    CellsIsProduct(p.periCarriers, p.periSymbols);
    RxState(0, 0, 0, 0, seq(PeriLength(p), _ => Zero))
  }

  /** The phases run in order: the Doppler counter only moves once all symbols are
      collected, and the write counter only once the Doppler pass is done. */
  predicate RxInvariant(p: ParamSet, st: RxState) {
    st.symbolIdx <= p.symbols && st.carrierIdx <= p.periCarriers && st.wrSymbolIdx <= p.periSymbols
    && |st.frame| == Cells(p.periCarriers, p.periSymbols)
    && (st.carrierIdx > 0 ==> st.symbolIdx == p.symbols)
    && (st.wrSymbolIdx > 0 ==> st.carrierIdx == p.periCarriers)
  }

  /** The received symbol that starts at `offset` in this call's input: the `carriers`
      samples that start `cyclic_prefix_length / 2` into it. */
  function ReceivedWindow(p: ParamSet, input: seq<Complex>, offset: nat): (w: seq<Complex>)
    requires offset + p.carriers + p.cyclicPrefixLength <= |input|
    ensures |w| == p.carriers
  {
    CenteredWindow(input[offset..offset + p.carriers + p.cyclicPrefixLength], p.cyclicPrefixLength, p.carriers)
  }

  /** What the receiver sees of a transmitted symbol: when the input at `offset` holds
      the samples of symbol `s`, the FFT window is the transmitter's inverse-FFT output
      rotated by the `cpl - cpl / 2` prefix samples that fall inside the window. */
  lemma ReceivedWindowOfSymbol(p: ParamSet, rng: (nat, nat) -> nat, ifft: Plan,
                               input: seq<Complex>, offset: nat, s: nat)
    requires Tx.TxSetup(p, rng, ifft)
    requires offset + p.carriers + p.cyclicPrefixLength <= |input|
    requires input[offset..offset + p.carriers + p.cyclicPrefixLength] == Tx.SymbolSamples(p, rng, ifft, s)
    ensures ReceivedWindow(p, input, offset)
         == Rotate(Execute(ifft, FrameSymbolData(p, rng, s)), p.cyclicPrefixLength - p.cyclicPrefixLength / 2)
  {
    CenteredWindowRotates(Execute(ifft, FrameSymbolData(p, rng, s)), p.cyclicPrefixLength);
  }

  /** One pass of the collect loop: the channel row of the symbol at `offset`, which
      the caller stores as row `s` of the periodogram buffer. */
  method CollectSymbol(c: RxConfig, tr: Transforms, s: nat, input: seq<Complex>, offset: nat)
      returns (row: seq<Complex>)
    requires ValidConfig(c) && ValidTransforms(c.p, tr) && s < c.p.symbols
    requires offset + c.p.carriers + c.p.cyclicPrefixLength <= |input|
    ensures row == ChannelRow(c, tr, s, ReceivedWindow(c.p, input, offset))
  {
    var n, cpl := c.p.carriers, c.p.cyclicPrefixLength;
    var received := input[offset..offset + n + cpl];
    var window := received[cpl / 2..cpl / 2 + n];
    var spectrum := PadRow(c, Execute(tr.fft, window), s);
    row := Execute(tr.periIfft, spectrum);
  }

  /** `rows` are the channel rows of the first `|rows|` symbols of `input`, laid back to
      back from offset 0 and estimated as symbols `s0, s0 + 1, ...` of the frame. */
  ghost predicate ChannelRowsOf(c: RxConfig, tr: Transforms, s0: nat, input: seq<Complex>, rows: seq<seq<Complex>>)
    requires ValidConfig(c) && ValidTransforms(c.p, tr)
    decreases |rows|
  {
    |rows| == 0 ||
    var k, l := |rows| - 1, c.p.carriers + c.p.cyclicPrefixLength;
    ChannelRowsOf(c, tr, s0, input, rows[..k])
    && s0 + k < c.p.symbols && Index2(l, k, 0) + l <= |input|
    && rows[k] == ChannelRow(c, tr, s0 + k, ReceivedWindow(c.p, input, Index2(l, k, 0)))
  }

  /** Row `k` of collected rows is the channel row of the symbol at offset
      `k * (carriers + cyclic_prefix_length)`. */
  lemma {:induction false} ChannelRowsAt(c: RxConfig, tr: Transforms, s0: nat, input: seq<Complex>,
                                         rows: seq<seq<Complex>>, k: nat)
    requires ValidConfig(c) && ValidTransforms(c.p, tr)
    requires ChannelRowsOf(c, tr, s0, input, rows)
    requires k < |rows|
    ensures s0 + k < c.p.symbols
    ensures Index2(c.p.carriers + c.p.cyclicPrefixLength, k, 0) + c.p.carriers + c.p.cyclicPrefixLength <= |input|
    ensures rows[k] == ChannelRow(c, tr, s0 + k, ReceivedWindow(c.p, input, Index2(c.p.carriers + c.p.cyclicPrefixLength, k, 0)))
    ensures |rows[k]| == c.p.periCarriers
    decreases |rows|
  {
    if k < |rows| - 1 {
      ChannelRowsAt(c, tr, s0, input, rows[..|rows| - 1], k);
    }
  }

  /** One more channel row, of the next symbol of the input, extends the collected rows. */
  lemma ChannelRowsSnoc(c: RxConfig, tr: Transforms, s0: nat, input: seq<Complex>, rows: seq<seq<Complex>>,
                        offset: nat, row: seq<Complex>)
    requires ValidConfig(c) && ValidTransforms(c.p, tr)
    requires ChannelRowsOf(c, tr, s0, input, rows)
    requires s0 + |rows| < c.p.symbols
    requires offset == Index2(c.p.carriers + c.p.cyclicPrefixLength, |rows|, 0)
    requires offset + c.p.carriers + c.p.cyclicPrefixLength <= |input|
    requires row == ChannelRow(c, tr, s0 + |rows|, ReceivedWindow(c.p, input, offset))
    ensures ChannelRowsOf(c, tr, s0, input, rows + [row])
  {
    assert (rows + [row])[..|rows|] == rows;
  }

  /** Collected rows have the width of a buffer row. */
  lemma ChannelRowsWidth(c: RxConfig, tr: Transforms, s0: nat, input: seq<Complex>, rows: seq<seq<Complex>>)
    requires ValidConfig(c) && ValidTransforms(c.p, tr)
    requires ChannelRowsOf(c, tr, s0, input, rows)
    ensures forall k :: 0 <= k < |rows| ==> |rows[k]| == c.p.periCarriers
  {
    forall k | 0 <= k < |rows|
      ensures |rows[k]| == c.p.periCarriers
    {
      ChannelRowsAt(c, tr, s0, input, rows, k);
    }
  }

  /** What the collect loop keeps: the symbols `st.symbolIdx .. s - 1` of this call's
      input have been estimated (`rows`), `consumed` samples read, and the rows stored
      in the buffer. */
  ghost predicate Collected(c: RxConfig, tr: Transforms, st: RxState, input: seq<Complex>,
                            frame: seq<Complex>, s: nat, consumed: nat, rows: seq<seq<Complex>>)
    requires ValidConfig(c) && ValidTransforms(c.p, tr) && RxInvariant(c.p, st)
  {
    && st.symbolIdx <= s <= c.p.symbols
    && consumed == Index2(c.p.carriers + c.p.cyclicPrefixLength, s - st.symbolIdx, 0) <= |input|
    && |rows| == s - st.symbolIdx
    && ChannelRowsOf(c, tr, st.symbolIdx, input, rows)
    && (forall k :: 0 <= k < |rows| ==> |rows[k]| == c.p.periCarriers)
    && frame == WriteRows(st.frame, c.p.periCarriers, c.p.periSymbols, st.symbolIdx, rows)
  }

  /** Storing the channel row of symbol `s` extends what has been collected by one
      symbol. */
  lemma CollectedSnoc(c: RxConfig, tr: Transforms, st: RxState, input: seq<Complex>,
                      frame: seq<Complex>, s: nat, consumed: nat, rows: seq<seq<Complex>>, row: seq<Complex>)
    requires ValidConfig(c) && ValidTransforms(c.p, tr) && RxInvariant(c.p, st)
    requires Collected(c, tr, st, input, frame, s, consumed, rows)
    requires s < c.p.symbols && consumed + c.p.carriers + c.p.cyclicPrefixLength <= |input|
    requires row == ChannelRow(c, tr, s, ReceivedWindow(c.p, input, consumed))
    ensures |row| == c.p.periCarriers
    ensures Collected(c, tr, st, input, WriteRow(frame, c.p.periCarriers, c.p.periSymbols, s, row),
                      s + 1, consumed + c.p.carriers + c.p.cyclicPrefixLength, rows + [row])
  {
    var l, pn, pm := c.p.carriers + c.p.cyclicPrefixLength, c.p.periCarriers, c.p.periSymbols;
    IndexStep(l, s - st.symbolIdx);
    ChannelRowsSnoc(c, tr, st.symbolIdx, input, rows, consumed, row);
    ChannelRowsWidth(c, tr, st.symbolIdx, input, rows + [row]);
    WriteRowsAppend(st.frame, pn, pm, st.symbolIdx, rows, frame, s, row);
  }

  /** One turn of the collect loop: estimate symbol `s` from the next
      `carriers + cyclic_prefix_length` samples and store its row. */
  method CollectStep(c: RxConfig, tr: Transforms, st: RxState, input: seq<Complex>,
                     frame: seq<Complex>, s: nat, consumed: nat, ghost rows: seq<seq<Complex>>)
      returns (frame': seq<Complex>, ghost rows': seq<seq<Complex>>)
    requires ValidConfig(c) && ValidTransforms(c.p, tr) && RxInvariant(c.p, st)
    requires Collected(c, tr, st, input, frame, s, consumed, rows)
    requires s < c.p.symbols && consumed + c.p.carriers + c.p.cyclicPrefixLength <= |input|
    ensures Collected(c, tr, st, input, frame', s + 1, consumed + c.p.carriers + c.p.cyclicPrefixLength, rows')
    ensures rows' == rows + [ChannelRow(c, tr, s, ReceivedWindow(c.p, input, consumed))]
  {
    var row := CollectSymbol(c, tr, s, input, consumed);
    CollectedSnoc(c, tr, st, input, frame, s, consumed, rows, row);
    frame' := WriteRow(frame, c.p.periCarriers, c.p.periSymbols, s, row);
    rows' := rows + [row];
  }

  /** The collect phase: while symbols are missing and a whole symbol of
      `carriers + cyclic_prefix_length` samples is available, estimate its channel row
      and store it; stop early, keeping `symbolIdx`, when the input runs short. The
      rows stored are the channel rows of consecutive symbols of this call's input
      (`ChannelRowsAt`), written to buffer rows `symbolIdx, symbolIdx + 1, ...`
      (`WriteRowsCells`). */
  method Collect(c: RxConfig, tr: Transforms, st: RxState, input: seq<Complex>)
      returns (next: RxState, consumed: nat, ghost rows: seq<seq<Complex>>)
    requires ValidConfig(c) && ValidTransforms(c.p, tr) && RxInvariant(c.p, st)
    ensures RxInvariant(c.p, next)
    ensures st.symbolIdx <= next.symbolIdx
    ensures consumed == Index2(c.p.carriers + c.p.cyclicPrefixLength, next.symbolIdx - st.symbolIdx, 0) <= |input|
    ensures next.symbolIdx == c.p.symbols || |input| - consumed < c.p.carriers + c.p.cyclicPrefixLength
    ensures next.totalConsumed == st.totalConsumed + consumed
    ensures next.carrierIdx == st.carrierIdx && next.wrSymbolIdx == st.wrSymbolIdx
    ensures |rows| == next.symbolIdx - st.symbolIdx
    ensures ChannelRowsOf(c, tr, st.symbolIdx, input, rows)
    ensures forall k :: 0 <= k < |rows| ==> |rows[k]| == c.p.periCarriers
    ensures next.frame == WriteRows(st.frame, c.p.periCarriers, c.p.periSymbols, st.symbolIdx, rows)
  {
    var frame, s := st.frame, st.symbolIdx;
    consumed := 0;
    rows := [];
    while s < c.p.symbols
      invariant Collected(c, tr, st, input, frame, s, consumed, rows)
    {
      if |input| - consumed < c.p.carriers + c.p.cyclicPrefixLength {
        break;
      }
      frame, rows := CollectStep(c, tr, st, input, frame, s, consumed, rows);
      s := s + 1;
      consumed := consumed + c.p.carriers + c.p.cyclicPrefixLength;
    }
    next := st.(frame := frame, symbolIdx := s, totalConsumed := st.totalConsumed + consumed);
  }
}
