/** The phases of the receiver's `general_work` after collect (lib/ofdmradar_rx_impl.cc):
    the Doppler FFT along every column of the periodogram buffer, the copy of whole rows
    to the output, the drain of the rest of the frame cycle, and the reset of the
    counters. */
module RxWork {
  import opened ComplexMath
  import opened Words
  import opened Grid
  import opened Params
  import opened Rx
  import opened RxSetup

  // ---------------------------------------------------------------------------------
  // Doppler: one FFT per buffer column

  /** The Doppler divisor `symbols() * carriers()`, an `unsigned int` product converted
      to `float`. */
  function DopplerScale(p: ParamSet): real {
    Wrap32(Cells(p.carriers, p.symbols)) as real
  }

  /** Under the receiver's sizes the divisor is the exact product, and it is non-zero
      unless the frame is empty. */
  lemma DopplerScaleExact(p: ParamSet)
    requires RxSizes(p)
    ensures DopplerScale(p) == (p.symbols * p.carriers) as real
    ensures p.symbols > 0 && p.carriers > 0 ==> DopplerScale(p) > 0.0
  {
    CellsIsProduct(p.carriers, p.symbols);
  }

  /** The Doppler FFT input of column `k`: the column's first `symbols` cells times the
      symbol taper, then zeros up to `peri_symbols`. */
  function DopplerInput(c: RxConfig, frame: seq<Complex>, k: nat): (r: seq<Complex>)
    requires ValidConfig(c) && |frame| == Cells(c.p.periCarriers, c.p.periSymbols) && k < c.p.periCarriers
    ensures |r| == c.p.periSymbols
  {
    Windowed(Column(frame, c.p.periCarriers, c.p.periSymbols, k, c.p.symbols), c.symbolWindow)
      + seq(c.p.periSymbols - c.p.symbols, _ => Zero)
  }

  lemma DopplerInputAt(c: RxConfig, frame: seq<Complex>, k: nat, i: nat)
    requires ValidConfig(c) && |frame| == Cells(c.p.periCarriers, c.p.periSymbols) && k < c.p.periCarriers
    requires i < c.p.periSymbols
    ensures Index2(c.p.periCarriers, i, k) < |frame|
    ensures DopplerInput(c, frame, k)[i]
         == if i < c.p.symbols then ScaleBy(frame[Index2(c.p.periCarriers, i, k)], c.symbolWindow[i]) else Zero
  {
    IndexInGrid(c.p.periCarriers, c.p.periSymbols, i, k);
    if i < c.p.symbols {
      ColumnAt(frame, c.p.periCarriers, c.p.periSymbols, k, c.p.symbols, i);
    }
  }

  /** Column `k` as the Doppler pass leaves it: the Doppler FFT of its input, every
      entry divided by `symbols * carriers`. */
  function DopplerColumn(c: RxConfig, tr: Transforms, frame: seq<Complex>, k: nat): (r: seq<Complex>)
    requires ValidConfig(c) && ValidTransforms(c.p, tr)
    requires |frame| == Cells(c.p.periCarriers, c.p.periSymbols) && k < c.p.periCarriers
    ensures |r| == c.p.periSymbols
  {
    var out := Execute(tr.dopplerFft, DopplerInput(c, frame, k));
    seq(|out|, i requires 0 <= i < |out| => DivReal(out[i], DopplerScale(c.p)))
  }

  /** The buffer after the Doppler loop has run over columns `k0 .. k - 1` in order, each
      column read from the buffer as the earlier columns left it. */
  function DopplerFrom(c: RxConfig, tr: Transforms, frame: seq<Complex>, k0: nat, k: nat): (r: seq<Complex>)
    requires ValidConfig(c) && ValidTransforms(c.p, tr)
    requires |frame| == Cells(c.p.periCarriers, c.p.periSymbols) && k <= c.p.periCarriers
    ensures |r| == |frame|
    decreases k
  {
    if k <= k0 then frame
    else
      var f := DopplerFrom(c, tr, frame, k0, k - 1);
      WriteColumn(f, c.p.periCarriers, c.p.periSymbols, k - 1, DopplerColumn(c, tr, f, k - 1), c.p.periSymbols)
  }

  /** The columns are transformed independently: after the loop over `k0 .. k - 1`
      every such column is the Doppler column of the buffer as it was before the loop,
      and every other cell is unchanged. */
  lemma {:induction false} DopplerCells(c: RxConfig, tr: Transforms, frame: seq<Complex>, k0: nat, k: nat, x: nat, y: nat)
    requires ValidConfig(c) && ValidTransforms(c.p, tr)
    requires |frame| == Cells(c.p.periCarriers, c.p.periSymbols) && k <= c.p.periCarriers
    requires x < c.p.periSymbols && y < c.p.periCarriers
    ensures Index2(c.p.periCarriers, x, y) < |frame|
    ensures DopplerFrom(c, tr, frame, k0, k)[Index2(c.p.periCarriers, x, y)]
         == if k0 <= y < k then DopplerColumn(c, tr, frame, y)[x] else frame[Index2(c.p.periCarriers, x, y)]
    decreases k, 1
  {
    var pn, pm := c.p.periCarriers, c.p.periSymbols;
    IndexInGrid(pn, pm, x, y);
    if k > k0 {
      var f := DopplerFrom(c, tr, frame, k0, k - 1);
      WriteColumnCell(f, pn, pm, k - 1, DopplerColumn(c, tr, f, k - 1), pm, x, y);
      if y == k - 1 {
        DopplerColumnUntouched(c, tr, frame, k0, k - 1);
      } else {
        DopplerCells(c, tr, frame, k0, k - 1, x, y);
      }
    }
  }

  /** Column `j` still holds its original cells when the loop reaches it. */
  lemma {:induction false} DopplerColumnUntouched(c: RxConfig, tr: Transforms, frame: seq<Complex>, k0: nat, j: nat)
    requires ValidConfig(c) && ValidTransforms(c.p, tr)
    requires |frame| == Cells(c.p.periCarriers, c.p.periSymbols) && j < c.p.periCarriers
    ensures DopplerColumn(c, tr, DopplerFrom(c, tr, frame, k0, j), j) == DopplerColumn(c, tr, frame, j)
    decreases j, 2
  {
    var pn, pm, m := c.p.periCarriers, c.p.periSymbols, c.p.symbols;
    var f := DopplerFrom(c, tr, frame, k0, j);
    forall x | 0 <= x < m
      ensures Index2(pn, x, j) < |f| && f[Index2(pn, x, j)] == frame[Index2(pn, x, j)]
    {
      DopplerCells(c, tr, frame, k0, j, x, j);
    }
    ColumnOfSameCells(f, frame, pn, pm, j, m);
  }

  /** The periodogram of a frame cycle: once the rows `0 .. symbols - 1` of the buffer
      hold the channel rows of the cycle's symbols and the Doppler loop has run over
      every column, cell `(x, y)` is bin `x` of the Doppler FFT of entry `y` of the
      channel rows, tapered, zero-padded and divided by `symbols * carriers`. Nothing
      the buffer held before the cycle enters the result. */
  lemma PeriodogramCell(c: RxConfig, tr: Transforms, frame0: seq<Complex>, input: seq<Complex>,
                        rows: seq<seq<Complex>>, x: nat, y: nat)
    requires ValidConfig(c) && ValidTransforms(c.p, tr)
    requires |frame0| == Cells(c.p.periCarriers, c.p.periSymbols)
    requires |rows| == c.p.symbols && ChannelRowsOf(c, tr, 0, input, rows)
    requires forall k :: 0 <= k < |rows| ==> |rows[k]| == c.p.periCarriers
    requires x < c.p.periSymbols && y < c.p.periCarriers
    ensures Index2(c.p.periCarriers, x, y) < |frame0|
    ensures DopplerFrom(c, tr, WriteRows(frame0, c.p.periCarriers, c.p.periSymbols, 0, rows), 0, c.p.periCarriers)
              [Index2(c.p.periCarriers, x, y)]
         == DivReal(Execute(tr.dopplerFft, Windowed(ColumnOfRows(rows, y), c.symbolWindow)
                                            + seq(c.p.periSymbols - c.p.symbols, _ => Zero))[x],
                    DopplerScale(c.p))
  {
    var f := WriteRows(frame0, c.p.periCarriers, c.p.periSymbols, 0, rows);
    DopplerCells(c, tr, f, 0, c.p.periCarriers, x, y);
    ColumnOfWrittenRows(frame0, c.p.periCarriers, c.p.periSymbols, rows, y);
    assert DopplerInput(c, f, y)
        == Windowed(ColumnOfRows(rows, y), c.symbolWindow) + seq(c.p.periSymbols - c.p.symbols, _ => Zero);
  }

  /** Every cell of a full cycle's periodogram, as `PeriodogramCell` gives it. */
  lemma FullCyclePeriodogram(c: RxConfig, tr: Transforms, frame0: seq<Complex>, input: seq<Complex>,
                             rows: seq<seq<Complex>>, periodogram: seq<Complex>)
    requires ValidConfig(c) && ValidTransforms(c.p, tr)
    requires |frame0| == Cells(c.p.periCarriers, c.p.periSymbols)
    requires |rows| == c.p.symbols && ChannelRowsOf(c, tr, 0, input, rows)
    requires forall k :: 0 <= k < |rows| ==> |rows[k]| == c.p.periCarriers
    requires periodogram
          == DopplerFrom(c, tr, WriteRows(frame0, c.p.periCarriers, c.p.periSymbols, 0, rows), 0, c.p.periCarriers)
    ensures forall x: nat, y: nat :: x < c.p.periSymbols && y < c.p.periCarriers ==>
      Index2(c.p.periCarriers, x, y) < |periodogram|
      && periodogram[Index2(c.p.periCarriers, x, y)]
         == DivReal(Execute(tr.dopplerFft, Windowed(ColumnOfRows(rows, y), c.symbolWindow)
                                            + seq(c.p.periSymbols - c.p.symbols, _ => Zero))[x],
                    DopplerScale(c.p))
  {
    forall x: nat, y: nat | x < c.p.periSymbols && y < c.p.periCarriers
      ensures Index2(c.p.periCarriers, x, y) < |periodogram|
      ensures periodogram[Index2(c.p.periCarriers, x, y)]
           == DivReal(Execute(tr.dopplerFft, Windowed(ColumnOfRows(rows, y), c.symbolWindow)
                                              + seq(c.p.periSymbols - c.p.symbols, _ => Zero))[x],
                      DopplerScale(c.p))
    {
      PeriodogramCell(c, tr, frame0, input, rows, x, y);
    }
  }

  /** The input loop of one Doppler column: clear `peri_symbols` scratch entries, then
      copy the tapered first `symbols` cells of the column. */
  method ColumnInput(c: RxConfig, frame: seq<Complex>, k: nat) returns (input: seq<Complex>)
    requires ValidConfig(c) && |frame| == Cells(c.p.periCarriers, c.p.periSymbols) && k < c.p.periCarriers
    ensures input == DopplerInput(c, frame, k)
  {
    var pn, pm, m := c.p.periCarriers, c.p.periSymbols, c.p.symbols;
    input := seq(pm, _ => Zero);
    var i := 0;
    while i < m
      invariant i <= m && |input| == pm
      invariant forall j :: 0 <= j < pm ==> input[j] == if j < i then DopplerInput(c, frame, k)[j] else Zero
    {
      DopplerInputAt(c, frame, k, i);
      input := input[i := ScaleBy(frame[Index2(pn, i, k)], c.symbolWindow[i])];
      i := i + 1;
    }
    forall j | 0 <= j < pm
      ensures input[j] == DopplerInput(c, frame, k)[j]
    {
      DopplerInputAt(c, frame, k, j);
    }
  }

  /** One pass of the Doppler loop: FFT column `k` and write it back scaled. */
  method DopplerStep(c: RxConfig, tr: Transforms, frame: seq<Complex>, k: nat) returns (frame': seq<Complex>)
    requires ValidConfig(c) && ValidTransforms(c.p, tr)
    requires |frame| == Cells(c.p.periCarriers, c.p.periSymbols) && k < c.p.periCarriers
    ensures frame' == WriteColumn(frame, c.p.periCarriers, c.p.periSymbols, k, DopplerColumn(c, tr, frame, k), c.p.periSymbols)
  {
    var pn, pm := c.p.periCarriers, c.p.periSymbols;
    var input := ColumnInput(c, frame, k);
    var out := Execute(tr.dopplerFft, input);
    var scale := DopplerScale(c.p);
    ghost var col := DopplerColumn(c, tr, frame, k);
    frame' := frame;
    var i := 0;
    while i < pm
      invariant i <= pm
      invariant frame' == WriteColumn(frame, pn, pm, k, col, i)
    {
      IndexInGrid(pn, pm, i, k);
      assert col[i] == DivReal(out[i], scale);
      frame' := frame'[Index2(pn, i, k) := DivReal(out[i], scale)];
      i := i + 1;
    }
  }

  /** The Doppler loop: columns from `carrierIdx` up to `peri_carriers`, run in full once
      every symbol has been collected. */
  method Doppler(c: RxConfig, tr: Transforms, st: RxState) returns (next: RxState)
    requires ValidConfig(c) && ValidTransforms(c.p, tr) && RxInvariant(c.p, st)
    requires st.symbolIdx == c.p.symbols
    ensures RxInvariant(c.p, next)
    ensures next == st.(frame := DopplerFrom(c, tr, st.frame, st.carrierIdx, c.p.periCarriers),
                        carrierIdx := c.p.periCarriers)
  {
    var frame, k := st.frame, st.carrierIdx;
    while k < c.p.periCarriers
      invariant st.carrierIdx <= k <= c.p.periCarriers
      invariant frame == DopplerFrom(c, tr, st.frame, st.carrierIdx, k)
    {
      frame := DopplerStep(c, tr, frame, k);
      k := k + 1;
    }
    next := st.(frame := frame, carrierIdx := k);
  }

  // ---------------------------------------------------------------------------------
  // Emit and drain

  /** The emit loop: from row `wrSymbolIdx` on, copy whole `peri_carriers` rows while
      that many output slots remain. The output is one contiguous stretch of the buffer
      that ends at a row boundary, and it stops only at the last row or when the next
      row would not fit. */
  method Emit(c: RxConfig, st: RxState, noutputItems: nat) returns (next: RxState, out: seq<Complex>)
    requires ValidConfig(c) && RxInvariant(c.p, st) && st.carrierIdx == c.p.periCarriers
    ensures RxInvariant(c.p, next) && next == st.(wrSymbolIdx := next.wrSymbolIdx)
    ensures st.wrSymbolIdx <= next.wrSymbolIdx <= c.p.periSymbols
    ensures Index2(c.p.periCarriers, st.wrSymbolIdx, 0) <= Index2(c.p.periCarriers, next.wrSymbolIdx, 0) <= |st.frame|
    ensures out == st.frame[Index2(c.p.periCarriers, st.wrSymbolIdx, 0)..Index2(c.p.periCarriers, next.wrSymbolIdx, 0)]
    ensures |out| <= noutputItems
    ensures next.wrSymbolIdx == c.p.periSymbols || noutputItems - |out| < c.p.periCarriers
  {
    var pn, pm := c.p.periCarriers, c.p.periSymbols;
    var wr := st.wrSymbolIdx;
    if wr < pm {
      RowInGrid(pn, pm, wr);
    }
    out := [];
    while wr < pm
      invariant st.wrSymbolIdx <= wr <= pm
      invariant Index2(pn, st.wrSymbolIdx, 0) <= Index2(pn, wr, 0) <= |st.frame|
      invariant out == st.frame[Index2(pn, st.wrSymbolIdx, 0)..Index2(pn, wr, 0)]
      invariant |out| <= noutputItems
    {
      if noutputItems - |out| < pn {
        break;
      }
      RowInGrid(pn, pm, wr);
      IndexStep(pn, wr);
      out := out + st.frame[Index2(pn, wr, 0)..Index2(pn, wr, 0) + pn];
      wr := wr + 1;
    }
    next := st.(wrSymbolIdx := wr);
  }

  /** The drain loop: while fewer than `buffer_size` samples of the cycle have been
      consumed, consume whatever input is left, or stop for more input when there is
      none. `complete` tells whether the cycle is finished. */
  method Drain(bufferSize: nat, total: nat, available: nat) returns (taken: nat, total': nat, complete: bool)
    ensures total' == total + taken
    ensures complete <==> total' >= bufferSize
    ensures taken == if total >= bufferSize then 0 else available
  {
    taken, total' := 0, total;
    while total' < bufferSize
      invariant total' == total + taken
      invariant taken == 0 || (taken == available && total < bufferSize)
      decreases available - taken, bufferSize - total'
    {
      if available - taken == 0 {
        return taken, total', false;
      }
      total' := total' + (available - taken);
      taken := available;
    }
    complete := true;
  }

  // ---------------------------------------------------------------------------------
  // general_work

  /** The counters back at 0 for the next frame cycle; the buffer keeps its contents. */
  function Reset(st: RxState): (r: RxState)
    ensures r.frame == st.frame
    ensures r.symbolIdx == 0 && r.carrierIdx == 0 && r.wrSymbolIdx == 0 && r.totalConsumed == 0
  {
    RxState(0, 0, 0, 0, st.frame)
  }

  /** `general_work` on this call's input and `noutput_items` output slots. It returns
      the state for the next call, the number of samples consumed and the samples
      produced. The configuration is the one the constructor built from the symbol
      generator `rng`, the window builder `window`, `std::sqrt` and the `buffer_size`
      argument. `collected` is the state after the collect loop and `rows` the channel
      rows it stored, `periodogram` the buffer after the Doppler loop, `wr` the row the
      emit loop reached, and `complete` tells whether the frame cycle finished.
      - The collect loop stores the channel rows of the whole symbols of this call's
        input, from buffer row `symbolIdx` on.
      - The collect loop runs out of input: nothing is produced and the Doppler loop
        does not start.
      - Otherwise the output is the stretch of whole rows of the transformed buffer
        from row `wrSymbolIdx` to row `wr`, stopping early only when a row does not fit.
        When the whole frame arrives in one call from a fresh cycle, cell `(x, y)` of
        that buffer is the periodogram cell of the call's input (`PeriodogramCell`).
      - Once every row is out, the rest of the input is discarded while fewer than
        `buffer_size` samples of the cycle have been consumed, and the counters return
        to 0 exactly when that many have been. */
  method GeneralWork(c: RxConfig, tr: Transforms, st: RxState, input: seq<Complex>, noutputItems: nat,
                     ghost rng: (nat, nat) -> nat, ghost window: nat -> seq<real>,
                     ghost sqrt: real -> real, ghost bufferSize: nat)
      returns (next: RxState, consumed: nat, out: seq<Complex>, ghost collected: RxState,
               ghost rows: seq<seq<Complex>>, ghost periodogram: seq<Complex>, ghost wr: nat, ghost complete: bool)
    requires Constructed(c, rng, window, sqrt, bufferSize)
    requires ValidConfig(c) && ValidTransforms(c.p, tr) && RxInvariant(c.p, st)
    ensures RxInvariant(c.p, next)
    ensures consumed <= |input| && |out| <= noutputItems
    ensures RxInvariant(c.p, collected) && st.symbolIdx <= collected.symbolIdx
    ensures collected.totalConsumed - st.totalConsumed
         == Index2(c.p.carriers + c.p.cyclicPrefixLength, collected.symbolIdx - st.symbolIdx, 0)
    ensures collected.carrierIdx == st.carrierIdx && collected.wrSymbolIdx == st.wrSymbolIdx
    ensures |rows| == collected.symbolIdx - st.symbolIdx
    ensures ChannelRowsOf(c, tr, st.symbolIdx, input, rows)
    ensures forall k :: 0 <= k < |rows| ==> |rows[k]| == c.p.periCarriers
    ensures collected.frame == WriteRows(st.frame, c.p.periCarriers, c.p.periSymbols, st.symbolIdx, rows)
    ensures collected.symbolIdx < c.p.symbols ==>
      out == [] && next == collected && !complete
      && consumed == collected.totalConsumed - st.totalConsumed
      && |input| - consumed < c.p.carriers + c.p.cyclicPrefixLength
    ensures collected.symbolIdx == c.p.symbols ==>
      periodogram == DopplerFrom(c, tr, collected.frame, st.carrierIdx, c.p.periCarriers)
      && st.wrSymbolIdx <= wr <= c.p.periSymbols
      && Index2(c.p.periCarriers, st.wrSymbolIdx, 0) <= Index2(c.p.periCarriers, wr, 0) <= |periodogram|
      && out == periodogram[Index2(c.p.periCarriers, st.wrSymbolIdx, 0)..Index2(c.p.periCarriers, wr, 0)]
      && (wr == c.p.periSymbols || noutputItems - |out| < c.p.periCarriers)
    ensures st.symbolIdx == 0 && st.carrierIdx == 0 && collected.symbolIdx == c.p.symbols ==>
      forall x: nat, y: nat :: x < c.p.periSymbols && y < c.p.periCarriers ==>
        Index2(c.p.periCarriers, x, y) < |periodogram|
        && periodogram[Index2(c.p.periCarriers, x, y)]
           == DivReal(Execute(tr.dopplerFft, Windowed(ColumnOfRows(rows, y), c.symbolWindow)
                                              + seq(c.p.periSymbols - c.p.symbols, _ => Zero))[x],
                      DopplerScale(c.p))
    ensures collected.symbolIdx == c.p.symbols && wr < c.p.periSymbols ==>
      consumed == collected.totalConsumed - st.totalConsumed
    ensures collected.symbolIdx == c.p.symbols && wr == c.p.periSymbols ==>
      consumed == if collected.totalConsumed >= c.bufferSize then collected.totalConsumed - st.totalConsumed else |input|
    ensures complete <==>
      collected.symbolIdx == c.p.symbols && wr == c.p.periSymbols && st.totalConsumed + consumed >= c.bufferSize
    ensures complete ==> next == Reset(collected.(frame := periodogram))
    ensures collected.symbolIdx == c.p.symbols && !complete ==>
      next == collected.(frame := periodogram, carrierIdx := c.p.periCarriers, wrSymbolIdx := wr,
                         totalConsumed := st.totalConsumed + consumed)
  {
    var after, consumed1;
    after, consumed1, rows := Collect(c, tr, st, input);
    collected, periodogram, wr, complete := after, after.frame, 0, false;
    if after.symbolIdx < c.p.symbols {
      return after, consumed1, [], collected, rows, periodogram, wr, complete;
    }
    var transformed := Doppler(c, tr, after);
    periodogram := transformed.frame;
    if st.symbolIdx == 0 && st.carrierIdx == 0 {
      FullCyclePeriodogram(c, tr, st.frame, input, rows, periodogram);
    }
    var emitted;
    emitted, out := Emit(c, transformed, noutputItems);
    wr := emitted.wrSymbolIdx;
    if emitted.wrSymbolIdx < c.p.periSymbols {
      return emitted, consumed1, out, collected, rows, periodogram, wr, complete;
    }
    var taken, total, done := Drain(c.bufferSize, emitted.totalConsumed, |input| - consumed1);
    consumed, complete := consumed1 + taken, done;
    if done {
      next := Reset(emitted);
    } else {
      next := emitted.(totalConsumed := total);
    }
  }
}
