# gr-ofdmradar in Dafny

A model of the discrete core of gr-ofdmradar, a GNU Radio OFDM radar. Eight parts are
modelled, one Dafny module each unless noted:

- **Params.** The waveform parameter set and what it derives: `symbol_length`,
  `frame_length`, `peri_length` and the carrier mask. The mask includes the 32-bit and
  64-bit unsigned wrap of its DC and Nyquist tests.
- **Constellation.** The symbol alphabets of `get_constellation`, with the QAM order
  guard (`popcount`/`ffs`), the integer lattice, and centering and energy
  normalisation.
- **Shared.** The random symbol source shared by transmitter and receiver
  (`generate_tx_symbols`).
- **Tx.** The transmitter: the cyclic-prefix layout of a symbol, the frame, and the
  `work` state machine. `work` streams the frame cyclically and puts a length tag at
  each frame start.
- **Rx.** The receiver.
  - `fftshift` and `pad_spectrum` are in RxIndex.
  - The constructor (reference symbols, window tapers, buffer size) is in RxSetup.
  - The four resumable phases of `general_work` (collect, Doppler, emit, drain) and
    the reset of its counters are in Rx and RxWork.
- **ArrayCorr.** The sample covariance block `array_corr`, R = X * X^H / samples.
- **PyConstellation.** The Python reference alphabet (`Constellation`) and its
  index and bit modulation.
- **PyRadar.** The Python reference radar (`OFDMRadar`): the exclusion mask,
  `forward`/`backward`, the random frame, `receive_frame` and `estimate_channel`.

Shared support modules:

- **ComplexMath.** Complex arithmetic over `real`. An FFT plan is a matrix (`Plan`),
  and `Execute` multiplies a sample vector by it.
- **Grid.** Row-major two-dimensional indexing.
- **Words.** 32-bit and 64-bit unsigned wrap-around.
- **Counting.** Counting the true entries of a mask.
- **Results.** The error outcomes: the C++ exceptions and the Python assertion and
  indexing failures.

Some parts of the system are parameters of the model rather than code in it:

- `std::sqrt`/`np.sqrt` are given by a function with the square-root property
  (`IsSqrt`).
- The PSK points `cos + i sin` are given by a function `unitPoint`.
- The FFTs are plans of the right size. Where a round trip needs it, they are taken
  to be inverses of each other (`InversePair`).
- The C++ generator is an index stream `rng(seed, k)` that stays in range. numpy's
  seeded generator is the stream `draw(k)` of values it returns.
- The window builders and the contents `np.empty` returns are passed in as values.

## Model

| member | source | states |
|---|---|---|
| Words.Wrap64Negative | lib/ofdmradar_impl.cc:139-141 | a `size_t` difference below zero wraps to the top of the 64-bit range, as the mask loop's Nyquist term does |
| Params.SymbolLength | lib/ofdmradar_impl.cc:134 | `symbol_length` is `carriers + cyclic_prefix_length` whenever that 32-bit sum does not wrap |
| Params.FrameLayout | lib/ofdmradar_impl.cc:134-135 | without wrap-around a frame is `symbols` back-to-back symbols, symbol `j` starts at `j * symbol_length` and ends inside the frame |
| Params.PeriLengthCells | include/ofdmradar/ofdmradar.h:69-73 | `peri_length` is `peri_carriers * peri_symbols` when the product fits in 32 bits and that product mod 2^32 otherwise (the code's formula, not the one in the comment at :71) |
| Params.CarrierMask | lib/ofdmradar_impl.cc:136-141 | the mask has `carriers` entries, and carrier `i` is used iff it is outside the DC guard and passes the Nyquist test, each test in the source's integer widths |
| Params.DcGuardExact | lib/ofdmradar_impl.cc:140 | the DC test disables exactly `i <= dc_guard` and `i >= carriers - dc_guard` |
| Params.NyquistGuardExact | lib/ofdmradar_impl.cc:141 | for `nyquist_guard < 2^31` the Nyquist test fails exactly on `[carriers/2 - nyquist_guard, carriers/2 + nyquist_guard)` |
| Params.NyquistTest32BitAgrees | lib/ofdmradar_impl.cc:141 | with `nyquist_guard <= carriers/2`, evaluating the Nyquist term mod 2^32 gives the same mask as the code's 64-bit `size_t` arithmetic |
| Params.DcGuardWidth | include/ofdmradar/ofdmradar.h:92-98 | with `2 * dc_guard + 1 <= carriers`, exactly `2 * dc_guard + 1` carriers around DC are unused |
| Params.NyquistGuardWidth | include/ofdmradar/ofdmradar.h:100-106 | with `nyquist_guard <= carriers/2`, exactly `nyquist_guard` bins on each side of the Nyquist bin are unused |
| Params.ActiveCarrierCount | lib/ofdmradar_impl.cc:136-141 | when the two guards do not overlap, `carriers - (2 * dc_guard + 1) - 2 * nyquist_guard` carriers are used |
| Shared.FillCarriers | lib/ofdmradar_impl.cc:236-244 | the carrier loop writes one entry per carrier and makes one draw per used carrier, in increasing carrier order |
| Shared.TxSymbolValues | lib/ofdmradar_impl.cc:239-242 | a used carrier carries a point of the constellation, and an unused one carries 0 |
| Shared.GenerateTxSymbols | lib/ofdmradar_impl.cc:236-244 | `carriers` entries are written, each the symbol of its carrier, and the generator advances by the number of used carriers |
| Shared.DrawsAreDistinct | lib/ofdmradar_impl.cc:192-193 | with one generator seeded once, no draw of the stream feeds two used carriers of the same or of different symbols |
| Constellation.QamAcceptsPowersOfFour | lib/ofdmradar_impl.cc:80-86 | every `4^k` with `k >= 1` passes the QAM guard, and its edge is `2^k` |
| Constellation.QamAcceptedIsPowerOfFour | lib/ofdmradar_impl.cc:80 | an order that passes the guard is `4^((ffs(order) - 1) / 2)` with a positive exponent |
| Constellation.QamGuardIsPowerOfFour | lib/ofdmradar_impl.cc:80-82 | the guard accepts an order iff it is a power of four from 4 up |
| Constellation.QamEdgeSquared | lib/ofdmradar_impl.cc:86 | for an accepted order, `edge = order >> ((ffs(order) - 1) >> 1)` is at least 2 and `edge * edge == order` |
| Constellation.LatticeLayout | lib/ofdmradar_impl.cc:86-89 | entry `x * edge + y` is `x + i*y`, and `(x, y) -> x * edge + y` is a bijection from `[0, edge)^2` onto `[0, edge^2)` |
| Constellation.LatticeIndexInjective | lib/ofdmradar_impl.cc:87-89 | distinct lattice coordinates are written to distinct entries |
| Constellation.LatticeIndexOnto | lib/ofdmradar_impl.cc:87-89 | every entry of the lattice is written by some `(x, y)` |
| Constellation.NormFactor | lib/ofdmradar_impl.cc:27-34 | for two distinct points the centered energy is positive and the factor squares to `size / energy` |
| Constellation.CenterNormalize | lib/ofdmradar_impl.cc:27-50 | centering then normalising gives `(raw[i] - mean) * fact` pointwise, a zero sum and total energy equal to the number of points |
| Constellation.QpskConstellation | lib/ofdmradar_impl.cc:62-64 | QPSK is the points `(+-1 +- i)/sqrt(2)` in the order of the raw points `0, 1, i, 1+i`, with zero sum and unit mean energy |
| Constellation.PskConstellation | lib/ofdmradar_impl.cc:66-77 | PSK fails iff `order < 2` and otherwise returns the `order` points `unitPoint(i, order)` (the `cos + i sin` of angle `2*pi*i/order`), not normalised |
| Constellation.QamConstellation | lib/ofdmradar_impl.cc:79-92 | QAM succeeds iff the order is a power of four from 4 up, and gives the centered, normalised lattice with zero sum and unit mean energy |
| Constellation.GetConstellation | lib/ofdmradar_impl.cc:54-101 | succeeds exactly for BPSK, QPSK, PSK of order >= 2 and QAM of a power of four >= 4, raising the branch's error otherwise; BPSK is exactly `[1, -1]`; the sizes, PSK points, QPSK alphabet and QAM layout are as in the branches, with QPSK and QAM of zero sum and unit mean energy |
| Constellation.FixedConstellation | lib/ofdmradar_impl.cc:59-64 | the BPSK and QPSK branches always succeed: BPSK is `[1, -1]`, and QPSK is the normalised four-point alphabet |
| Constellation.OrderedConstellation | lib/ofdmradar_impl.cc:66-95 | the PSK, QAM and default branches accept exactly the valid orders, throw the branch's error otherwise, and return `order` points |
| CyclicPrefix.AddPrefixSamples | lib/ofdmradar_tx_impl.cc:46-52 | the symbol follows its prefix unchanged, and prefix sample `k` is symbol sample `n - g + k` |
| CyclicPrefix.StripAddRoundTrip | docs/ofdmradar/radar.py:27-32 | dropping the first `g` samples of a prefixed symbol gives the symbol back |
| CyclicPrefix.CenteredWindowRotates | lib/ofdmradar_rx_impl.cc:149 | the receiver's window, taken `cpl/2` into a received symbol, is the transmitted symbol cyclically rotated by `cpl - cpl/2` |
| Tx.GenerateSymbol | lib/ofdmradar_tx_impl.cc:40-53 | a symbol has `carriers + cpl` samples, the inverse FFT of its drawn carriers after the prefix, and the last `cpl` of those in front; symbol `j` leaves the generator `j + 1` symbols' worth of draws on |
| Tx.GenerateFrame | lib/ofdmradar_tx_impl.cc:55-60 | the frame has `frame_length` samples, and symbol `j` sits at `j * symbol_length`, drawn from one generator that is never reseeded |
| Tx.Work | lib/ofdmradar_tx_impl.cc:67-92 | raises iff the request is negative; otherwise writes `min(request, frame_size - running_idx)` samples of the frame from the running index, tags the call iff the index is 0 (key `len_tag_key`, offset `nitems_written(0)`, value the frame size), and wraps the index to 0 at the frame end |
| Tx.Run | lib/ofdmradar_tx_impl.cc:67-92 | any sequence of `work` calls keeps the running index inside the frame |
| Tx.RunRepeatsFrame | lib/ofdmradar_tx_impl.cc:85-89 | the concatenated output of successive calls is the frame repeated cyclically from the starting index, and the index afterwards is where it stopped |
| Tx.RunTagsFrameStarts | lib/ofdmradar_tx_impl.cc:79-84 | over any run of calls the length tags mark exactly the frame starts of the output, each carrying the key and the frame size |
| RxIndex.Fftshift | lib/ofdmradar_rx_impl.cc:30-37 | `fftshift` keeps an index below `N` below `N` |
| RxIndex.FftshiftInvolution | lib/ofdmradar_rx_impl.cc:29-37 | for even `N`, `fftshift` applied twice gives the index back |
| RxIndex.FftshiftBijective | lib/ofdmradar_rx_impl.cc:29-37 | for even `N`, `fftshift` is injective and onto on `[0, N)` |
| RxIndex.FftshiftOddCollides | lib/ofdmradar_rx_impl.cc:29 | for odd `N >= 3` the first and last bin collide, which is why the helper is for even sizes only |
| RxIndex.PadSpectrum | lib/ofdmradar_rx_impl.cc:39-53 | raises iff `i >= to`; keeps bins below `from/2` and moves the others up by `to - from` |
| RxIndex.PadSpectrumPlacement | lib/ofdmradar_rx_impl.cc:39-53 | with `from <= to` every bin is placed inside the larger spectrum at the bin of the same signed frequency, injectively |
| RxIndex.UnpadInvertsPad | lib/ofdmradar_rx_impl.cc:39-53 | `UnpadIndex` inverts `pad_spectrum`, and the slots `[from/2, to - from + from/2)` receive no bin |
| RxIndex.PadSpectrumExample | lib/ofdmradar_rx_impl.cc:41-42 | the source comment's example: 8 bins padded to 16 put bins 0..3 at 0..3 and bins 4..7 at 12..15 |
| Rx.EffectiveBufferSize | lib/ofdmradar_rx_impl.cc:76-77 | a `buffer_size` of `(size_t)-1` selects `frame_length()`, and any other value is kept |
| Rx.Forecast | lib/ofdmradar_rx_impl.cc:121-124 | the request is at most 0x1000 and no more than the buffer still holds; past the buffer the `unsigned long` difference wraps |
| Rx.ForecastsStayWithinBuffer | lib/ofdmradar_rx_impl.cc:121-124 | a block that consumes what `forecast` asks for gains 0x1000 per call until the buffer is full and never reads past `buffer_size` |
| Rx.ReferenceSymbols | lib/ofdmradar_rx_impl.cc:87-91 | row `s` of the reference table holds the symbols of OFDM symbol `s` of a generator seeded with `seed` |
| Rx.ReferenceMatchesTransmitter | lib/ofdmradar_rx_impl.cc:87-91 | reference row `s` is the inverse-FFT input of transmitted symbol `s`, whose samples after the prefix are that inverse FFT |
| Rx.ScratchOverflowAsWritten | lib/ofdmradar_impl.cc:195-197 | with the shipped example parameters the scratch holds 1024 entries while the receiver pads a carrier to slot 4095 |
| Rx.ScratchCoversReceiver | lib/ofdmradar_rx_impl.cc:155-167 | with a scratch of `max(carriers, symbols, peri_carriers, peri_symbols)` every padded slot and FFT length is in range |
| Rx.PaddedSpectrumSlots | lib/ofdmradar_rx_impl.cc:155-164 | each carrier's estimate sits at its `pad_spectrum` slot, and a slot no carrier reaches holds 0 |
| Rx.PadRow | lib/ofdmradar_rx_impl.cc:155-164 | the clear-and-divide loop produces exactly the padded spectrum |
| Rx.InitialState | lib/ofdmradar_rx_impl.cc:69-71 | the block starts with every counter 0 and a `peri_length` buffer, satisfying the phase invariant |
| Rx.ReceivedWindowOfSymbol | lib/ofdmradar_rx_impl.cc:149 | on a transmitted symbol the FFT window is the transmitter's inverse-FFT output rotated by the prefix samples it contains |
| Rx.CollectSymbol | lib/ofdmradar_rx_impl.cc:149-172 | one pass yields the channel row of the symbol at the offset |
| Rx.CollectStep | lib/ofdmradar_rx_impl.cc:149-172 | one turn of the loop stores the channel row of symbol `s` and advances by `carriers + cpl` samples |
| Rx.ChannelRowsAt | lib/ofdmradar_rx_impl.cc:142-173 | collected row `k` is the channel row of the symbol at offset `k * (carriers + cpl)` |
| Rx.Collect | lib/ofdmradar_rx_impl.cc:142-174 | consumes `carriers + cpl` per collected symbol, stops only when all symbols are in or the input runs short (keeping `symbol_idx`), and stores the rows at `symbol_idx, symbol_idx + 1, ...` |
| RxSetup.GridEnergy | lib/ofdmradar_rx_impl.cc:95-101 | the double loop's energy is the product of the two windows' energies |
| RxSetup.TaperNormFourth | lib/ofdmradar_rx_impl.cc:103-105 | the norm's fourth power times the energy is `carriers * symbols` |
| RxSetup.ShiftedTaperEnergy | lib/ofdmradar_rx_impl.cc:107-109 | for even `carriers` the shifted carrier taper holds every tap once, so its energy is `norm^2` times the raw energy |
| RxSetup.CarrierTaperRotates | lib/ofdmradar_rx_impl.cc:107-109 | for even `carriers` the shifted taper is the window rotated by half, scaled |
| RxSetup.NewRx | lib/ofdmradar_rx_impl.cc:61-113 | the constructor builds the reference table, the shifted and normalised tapers, and the effective buffer size |
| RxSetup.ConstructedTaperPower | lib/ofdmradar_rx_impl.cc:93-112 | with even `carriers` and non-zero windows, the two-dimensional taper has total power `carriers * symbols` |
| RxWork.DopplerScaleExact | lib/ofdmradar_rx_impl.cc:188 | under the receiver's sizes the divisor is exactly `symbols * carriers`, and it is positive for a non-empty frame |
| RxWork.ColumnInput | lib/ofdmradar_rx_impl.cc:178-181 | the Doppler input is the column's first `symbols` cells times the symbol taper, zero-padded to `peri_symbols` |
| RxWork.DopplerStep | lib/ofdmradar_rx_impl.cc:177-189 | one pass writes back column `k` as its Doppler FFT divided by `symbols * carriers` |
| RxWork.DopplerCells | lib/ofdmradar_rx_impl.cc:177-189 | after the loop over some columns, each of them is the Doppler column of the original buffer, and every other cell is unchanged |
| RxWork.DopplerColumnUntouched | lib/ofdmradar_rx_impl.cc:177-189 | a column still holds its original cells when the loop reaches it |
| RxWork.Doppler | lib/ofdmradar_rx_impl.cc:177-189 | the loop transforms every column from `carrier_idx` on and leaves `carrier_idx == peri_carriers` |
| RxWork.PeriodogramCell | lib/ofdmradar_rx_impl.cc:142-189 | after a full cycle, cell `(x, y)` is bin `x` of the Doppler FFT of carrier `y` of the channel rows, tapered, zero-padded and scaled, with nothing of the old buffer left |
| RxWork.Emit | lib/ofdmradar_rx_impl.cc:191-201 | the output is whole rows from `wr_symbol_idx` on, never more than `noutput_items`, stopping only at the last row or when the next row does not fit |
| RxWork.Drain | lib/ofdmradar_rx_impl.cc:203-211 | below `buffer_size` all remaining input is consumed; the cycle completes iff `buffer_size` samples have been consumed |
| RxWork.Reset | lib/ofdmradar_rx_impl.cc:213-216 | the four counters return to 0 and the buffer is kept |
| RxWork.GeneralWork | lib/ofdmradar_rx_impl.cc:126-218 | on a constructed receiver, a short input produces nothing and keeps the state for resumption; otherwise the stored frame is the previous one with the channel rows of the consumed input (received spectrum over reference, tapered, padded) written in, the output is whole rows of the transformed buffer, and after a whole cycle from the start every periodogram cell is the scaled Doppler FFT of the tapered channel column; the counters reset exactly when the cycle's `buffer_size` samples are consumed |
| RxWork.FullCyclePeriodogram | lib/ofdmradar_rx_impl.cc:126-218 | after a whole cycle from an empty frame, every periodogram cell is the scaled Doppler FFT of the symbol-tapered, zero-padded column of channel rows |
| ArrayCorr.BlocksFit | lib/array_corr_impl.cc:60 | `k` whole blocks fit in the input iff `k <= ninput / samples` |
| ArrayCorr.ForecastExact | lib/array_corr_impl.cc:35-41 | a call produces every requested matrix iff it gets at least the forecast `noutput_items * samples` inputs |
| ArrayCorr.ChannelAt | lib/array_corr_impl.cc:61-69 | matrix `k` reads only input block `k`, with `X[i][s]` at `(k * samples + s) * array_size + i` (column-major `Map`) |
| ArrayCorr.CovarianceCell | lib/array_corr_impl.cc:63-65 | entry `(i, j)` of a matrix is written at `j * array_size + i` of its block |
| ArrayCorr.CovariancesAt | lib/array_corr_impl.cc:60-71 | output matrix `k` is the covariance of input block `k` |
| ArrayCorr.EntryHermitian | lib/array_corr_impl.cc:65 | `R[i][j] == conj(R[j][i])` |
| ArrayCorr.EntryDiagonal | lib/array_corr_impl.cc:65 | every diagonal entry is real and non-negative |
| ArrayCorr.OutputCell | lib/array_corr_impl.cc:63-70 | where each entry of each produced matrix sits in the output buffer |
| ArrayCorr.OutputHermitian | lib/array_corr_impl.cc:65-70 | every matrix in the output buffer is Hermitian |
| ArrayCorr.ProducedAfterLoop | lib/array_corr_impl.cc:60 | the loop's exit condition gives `min(noutput_items, ninput / samples)` |
| ArrayCorr.GeneralWork | lib/array_corr_impl.cc:43-77 | returns 0 on less than one block; otherwise returns `min(noutput_items, ninput / samples)` matrices (all `noutput_items` when `samples == 0`), consumes exactly that many blocks, and outputs their covariances in order |
| PyConstellation.Log2ExactCorrect | docs/ofdmradar/constellation.py:17-18 | `log2(order)` is the integer `p` iff `order == 2^p` |
| PyConstellation.QamOrderAsWrittenIsPowerOfFour | docs/ofdmradar/constellation.py:16-18 | the Python checks accept exactly the powers of four, `4^0 = 1` included |
| PyConstellation.QamOrderCheckedMatchesCpp | docs/ofdmradar/constellation.py:16-18 | with order 1 excluded, the Python checks accept exactly the orders the C++ guard accepts |
| PyConstellation.NormalizeUnitEnergy | docs/ofdmradar/constellation.py:10-13 | for two distinct points `normalize_constellation` gives zero sum and mean energy 1 |
| PyConstellation.NormalizeSinglePoint | docs/ofdmradar/constellation.py:10-13 | a one-point alphabet normalises to the point 0 (0/0 in numpy) |
| PyConstellation.QamAlphabet | docs/ofdmradar/constellation.py:15-22 | corrected QAM succeeds iff the order is a power of four >= 4 (InvalidQamOrder otherwise), and gives an alphabet of that order with an even number of bits per symbol, at least 2, zero sum and mean energy 1 |
| PyConstellation.NewAsWritten | docs/ofdmradar/constellation.py:4-32 | the constructor as written accepts QAM exactly for the powers of four including 1, makes BPSK exactly `[1, -1]` with order 2 and power 1, and rejects any other name |
| PyConstellation.NewValid | docs/ofdmradar/constellation.py:15-30 | the corrected constructor accepts QAM exactly as the C++ guard does, and every object it returns has at least one bit per symbol |
| PyConstellation.NewDiffersOnlyAtOrderOne | docs/ofdmradar/constellation.py:15-19 | the two constructors differ exactly on QAM of order 1 |
| PyConstellation.OrderOneOnlyDifference | docs/ofdmradar/constellation.py:16-18 | among the accepted orders only 1 is rejected by the corrected checks, and it is the only one below 4 |
| PyConstellation.QamOrderOneAsWritten | docs/ofdmradar/constellation.py:13-22 | order 1 passes the checks as written and yields a one-point alphabet holding 0 |
| PyConstellation.QamOrderOneEnergy | docs/ofdmradar/constellation.py:10-22 | the order-1 alphabet has energy 0, not mean energy 1 |
| PyConstellation.ModulateData | docs/ofdmradar/constellation.py:34-42 | fails iff some index is outside `[0, order)`; otherwise maps each index to its symbol |
| PyConstellation.GroupIndexRoundTrip | docs/ofdmradar/constellation.py:32 | a group of bits is an index below `2^|g|` whose big-endian bits are the group |
| PyConstellation.ToBitsRoundTrip | docs/ofdmradar/constellation.py:32 | every index below `2^power` is the group index of its `power` bits |
| PyConstellation.GroupsAt | docs/ofdmradar/constellation.py:50-52 | row `k` of the reshaped bits starts at `k * power`, and its index is below `2^power` |
| PyConstellation.ModulateBits | docs/ofdmradar/constellation.py:44-52 | fails on non-bits, on a zero-bit alphabet and on a length not divisible by `power`; otherwise symbol `k` is the symbol of the `k`-th big-endian group |
| PyRadar.Position | docs/ofdmradar/radar.py:19 | an accepted numpy index selects a position on the axis, itself when non-negative |
| PyRadar.MaskExact | docs/ofdmradar/radar.py:16-19 | the mask is built iff the band ends inside the axis; every entry is 0 or 1, and for `margin <= N/2` the zeros are exactly `[N/2 - margin, N/2 + margin)` |
| PyRadar.MaskWrapsAround | docs/ofdmradar/radar.py:17-19 | for odd `N` and a band one wider than half, the negative first index wraps and every carrier is excluded |
| PyRadar.ActiveCarriersAsWritten | docs/ofdmradar/radar.py:20 | with the `int` mask, `arange(N)[mask]` succeeds iff every entry is an index, and then lists the indexed positions, not the kept carriers |
| PyRadar.ActiveCarriersExact | docs/ofdmradar/radar.py:20 | the corrected active carriers are exactly the positions with a non-zero mask entry, in increasing order |
| PyRadar.New | docs/ofdmradar/radar.py:6-20 | the corrected constructor (see Findings) succeeds iff the band ends inside the axis (IndexError otherwise), keeps its arguments, and lists exactly the carriers whose mask entry is 1 |
| PyRadar.ActiveCarriersFinding | docs/ofdmradar/radar.py:20 | with `N = 4` and margin 1 the code as written lists `[1, 0, 0, 1]` where the kept carriers are `[0, 3]` |
| PyRadar.SingleCarrierFinding | docs/ofdmradar/radar.py:20 | with `N = 1` and no margin the code as written raises IndexError, while the corrected constructor keeps carrier 0 |
| PyRadar.MaskedAt | docs/ofdmradar/radar.py:26 | `symbols * carrier_mask` zeroes the excluded symbols and keeps the others |
| PyRadar.AssignHead | docs/ofdmradar/radar.py:27 | `s[:g] = v` succeeds iff `v` has `g` entries or one, writes only the head, and raises a broadcast error otherwise |
| PyRadar.ForwardAsWrittenNoGuard | docs/ofdmradar/radar.py:27 | with `N_guard == 0` and `N >= 2` the code as written raises a broadcast error |
| PyRadar.Forward | docs/ofdmradar/radar.py:22-28 | the corrected forward: fails iff the last axis is not `N` (ShapeMismatch) or `N == 0` (numpy's inverse FFT of zero points raises), and otherwise gives `N + N_guard` samples; at `N_guard == 0` it gives the bare inverse FFT where the code as written raises |
| PyRadar.ForwardDiffersOnlyWithoutGuard | docs/ofdmradar/radar.py:22-28 | the corrected and the as-written forward differ exactly when `N_guard == 0`, `N >= 2` and the row has `N` entries |
| PyRadar.ForwardLayout | docs/ofdmradar/radar.py:24-27 | the last `N` samples are `ifft(symbols * mask)`; with `N_guard <= N` the row is that symbol behind its cyclic prefix, the first `N_guard` samples repeating the last; a longer guard copies `np.empty` contents into the prefix |
| PyRadar.Backward | docs/ofdmradar/radar.py:30-32 | fails iff the row is not `N + N_guard` long (ShapeMismatch) or `N == 0` (numpy's FFT of zero points raises), and otherwise gives `N` bins |
| PyRadar.BackwardForward | docs/ofdmradar/radar.py:22-32 | `backward(forward(x)) == fft(ifft(x * mask))`, which is `x * mask` (0 at excluded carriers, `x` elsewhere) for inverse plans |
| PyRadar.GetFrameData | docs/ofdmradar/radar.py:34-36 | the frame data is `M` rows of `N` indices |
| PyRadar.FrameDataLayout | docs/ofdmradar/radar.py:34-36 | read row by row the data is the generator's stream, and with draws in `[0, order)` every entry is a valid index |
| PyRadar.GenerateRandomFrame | docs/ofdmradar/radar.py:38-41 | built on the corrected forward: fails iff a drawn index is out of range (DataOutOfRange) or `N == 0` (the FFT error of `forward`); otherwise the symbols are the drawn points and the samples are the rows' forward symbols end to end |
| PyRadar.TransmittedRow | docs/ofdmradar/radar.py:41 | a transmitted frame has `(N + N_guard) * M` samples, and row `s` is the forward symbol of row `s` |
| PyRadar.ReceiveFrame | docs/ofdmradar/radar.py:43-46 | fails iff the frame is not `M * (N + N_guard)` samples (ShapeMismatch) or `N == 0` (the FFT error of `backward`); otherwise gives `M` rows of `N` bins |
| PyRadar.ReceiveTransmitted | docs/ofdmradar/radar.py:38-46 | receiving a transmitted frame gives `fft(ifft(symbols * mask))` per row, and the masked symbols for inverse plans |
| PyRadar.EstimateChannel | docs/ofdmradar/radar.py:48-55 | fails iff the frame length is wrong, `N == 0` (the FFT error of `receive_frame`) or `F_tx` does not broadcast (rows of `N`, and `M` of them or one); otherwise the estimate is 0 at excluded carriers and `F_rx / F_tx` times the shifted window elsewhere, a single `F_tx` row serving every symbol, and `F_tx` comes back with 1 in its excluded columns |
| PyRadar.OneRowBroadcasts | docs/ofdmradar/radar.py:50-51 | with carriers, estimating with one `F_tx` row gives the same channel as estimating with that row repeated for all `M` symbols; without, both fail |
| PyRadar.EstimateOfCleanFrame | docs/ofdmradar/radar.py:48-55 | with inverse plans and non-zero reference symbols, estimating the channel of an undistorted transmission gives the shifted window on every kept carrier and 0 on the excluded ones |

## Left out

- ComplexMath.Div: a zero divisor gives `Zero`, where floating point gives inf or NaN. This affects array_corr with `samples == 0` and the Python normalisation of a one-point alphabet.
- ComplexMath.DivReal: likewise, a zero real divisor gives `Zero` instead of inf or NaN.
- RxSetup.Quot: a zero divisor gives 0 where the `float` code gets inf or NaN. `RxSetup.TaperNorm` inherits this for an all-zero window or an empty frame.
- Floating point in general: `float`/`gr_complex`/numpy arithmetic is modelled as exact real arithmetic, without rounding.
- ArrayCorr.GeneralWork: the `int` products `(ret + 1) * samples`, `samples * array_size` and the address offsets are unbounded, so 32-bit overflow is not modelled. The debug printing to `std::cout` is left out.
- ArrayCorr.ForecastExact: the `int` product `noutput_items * samples` in `forecast` is taken without overflow.
- Shared.UsableConstellation: requires a constellation of 1 to 2^32 points, which the `ofdmradar_params` constructor (lib/ofdmradar_impl.cc:119-135) never checks. With an empty one, the first draw for a used carrier has undefined behaviour: the distribution's bound `size() - 1` wraps at lib/ofdmradar_impl.cc:193, and the empty vector is then indexed at lib/ofdmradar_impl.cc:240. The bound of 2^32 points comes from the `unsigned int` conversion of that upper bound. A parameter set with an empty constellation but no used carrier runs normally in the source and is not modelled. `Shared.TxSymbolValues`, `Shared.GenerateTxSymbols`, `Shared.DrawsAreDistinct`, `Tx.TxSetup` (and with it `Tx.GenerateSymbol`, `Tx.GenerateFrame` and `Tx.Work`), `Rx.ReferenceSymbols` and `RxSetup.Constructed` (and with it `RxSetup.NewRx` and `RxWork.GeneralWork`) inherit this.
- Tx.TxSetup: requires `cyclic_prefix_length <= carriers` and a frame that does not wrap, which the constructor never checks. With a longer prefix, the `unsigned int` index `carriers - cyclic_prefix_length + i` at lib/ofdmradar_tx_impl.cc:49-50 wraps to nearly 2^32 for `i < cyclic_prefix_length - carriers` and reads far past the end of the FFT buffer, and because that loop also stops at `i < carriers` the samples `out[carriers..cyclic_prefix_length)` are never written. Neither has a meaning to model. `Tx.GenerateSymbol`, `Tx.GenerateFrame`, `Rx.ReferenceMatchesTransmitter` and `Rx.ReceivedWindowOfSymbol` inherit this.
- Tx.Work: requires the frame size to be at most `INT_MAX`, because lib/ofdmradar_tx_impl.cc:76 converts `size_t` to `int` and a larger frame has no defined count. `Tx.Run`, `Tx.RunRepeatsFrame` and `Tx.RunTagsFrameStarts` inherit this.
- Rx.RxSizes: requires `carriers <= peri_carriers`, `symbols <= peri_symbols` and no 32-bit wrap of the buffer sizes. This excludes the `runtime_error` that `pad_spectrum` throws at lib/ofdmradar_rx_impl.cc:46-47 when `carriers > peri_carriers`; `RxIndex.PadSpectrum` itself models that throw. `RxWork.GeneralWork` and the Rx phase methods inherit this through `Rx.ValidConfig`.
- Rx.PadRow: uses the corrected scratch size (see Findings), so the overflow of the as-written allocation is shown by `Rx.ScratchOverflowAsWritten` and not executed as memory corruption.
- RxSetup.NewRx: `ofdmradar_params::window` (a GNU Radio window of the configured type) and `std::sqrt` are parameters. The window builder is assumed to return `n` taps for a request of `n`.
- PyConstellation.Upper: maps ASCII letters only. Python's `str.upper` also maps characters such as 'ſ' to 'S', so `"bpſk"` is accepted by Python and rejected here.
- PyConstellation.ModulateData: the data is a sequence of integers, so the check that the array holds integers (constellation.py:35-38) always passes and is not modelled.
- PyRadar.New: requires a constellation the Python constructor can build (`PyConstellation.Valid`), since `OFDMRadar` receives one already constructed. A negative `N` or `N_border_margin` is not modelled; both are natural numbers here. It is the corrected constructor (see Findings): as written, radar.py:20 indexes `np.arange(N)` with the `int` mask, so `active_carriers` lists mask values rather than carrier numbers, and `N == 1` with no margin raises IndexError. `PyRadar.NewAsWritten` is the constructor as written; the rest of the model uses `New`.
- PyRadar.Forward: works on one row of the last axis. Higher-dimensional arrays are handled row by row, and other numpy broadcast shapes are not modelled. The contents of `np.empty` are a parameter.
- PyRadar.Forward: is the corrected forward at `N_guard == 0` (see Findings). `ForwardRows`, `GenerateRandomFrame`, `Transmits`, `ReceiveTransmitted` and `EstimateOfCleanFrame` build on it, so at `N_guard == 0` and `N >= 2` they succeed where radar.py:27 raises a broadcast error. `ForwardDiffersOnlyWithoutGuard` proves the two agree everywhere else.
- PyRadar.EstimateChannel: of numpy's broadcast shapes for `F_tx` only `(M, N)` and `(1, N)` are modelled; every other shape, including ones numpy would broadcast (a column, extra leading axes), is one BroadcastError, whichever numpy error would come first. The Hamming window is a parameter. The in-place update of the caller's `F_tx` is modelled as the returned `reference` array, so on an error raised after radar.py:50 the `Err` result does not show that the caller's `F_tx` already has 1 in its excluded columns.
- PyRadar.GetFrameData: numpy's generator is the stream of values it draws after `np.random.seed(seed)`; its algorithm is not modelled.
- The C++ random generator (`std::default_random_engine` with `uniform_int_distribution`) is an index stream that stays in range; its algorithm is not modelled.
- FFTW and numpy FFTs: a plan is a matrix applied to the samples. Round trips assume a forward and an inverse plan that undo each other (`PyRadar.InversePair`).
- PSK points (lib/ofdmradar_impl.cc:73-75): `cos` and `sin` are the parameter `unitPoint`. Only the count, the order check and the point assignment are modelled.
- `set_output_multiple`, stream-tag plumbing beyond the tag's offset, key and value, pmt conversion, and `python_str`/`python_repr` formatting are GNU Radio plumbing and are left out.
- `periodogram` (docs/ofdmradar/radar.py:57-63) is a composition of numpy FFTs and an axis shift with no discrete logic of its own.
- array_calib, array_music and array_esprit (Eigen solvers, an atomic trigger, unfinished outputs), docs/ofdmradar/doa.py (eigen numerics), the GUI, the Python bindings and the example flowgraphs are outside the modelled core.

## Findings

| source | as written | input that shows it | evidently intended | confidence | as-written member | corrected member |
|---|---|---|---|---|---|---|
| lib/ofdmradar_impl.cc:195-197 | the shared scratch buffers `d_fft_in`/`d_fft_out` hold `max(carriers, symbols)` entries, but the receiver clears `peri_carriers` and `peri_symbols` entries of them, pads carriers up to slot `peri_carriers - 1`, and runs `peri_carriers`- and `peri_symbols`-point plans on them (lib/ofdmradar_rx_impl.cc:81-85, 155-167, 178-187) | the shipped example parameters (examples/ofdmradar_test.py:81-90): 1024 carriers, 128 symbols, `peri_carriers` 4096, `peri_symbols` 1024. Carrier 1023 is padded to slot 4095 of a 1024-entry buffer | a scratch of `max(carriers, symbols, peri_carriers, peri_symbols)` entries | high (not executed) | Rx.ScratchOverflowAsWritten | Rx.ScratchCoversReceiver |
| docs/ofdmradar/constellation.py:16-18 | the QAM check accepts order 1, because `log2(1) = 0` is an even integer | `Constellation("QAM", 1)`: a one-point alphabet whose normalisation divides 0 by `sqrt(0)` (constellation.py:13), giving NaN | reject order 1, as the C++ guard does (`order < 4`) | high (not executed) | PyConstellation.QamOrderOneAsWritten | PyConstellation.NewValid |
| docs/ofdmradar/radar.py:20 | `np.arange(N)[carrier_mask]` indexes with the `int` 0/1 mask instead of selecting with a boolean one | `OFDMRadar(4, g, 1, m, c)` gives `active_carriers == [1, 0, 0, 1]` instead of `[0, 3]`, and `OFDMRadar(1, g, 0, m, c)` raises IndexError | the indices of the kept carriers, `np.arange(N)[carrier_mask != 0]` | high (not executed) | PyRadar.ActiveCarriersFinding | PyRadar.ActiveCarriersExact |
| docs/ofdmradar/radar.py:27 | `s[..., -N_guard:]` with `N_guard == 0` is the whole row, since `-0` is `0` | `forward` with `N_guard = 0` and `N = 4` assigns 4 samples to the empty slice `s[..., :0]` and raises a broadcast ValueError | no prefix when the guard is 0 | medium (not executed) | PyRadar.ForwardAsWrittenNoGuard | PyRadar.ForwardLayout |
