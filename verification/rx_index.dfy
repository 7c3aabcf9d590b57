/** The two index maps of the receiver (lib/ofdmradar_rx_impl.cc): `fftshift`, which
    swaps the two halves of an FFT, and `pad_spectrum`, which places the bins of a
    `from`-point spectrum into a larger `to`-point spectrum. */
module RxIndex {
  import opened Results
  import opened Words

  /** `fftshift(i, N)` for `unsigned int` operands. The sum `i + N/2` is only formed for
      `i < N/2`, so it never wraps. */
  function Fftshift(i: nat, n: nat): (r: nat)
    ensures i < n ==> r < n
  {
    var half := n / 2;
    if i < half then i + half else i - half
  }

  /** For even `N`, `fftshift` maps `[0, N)` into itself and undoes itself, so it is a
      permutation of the bins. */
  lemma FftshiftInvolution(i: nat, n: nat)
    requires n % 2 == 0 && i < n
    ensures Fftshift(i, n) < n
    ensures Fftshift(Fftshift(i, n), n) == i
  {
  }

  /** Distinct bins stay distinct (injective), and every bin `j` is reached (onto), from
      bin `fftshift(j, N)`. */
  lemma FftshiftBijective(n: nat)
    requires n % 2 == 0
    ensures forall i, j :: 0 <= i < n && 0 <= j < n && Fftshift(i, n) == Fftshift(j, n) ==> i == j
    ensures forall j :: 0 <= j < n ==> Fftshift(j, n) < n && Fftshift(Fftshift(j, n), n) == j
  {
    forall i, j | 0 <= i < n && 0 <= j < n && Fftshift(i, n) == Fftshift(j, n)
      ensures i == j
    {
      FftshiftInvolution(i, n);
      FftshiftInvolution(j, n);
    }
    forall j | 0 <= j < n
      ensures Fftshift(j, n) < n && Fftshift(Fftshift(j, n), n) == j
    {
      FftshiftInvolution(j, n);
    }
  }

  /** Why the helper is restricted to even sizes: for odd `N >= 3` the first and the last
      bin land on the same place. */
  lemma FftshiftOddCollides(n: nat)
    requires n % 2 == 1 && n >= 3
    ensures Fftshift(0, n) == Fftshift(n - 1, n) == n / 2
  {
  }

  /** `pad_spectrum(i, from, to)`: bins below `from / 2` (the non-negative frequencies)
      keep their index, the others move up by `to - from` (in 32-bit arithmetic) to the
      top of the larger spectrum. An index `i >= to` raises. */
  function PadSpectrum(i: u32, from: u32, to: u32): (r: Result<u32>)
    ensures r.Err? <==> i >= to
    ensures r.Err? ==> r.error == PadIndexOutOfRange
    ensures r.Ok? && i < from / 2 ==> r.value == i
    ensures r.Ok? && from / 2 <= i < from <= to ==> r.value == to - from + i
  {
    var half := from / 2;
    if i >= to then Err(PadIndexOutOfRange)
    else if i < half then Ok(i)
    else Ok(Wrap32(to - from + i))
  }

  /** The signed frequency of bin `i` of an `n`-point FFT: bins from `n / 2` on stand for
      negative frequencies. */
  function SignedBin(i: int, n: int): int {
    if i < n / 2 then i else i - n
  }

  /** With `from <= to`, every bin `i < from` is placed inside the larger spectrum, at the
      bin of the same signed frequency, and distinct bins go to distinct places. */
  lemma PadSpectrumPlacement(from: u32, to: u32)
    requires from <= to
    ensures forall i: u32 :: i < from ==> PadSpectrum(i, from, to).Ok?
    ensures forall i: u32 :: i < from ==> PadSpectrum(i, from, to).value < to
    ensures forall i: u32 :: i < from ==> SignedBin(PadSpectrum(i, from, to).value, to) == SignedBin(i, from)
    ensures forall i: u32, j: u32 :: i < from && j < from && i != j ==>
      PadSpectrum(i, from, to).value != PadSpectrum(j, from, to).value
  {
  }

  /** The bin of the `from`-point spectrum that lands on slot `j` of the padded one, if any. */
  function UnpadIndex(j: nat, from: nat, to: nat): (r: Option<nat>)
    requires from <= to
  {
    if j < from / 2 then Some(j)
    else if to - from + from / 2 <= j < to then Some(j - (to - from))
    else None
  }

  /** `UnpadIndex` inverts `PadSpectrum`: slot `j` of the padded spectrum is hit exactly
      when `UnpadIndex` names a source bin, and then by that bin. The slots in between,
      `[from/2, to - from + from/2)`, receive no bin. */
  lemma UnpadInvertsPad(from: u32, to: u32, j: u32)
    requires from <= to && j < to
    ensures UnpadIndex(j, from, to).Some? ==>
      var i := UnpadIndex(j, from, to).value;
      i < from && PadSpectrum(i as u32, from, to) == Ok(j)
    ensures UnpadIndex(j, from, to).None? ==>
      forall i: u32 :: i < from ==> PadSpectrum(i, from, to) != Ok(j)
    ensures UnpadIndex(j, from, to).None? <==> from / 2 <= j < to - from + from / 2
  {
  }

  /** The worked example of the source comment: an 8-bin spectrum padded to 16 bins
      places bins 0..3 at 0..3 and bins 4..7 (frequencies -4..-1) at 12..15. */
  lemma PadSpectrumExample()
    ensures forall i: u32 :: i < 4 ==> PadSpectrum(i, 8, 16) == Ok(i)
    ensures forall i: u32 :: 4 <= i < 8 ==> PadSpectrum(i, 8, 16) == Ok(i + 8)
    ensures forall j: u32 :: 4 <= j < 12 ==> UnpadIndex(j, 8, 16).None?
  {
  }
}
