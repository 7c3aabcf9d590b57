/** The Python reference model of the radar chain (docs/ofdmradar/radar.py): the
    carrier exclusion mask, `forward` (inverse FFT of the masked symbols behind a cyclic
    prefix), `backward`, the random frame data, `receive_frame` and `estimate_channel`.
    Arrays are handled a row of the last axis at a time. numpy's FFTs are plans, the
    seeded generator is the stream of values it draws, and the contents `np.empty`
    returns and the Hamming window are parameters. */
module PyRadar {
  import opened ComplexMath
  import opened Results
  import opened Grid
  import opened CyclicPrefix
  import PyConstellation

  // ---------------------------------------------------------------------------------
  // numpy indexing

  /** An integer index into an axis of length `n`: numpy accepts `-n <= e < n`. */
  predicate IndexValid(e: int, n: nat) {
    -(n as int) <= e < n
  }

  /** The position an accepted index selects; a negative one counts from the end. */
  function Position(e: int, n: nat): (r: nat)
    requires IndexValid(e, n)
    ensures r < n
    ensures e >= 0 ==> r == e
  {
    if e < 0 then e + n else e
  }

  predicate AllValid(ix: seq<int>, n: nat) {
    forall k :: 0 <= k < |ix| ==> IndexValid(ix[k], n)
  }

  /** The positions an index array selects. */
  function Positions(ix: seq<int>, n: nat): (r: seq<int>)
    requires AllValid(ix, n)
    ensures |r| == |ix|
  {
    seq(|ix|, k requires 0 <= k < |ix| => Position(ix[k], n))
  }

  // ---------------------------------------------------------------------------------
  // The constructor

  /** `excluded_carriers`: `2 * N_border_margin` consecutive indices from
      `N / 2 - N_border_margin` (`N >> 1` for a non-negative `N`). */
  function ExcludedCarriers(n: nat, margin: nat): (r: seq<int>)
    ensures |r| == 2 * margin
  {
    seq(2 * margin, k requires 0 <= k < 2 * margin => n / 2 - margin + k)
  }

  /** `carrier_mask[excluded_carriers] = 0` on `np.ones(N, dtype=int)`: an IndexError
      when an excluded index lies outside the axis, otherwise 0 at every selected
      position and 1 elsewhere. */
  function Mask(n: nat, margin: nat): (r: Result<seq<int>>)
    ensures r.Err? ==> r.error == IndexError
    ensures r.Ok? ==> |r.value| == n
  {
    var ex := ExcludedCarriers(n, margin);
    if AllValid(ex, n) then Ok(seq(n, i requires 0 <= i < n => if i in Positions(ex, n) then 0 else 1))
    else Err(IndexError)
  }

  /** The mask is built exactly when the band of excluded indices ends inside the
      axis; when the band starts at or after 0 it is 0 on exactly the `2 * margin`
      carriers `N/2 - margin .. N/2 + margin - 1`, and 1 elsewhere. */
  lemma MaskExact(n: nat, margin: nat)
    ensures Mask(n, margin).Ok? <==> margin == 0 || n / 2 + margin <= n
    ensures margin <= n / 2 ==> Mask(n, margin).Ok?
    ensures margin <= n / 2 ==> forall i :: 0 <= i < n ==>
      (Mask(n, margin).value[i] == 0 <==> n / 2 - margin <= i < n / 2 + margin)
    ensures Mask(n, margin).Ok? ==> forall i :: 0 <= i < n ==>
      Mask(n, margin).value[i] == 0 || Mask(n, margin).value[i] == 1
  {
    var ex := ExcludedCarriers(n, margin);
    if margin == 0 || n / 2 + margin <= n {
      assert AllValid(ex, n);
    } else {
      assert !IndexValid(ex[2 * margin - 1], n);
    }
    if margin <= n / 2 {
      var mask := Mask(n, margin).value;
      forall i | 0 <= i < n
        ensures mask[i] == 0 <==> n / 2 - margin <= i < n / 2 + margin
      {
        if n / 2 - margin <= i < n / 2 + margin {
          assert Positions(ex, n)[i - (n / 2 - margin)] == i;
        }
        if i in Positions(ex, n) {
          var k :| 0 <= k < |ex| && Positions(ex, n)[k] == i;
          assert ex[k] >= 0;
        }
      }
    }
  }

  /** With an odd `N` and the band one wider than half of it, the first excluded index
      is -1, which selects the last carrier: every carrier is excluded. */
  lemma MaskWrapsAround(n: nat)
    requires n % 2 == 1
    ensures Mask(n, n / 2 + 1) == Ok(seq(n, _ => 0))
  {
    var margin := n / 2 + 1;
    var ex := ExcludedCarriers(n, margin);
    assert AllValid(ex, n);
    forall i | 0 <= i < n
      ensures Mask(n, margin).value[i] == 0
    {
      assert Positions(ex, n)[i + 1] == i;
    }
    assert Mask(n, margin).value == seq(n, _ => 0);
  }

  /** `np.arange(N)[carrier_mask]` as written: the mask is an `int` array, so it
      indexes rather than selects, and entry `i` is `arange(N)[mask[i]]`, which is
      `mask[i]` itself; an entry that is not a valid index raises IndexError. */
  function ActiveCarriersAsWritten(mask: seq<int>): (r: Result<seq<int>>)
    ensures r.Ok? <==> AllValid(mask, |mask|)
    ensures r.Ok? ==> r.value == Positions(mask, |mask|)
  {
    if AllValid(mask, |mask|) then Ok(Positions(mask, |mask|)) else Err(IndexError)
  }

  /** The carriers the mask keeps, in increasing order: `np.arange(N)[mask != 0]`. */
  function ActiveCarriers(mask: seq<int>): (r: seq<int>)
    decreases |mask|
  {
    if |mask| == 0 then []
    else ActiveCarriers(mask[..|mask| - 1]) + (if mask[|mask| - 1] != 0 then [|mask| - 1] else [])
  }

  /** The active carriers are exactly the positions with a non-zero mask entry, listed
      in increasing order. */
  lemma {:induction false} ActiveCarriersExact(mask: seq<int>)
    ensures forall i :: i in ActiveCarriers(mask) <==> 0 <= i < |mask| && mask[i] != 0
    ensures forall a, b :: 0 <= a < b < |ActiveCarriers(mask)| ==>
      ActiveCarriers(mask)[a] < ActiveCarriers(mask)[b]
    decreases |mask|
  {
    if |mask| > 0 {
      var front := mask[..|mask| - 1];
      ActiveCarriersExact(front);
      forall i | 0 <= i < |front|
        ensures front[i] == mask[i]
      {
      }
      var prior := ActiveCarriers(front);
      forall a | 0 <= a < |prior|
        ensures prior[a] < |front|
      {
        assert prior[a] in prior;
      }
    }
  }

  /** The radar object: sizes, the constellation, the excluded indices, the mask and
      the active carriers. */
  datatype Radar = Radar(
    n: nat,
    guard: nat,
    margin: nat,
    m: nat,
    constellation: PyConstellation.Constellation,
    excluded: seq<int>,
    mask: seq<int>,
    active: seq<int>)

  /** What the constructor establishes: the excluded indices are valid, the mask is 0
      exactly at the positions they select and 1 elsewhere. */
  predicate WellFormed(r: Radar) {
    && PyConstellation.Valid(r.constellation)
    && r.excluded == ExcludedCarriers(r.n, r.margin)
    && AllValid(r.excluded, r.n)
    && |r.mask| == r.n
    && (forall i :: 0 <= i < r.n ==> (r.mask[i] == 0 <==> i in Positions(r.excluded, r.n)))
    && (forall i :: 0 <= i < r.n ==> r.mask[i] == 0 || r.mask[i] == 1)
  }

  /** `OFDMRadar(N, N_guard, N_border_margin, M, const)` as written, with the `int`
      mask indexing `np.arange(N)`. */
  function NewAsWritten(n: nat, guard: nat, margin: nat, m: nat, cst: PyConstellation.Constellation)
    : (r: Result<Radar>)
  {
    var mask :- Mask(n, margin);
    var active :- ActiveCarriersAsWritten(mask);
    Ok(Radar(n, guard, margin, m, cst, ExcludedCarriers(n, margin), mask, active))
  }

  /** The constructor with `active_carriers` the indices of the kept carriers. It
      fails, with IndexError, exactly when the excluded band runs past the end of the
      axis. */
  function New(n: nat, guard: nat, margin: nat, m: nat, cst: PyConstellation.Constellation)
    : (r: Result<Radar>)
    requires PyConstellation.Valid(cst)
    ensures r.Ok? <==> margin == 0 || n / 2 + margin <= n
    ensures r.Err? ==> r.error == IndexError
    ensures r.Ok? ==> WellFormed(r.value)
    ensures r.Ok? ==> r.value.n == n && r.value.guard == guard && r.value.margin == margin
                      && r.value.m == m && r.value.constellation == cst
    ensures r.Ok? ==> forall i :: i in r.value.active <==> 0 <= i < n && r.value.mask[i] == 1
  {
    MaskExact(n, margin);
    var mask :- Mask(n, margin);
    ActiveCarriersExact(mask);
    Ok(Radar(n, guard, margin, m, cst, ExcludedCarriers(n, margin), mask, ActiveCarriers(mask)))
  }

  /** As written, `active_carriers` copies the mask: with `N = 4` and one carrier of
      margin it is `[1, 0, 0, 1]` where the kept carriers are 0 and 3. */
  lemma ActiveCarriersFinding(guard: nat, m: nat, cst: PyConstellation.Constellation)
    requires PyConstellation.Valid(cst)
    ensures Mask(4, 1) == Ok([1, 0, 0, 1])
    ensures NewAsWritten(4, guard, 1, m, cst).Ok? && NewAsWritten(4, guard, 1, m, cst).value.active == [1, 0, 0, 1]
    ensures New(4, guard, 1, m, cst).Ok? && New(4, guard, 1, m, cst).value.active == [0, 3]
  {
    MaskOfFourCarriers();
    ActiveOfFourCarriers();
    assert Positions([1, 0, 0, 1], 4) == [1, 0, 0, 1];
  }

  lemma MaskOfFourCarriers()
    ensures Mask(4, 1) == Ok([1, 0, 0, 1])
  {
    var ex := ExcludedCarriers(4, 1);
    assert ex == [1, 2];
    assert AllValid(ex, 4);
    assert Positions(ex, 4) == [1, 2];
    assert Mask(4, 1).value == [1, 0, 0, 1];
  }

  lemma ActiveOfFourCarriers()
    ensures ActiveCarriers([1, 0, 0, 1]) == [0, 3]
  {
    var mask := [1, 0, 0, 1];
    assert mask[..3] == [1, 0, 0] && mask[..3][..2] == [1, 0] && mask[..3][..2][..1] == [1];
    assert ActiveCarriers([1]) == [0];
    assert ActiveCarriers([1, 0]) == [0];
    assert ActiveCarriers([1, 0, 0]) == [0];
  }

  /** As written, a single carrier without margin cannot be built: its mask entry 1 is
      not an index into `arange(1)`, and the constructor raises IndexError. */
  lemma SingleCarrierFinding(guard: nat, m: nat, cst: PyConstellation.Constellation)
    requires PyConstellation.Valid(cst)
    ensures NewAsWritten(1, guard, 0, m, cst) == Err(IndexError)
    ensures New(1, guard, 0, m, cst).Ok? && New(1, guard, 0, m, cst).value.active == [0]
  {
    assert ExcludedCarriers(1, 0) == [];
    assert Positions([], 1) == [];
    assert Mask(1, 0).value == [1];
    assert !IndexValid([1][0], 1);
    assert [1][..0] == [];
  }

  // ---------------------------------------------------------------------------------
  // forward and backward

  /** `symbols * carrier_mask`: every symbol times its mask entry. */
  function Masked(x: seq<Complex>, mask: seq<int>): (r: seq<Complex>)
    requires |mask| == |x|
    ensures |r| == |x|
  {
    seq(|x|, i requires 0 <= i < |x| => ScaleBy(x[i], mask[i] as real))
  }

  /** A 0/1 mask zeroes the excluded symbols and keeps the others. */
  lemma MaskedAt(x: seq<Complex>, mask: seq<int>, i: nat)
    requires |mask| == |x| && i < |x| && (mask[i] == 0 || mask[i] == 1)
    ensures Masked(x, mask)[i] == if mask[i] == 0 then Zero else x[i]
  {
  }

  /** numpy's `s[-g:]` on a row: the last `g` entries, and the whole row for `g == 0`
      (`-0` is `0`). */
  function TailSlice(s: seq<Complex>, g: nat): (r: seq<Complex>)
    requires g <= |s|
  {
    if g == 0 then s else s[|s| - g..]
  }

  /** numpy's `s[:g] = v` on a row of at least `g` entries: `v` must have `g` entries
      or a single one, which is repeated; any other length is a broadcast error. */
  function AssignHead(s: seq<Complex>, g: nat, v: seq<Complex>): (r: Result<seq<Complex>>)
    requires g <= |s|
    ensures r.Ok? <==> |v| == g || |v| == 1
    ensures r.Err? ==> r.error == BroadcastError
    ensures r.Ok? ==> |r.value| == |s| && r.value[g..] == s[g..]
    ensures r.Ok? && |v| == g ==> r.value[..g] == v
  {
    if |v| == g then Ok(v + s[g..])
    else if |v| == 1 then Ok(seq(g, _ => v[0]) + s[g..])
    else Err(BroadcastError)
  }

  /** `forward` on one row, as written: `s = np.empty(N + N_guard)` (`empty` here),
      `s[N_guard:] = ifft(symbols * mask)`, then `s[:N_guard] = s[-N_guard:]`. numpy
      refuses an inverse FFT of zero points, so nothing is built when `N == 0`. */
  function ForwardAsWritten(r: Radar, x: seq<Complex>, ifft: Plan, empty: seq<Complex>): (s: Result<seq<Complex>>)
    requires WellFormed(r) && PlanOfSize(ifft, r.n) && |empty| == r.n + r.guard
  {
    if |x| != r.n then Err(ShapeMismatch)
    else if r.n == 0 then Err(EmptyFft)
    else
      var body := empty[..r.guard] + Execute(ifft, Masked(x, r.mask));
      AssignHead(body, r.guard, TailSlice(body, r.guard))
  }

  /** As written, a symbol without a guard interval cannot be built once it has two
      carriers: `s[-0:]` is the whole row, which does not broadcast into the empty
      `s[:0]`. */
  lemma ForwardAsWrittenNoGuard(r: Radar, x: seq<Complex>, ifft: Plan, empty: seq<Complex>)
    requires WellFormed(r) && PlanOfSize(ifft, r.n) && |empty| == r.n + r.guard
    requires r.guard == 0 && r.n >= 2 && |x| == r.n
    ensures ForwardAsWritten(r, x, ifft, empty) == Err(BroadcastError)
  {
  }

  /** `forward` with a zero guard giving the bare inverse FFT, as evidently intended,
      and as written otherwise. */
  function Forward(r: Radar, x: seq<Complex>, ifft: Plan, empty: seq<Complex>): (s: Result<seq<Complex>>)
    requires WellFormed(r) && PlanOfSize(ifft, r.n) && |empty| == r.n + r.guard
    ensures s.Ok? <==> |x| == r.n && 0 < r.n
    ensures s.Err? && |x| != r.n ==> s.error == ShapeMismatch
    ensures s.Err? && |x| == r.n ==> s.error == EmptyFft
    ensures s.Ok? ==> |s.value| == r.n + r.guard
  {
    if |x| == r.n && 0 < r.n && r.guard == 0 then Ok(Execute(ifft, Masked(x, r.mask)))
    else ForwardAsWritten(r, x, ifft, empty)
  }

  /** The correction touches exactly the inputs the code as written rejects: the two
      agree on every row unless there is no guard interval and at least two carriers. */
  lemma ForwardDiffersOnlyWithoutGuard(r: Radar, x: seq<Complex>, ifft: Plan, empty: seq<Complex>)
    requires WellFormed(r) && PlanOfSize(ifft, r.n) && |empty| == r.n + r.guard
    ensures ForwardAsWritten(r, x, ifft, empty) != Forward(r, x, ifft, empty)
        <==> r.guard == 0 && r.n >= 2 && |x| == r.n
  {
    if |x| == r.n && r.guard == 0 && 0 < r.n {
      var y := Execute(ifft, Masked(x, r.mask));
      var body := empty[..0] + y;
      assert body == y;
      if r.n == 1 {
        assert seq(0, _ => y[0]) + y[0..] == y;
      } else {
        ForwardAsWrittenNoGuard(r, x, ifft, empty);
      }
    }
  }

  /** The layout of a forward symbol: the last `N` samples are the inverse FFT of the
      masked symbols; with a guard no longer than the symbol the first `N_guard`
      samples repeat the last `N_guard`, so the row is the symbol behind its cyclic
      prefix; a longer guard copies samples of `np.empty` into the prefix. */
  lemma ForwardLayout(r: Radar, x: seq<Complex>, ifft: Plan, empty: seq<Complex>)
    requires WellFormed(r) && PlanOfSize(ifft, r.n) && |empty| == r.n + r.guard && |x| == r.n && 0 < r.n
    ensures Forward(r, x, ifft, empty).value[r.guard..] == Execute(ifft, Masked(x, r.mask))
    ensures r.guard <= r.n ==>
      Forward(r, x, ifft, empty).value == AddPrefix(Execute(ifft, Masked(x, r.mask)), r.guard)
    ensures r.guard <= r.n ==>
      Forward(r, x, ifft, empty).value[..r.guard] == Forward(r, x, ifft, empty).value[r.n..]
    ensures r.guard > r.n ==>
      forall t :: 0 <= t < r.guard - r.n ==> Forward(r, x, ifft, empty).value[t] == empty[r.n + t]
  {
    var y := Execute(ifft, Masked(x, r.mask));
    var s := Forward(r, x, ifft, empty).value;
    if r.guard > 0 {
      var body := empty[..r.guard] + y;
      assert TailSlice(body, r.guard) == body[r.n..];
      assert s[..r.guard] == body[r.n..];
      assert s[r.guard..] == y;
      if r.guard <= r.n {
        assert body[r.n..] == y[r.n - r.guard..];
        assert s == s[..r.guard] + s[r.guard..];
      }
    }
  }

  /** `backward`: the row must hold `N + N_guard` samples; the FFT of all but the first
      `N_guard`, which numpy refuses when that leaves zero points. */
  function Backward(r: Radar, data: seq<Complex>, fft: Plan): (s: Result<seq<Complex>>)
    requires PlanOfSize(fft, r.n)
    ensures s.Ok? <==> |data| == r.n + r.guard && 0 < r.n
    ensures s.Err? && |data| != r.n + r.guard ==> s.error == ShapeMismatch
    ensures s.Err? && |data| == r.n + r.guard ==> s.error == EmptyFft
    ensures s.Ok? ==> |s.value| == r.n
  {
    if |data| != r.n + r.guard then Err(ShapeMismatch)
    else if r.n == 0 then Err(EmptyFft)
    else Ok(Execute(fft, data[r.guard..]))
  }

  /** The forward and inverse plans undo each other on inputs of size `n`. */
  ghost predicate InversePair(fft: Plan, ifft: Plan, n: nat)
    requires PlanOfSize(fft, n) && PlanOfSize(ifft, n)
  {
    forall y: seq<Complex> {:trigger Execute(ifft, y)} :: |y| == n ==> Execute(fft, Execute(ifft, y)) == y
  }

  /** `backward(forward(x)) == fft(ifft(x * mask))`, whatever the guard; when the plans
      are inverse to each other the excluded carriers come back as zero and the others
      unchanged. */
  lemma BackwardForward(r: Radar, x: seq<Complex>, fft: Plan, ifft: Plan, empty: seq<Complex>)
    requires WellFormed(r) && PlanOfSize(fft, r.n) && PlanOfSize(ifft, r.n)
    requires |empty| == r.n + r.guard && |x| == r.n && 0 < r.n
    ensures Backward(r, Forward(r, x, ifft, empty).value, fft)
         == Ok(Execute(fft, Execute(ifft, Masked(x, r.mask))))
    ensures InversePair(fft, ifft, r.n) ==>
      Backward(r, Forward(r, x, ifft, empty).value, fft) == Ok(Masked(x, r.mask))
    ensures forall k :: 0 <= k < r.n ==> Masked(x, r.mask)[k] == if r.mask[k] == 0 then Zero else x[k]
  {
    ForwardLayout(r, x, ifft, empty);
    forall k | 0 <= k < r.n
      ensures Masked(x, r.mask)[k] == if r.mask[k] == 0 then Zero else x[k]
    {
      MaskedAt(x, r.mask, k);
    }
  }

  // ---------------------------------------------------------------------------------
  // Frames

  /** `get_frame_data(seed)`: `np.random.randint(order, size=(M, N))` after seeding,
      where `draw(k)` is the `k`-th value the seeded generator draws; the array is
      filled row by row. */
  function GetFrameData(r: Radar, draw: nat -> int): (d: seq<seq<int>>)
    ensures |d| == r.m
    ensures forall s :: 0 <= s < r.m ==> |d[s]| == r.n
  {
    seq(r.m, s requires 0 <= s < r.m => seq(r.n, k requires 0 <= k < r.n => draw(Index2(r.n, s, k))))
  }

  /** `randint(order)` draws from `[0, order)`. */
  ghost predicate DrawsBelow(draw: nat -> int, order: int) {
    forall k: nat {:trigger draw(k)} :: 0 <= draw(k) < order
  }

  lemma {:induction false} ConcatInAlphabet(rows: seq<seq<int>>, order: int)
    requires forall s :: 0 <= s < |rows| ==> PyConstellation.InAlphabet(rows[s], order)
    ensures PyConstellation.InAlphabet(Concat(rows), order)
    decreases |rows|
  {
    if |rows| > 0 {
      ConcatInAlphabet(rows[..|rows| - 1], order);
    }
  }

  /** The frame data read in row order is the stream of draws, and with a generator
      that draws from `[0, order)` every entry is a valid constellation index. */
  lemma FrameDataLayout(r: Radar, draw: nat -> int)
    ensures |Concat(GetFrameData(r, draw))| == Cells(r.n, r.m)
    ensures forall s: nat, k: nat {:trigger Index2(r.n, s, k)} :: s < r.m && k < r.n ==>
      Index2(r.n, s, k) < |Concat(GetFrameData(r, draw))|
      && Concat(GetFrameData(r, draw))[Index2(r.n, s, k)] == draw(Index2(r.n, s, k))
    ensures DrawsBelow(draw, r.constellation.order) ==>
      PyConstellation.InAlphabet(Concat(GetFrameData(r, draw)), r.constellation.order)
  {
    var d := GetFrameData(r, draw);
    ConcatCells(d, r.n);
    if DrawsBelow(draw, r.constellation.order) {
      ConcatInAlphabet(d, r.constellation.order);
    }
  }

  /** Row `s` of a grid of rows of width `w`. */
  function RowAt<T>(frame: seq<T>, w: nat, s: nat): (r: seq<T>)
    requires Index2(w, s, 0) + w <= |frame|
    ensures |r| == w
    ensures forall y :: 0 <= y < w ==> r[y] == frame[Index2(w, s, 0) + y]
  {
    frame[Index2(w, s, 0)..Index2(w, s, 0) + w]
  }

  /** Rows of `w` laid end to end fill the grid. */
  lemma ConcatLength<T>(rows: seq<seq<T>>, w: nat)
    requires forall x :: 0 <= x < |rows| ==> |rows[x]| == w
    ensures |Concat(rows)| == Cells(w, |rows|)
  {
    ConcatCells(rows, w);
  }

  /** Row `s` of the concatenated rows is row `s`. */
  lemma ConcatRowAt<T>(rows: seq<seq<T>>, w: nat, s: nat)
    requires forall x :: 0 <= x < |rows| ==> |rows[x]| == w
    requires s < |rows|
    ensures Index2(w, s, 0) + w <= |Concat(rows)|
    ensures RowAt(Concat(rows), w, s) == rows[s]
  {
    ConcatCells(rows, w);
    RowInGrid(w, |rows|, s);
    forall y | 0 <= y < w
      ensures Concat(rows)[Index2(w, s, 0) + y] == rows[s][y]
    {
      IndexColumn(w, s, y);
    }
  }

  /** A flat grid cut into `m` rows of `w`, as `reshape(m, w)` does. */
  function Rows<T>(z: seq<T>, w: nat, m: nat): (rows: seq<seq<T>>)
    requires |z| == Cells(w, m)
    ensures |rows| == m
    ensures forall s :: 0 <= s < m ==> |rows[s]| == w
  {
    seq(m, s requires 0 <= s < m => RowInGrid(w, m, s); RowAt(z, w, s))
  }

  /** Entry `k` of row `s` is the flat entry at `Index2(w, s, k)`. */
  lemma RowsAt<T>(z: seq<T>, w: nat, m: nat, s: nat, k: nat)
    requires |z| == Cells(w, m) && s < m && k < w
    ensures Index2(w, s, k) < |z| && Rows(z, w, m)[s][k] == z[Index2(w, s, k)]
  {
    IndexColumn(w, s, k);
    IndexInGrid(w, m, s, k);
  }

  /** `forward` applied to every row of a grid of symbols of a radar with carriers. */
  function ForwardRows(r: Radar, symbols: seq<seq<Complex>>, ifft: Plan, empty: seq<Complex>)
    : (rows: seq<seq<Complex>>)
    requires WellFormed(r) && PlanOfSize(ifft, r.n) && |empty| == r.n + r.guard && 0 < r.n
    requires forall s :: 0 <= s < |symbols| ==> |symbols[s]| == r.n
    ensures |rows| == |symbols|
    ensures forall s :: 0 <= s < |symbols| ==> |rows[s]| == r.n + r.guard
  {
    seq(|symbols|, s requires 0 <= s < |symbols| => Forward(r, symbols[s], ifft, empty).value)
  }

  /** `frame` holds, row after row, the forward symbols of the `M` rows of `symbols`;
      a radar without carriers transmits nothing. */
  ghost predicate Transmits(r: Radar, symbols: seq<seq<Complex>>, frame: seq<Complex>, ifft: Plan,
                            empty: seq<Complex>)
    requires WellFormed(r) && PlanOfSize(ifft, r.n) && |empty| == r.n + r.guard
  {
    && 0 < r.n
    && |symbols| == r.m
    && (forall s :: 0 <= s < r.m ==> |symbols[s]| == r.n)
    && frame == Concat(ForwardRows(r, symbols, ifft, empty))
  }

  /** A transmitted frame holds `M` rows of `N + N_guard` samples, and row `s` is the
      forward symbol of row `s` of the symbols. */
  lemma TransmittedRow(r: Radar, symbols: seq<seq<Complex>>, frame: seq<Complex>, ifft: Plan,
                       empty: seq<Complex>, s: nat)
    requires WellFormed(r) && PlanOfSize(ifft, r.n) && |empty| == r.n + r.guard
    requires Transmits(r, symbols, frame, ifft, empty) && s < r.m
    ensures |frame| == Cells(r.n + r.guard, r.m)
    ensures Index2(r.n + r.guard, s, 0) + r.n + r.guard <= |frame|
    ensures RowAt(frame, r.n + r.guard, s) == Forward(r, symbols[s], ifft, empty).value
  {
    var rows := ForwardRows(r, symbols, ifft, empty);
    ConcatLength(rows, r.n + r.guard);
    ConcatRowAt(rows, r.n + r.guard, s);
  }

  /** The symbols of one random frame and its samples. */
  datatype RandomFrame = RandomFrame(symbols: seq<seq<Complex>>, samples: seq<Complex>)

  /** `generate_random_frame(seed)`: the frame data, modulated, each row passed through
      `forward`, and the rows laid end to end. Modulation rejects out-of-range data;
      `forward` then rejects a radar without carriers. */
  method GenerateRandomFrame(r: Radar, draw: nat -> int, ifft: Plan, empty: seq<Complex>)
      returns (res: Result<RandomFrame>)
    requires WellFormed(r) && PlanOfSize(ifft, r.n) && |empty| == r.n + r.guard
    ensures res.Ok? <==> PyConstellation.InAlphabet(Concat(GetFrameData(r, draw)), r.constellation.order) && 0 < r.n
    ensures res.Err? && !PyConstellation.InAlphabet(Concat(GetFrameData(r, draw)), r.constellation.order)
      ==> res.error == DataOutOfRange
    ensures res.Err? && PyConstellation.InAlphabet(Concat(GetFrameData(r, draw)), r.constellation.order)
      ==> res.error == EmptyFft
    ensures res.Ok? ==> Transmits(r, res.value.symbols, res.value.samples, ifft, empty)
    ensures res.Ok? ==> forall s, k :: 0 <= s < r.m && 0 <= k < r.n ==>
      0 <= draw(Index2(r.n, s, k)) < |r.constellation.symbols|
      && res.value.symbols[s][k] == r.constellation.symbols[draw(Index2(r.n, s, k))]
  {
    var data := GetFrameData(r, draw);
    FrameDataLayout(r, draw);
    var modulated := PyConstellation.ModulateData(r.constellation, Concat(data));
    if modulated.Err? {
      return Err(modulated.error);
    }
    if r.n == 0 {
      return Err(EmptyFft);
    }
    var symbols := Rows(modulated.value, r.n, r.m);
    forall s, k | 0 <= s < r.m && 0 <= k < r.n
      ensures 0 <= draw(Index2(r.n, s, k)) < |r.constellation.symbols|
      ensures symbols[s][k] == r.constellation.symbols[draw(Index2(r.n, s, k))]
    {
      RowsAt(modulated.value, r.n, r.m, s, k);
    }
    res := Ok(RandomFrame(symbols, Concat(ForwardRows(r, symbols, ifft, empty))));
  }

  /** `receive_frame`: the samples reshaped into `M` rows of `N + N_guard` (which fails
      unless there are exactly that many), each passed through `backward`, which fails
      on a radar without carriers. */
  function ReceiveFrame(r: Radar, frame: seq<Complex>, fft: Plan): (f: Result<seq<seq<Complex>>>)
    requires PlanOfSize(fft, r.n)
    ensures f.Ok? <==> |frame| == Cells(r.n + r.guard, r.m) && 0 < r.n
    ensures f.Err? && |frame| != Cells(r.n + r.guard, r.m) ==> f.error == ShapeMismatch
    ensures f.Err? && |frame| == Cells(r.n + r.guard, r.m) ==> f.error == EmptyFft
    ensures f.Ok? ==> |f.value| == r.m && forall s :: 0 <= s < r.m ==> |f.value[s]| == r.n
  {
    if |frame| != Cells(r.n + r.guard, r.m) then Err(ShapeMismatch)
    else if r.n == 0 then Err(EmptyFft)
    else
      Ok(seq(r.m, s requires 0 <= s < r.m =>
        RowInGrid(r.n + r.guard, r.m, s);
        Backward(r, RowAt(frame, r.n + r.guard, s), fft).value))
  }

  /** Receiving a transmitted frame gives `fft(ifft(symbols * mask))` row by row, and
      with inverse plans the masked symbols themselves. */
  lemma ReceiveTransmitted(r: Radar, symbols: seq<seq<Complex>>, frame: seq<Complex>, fft: Plan, ifft: Plan,
                           empty: seq<Complex>)
    requires WellFormed(r) && PlanOfSize(fft, r.n) && PlanOfSize(ifft, r.n) && |empty| == r.n + r.guard
    requires Transmits(r, symbols, frame, ifft, empty)
    ensures ReceiveFrame(r, frame, fft).Ok?
    ensures forall s :: 0 <= s < r.m ==>
      ReceiveFrame(r, frame, fft).value[s] == Execute(fft, Execute(ifft, Masked(symbols[s], r.mask)))
    ensures InversePair(fft, ifft, r.n) ==> forall s :: 0 <= s < r.m ==>
      ReceiveFrame(r, frame, fft).value[s] == Masked(symbols[s], r.mask)
  {
    ConcatLength(ForwardRows(r, symbols, ifft, empty), r.n + r.guard);
    forall s | 0 <= s < r.m
      ensures ReceiveFrame(r, frame, fft).value[s] == Execute(fft, Execute(ifft, Masked(symbols[s], r.mask)))
    {
      ReceivedRow(r, symbols, frame, fft, ifft, empty, s);
    }
  }

  /** One row of `ReceiveTransmitted`. */
  lemma ReceivedRow(r: Radar, symbols: seq<seq<Complex>>, frame: seq<Complex>, fft: Plan, ifft: Plan,
                    empty: seq<Complex>, s: nat)
    requires WellFormed(r) && PlanOfSize(fft, r.n) && PlanOfSize(ifft, r.n) && |empty| == r.n + r.guard
    requires Transmits(r, symbols, frame, ifft, empty) && s < r.m
    ensures ReceiveFrame(r, frame, fft).Ok?
    ensures ReceiveFrame(r, frame, fft).value[s] == Execute(fft, Execute(ifft, Masked(symbols[s], r.mask)))
  {
    TransmittedRow(r, symbols, frame, ifft, empty, s);
    BackwardForward(r, symbols[s], fft, ifft, empty);
  }

  // ---------------------------------------------------------------------------------
  // estimate_channel

  /** numpy's `fftshift` of `n` taps: `np.roll` by `n // 2`, so slot `i` holds tap
      `(i - n // 2) mod n`. */
  function NpFftShift(w: seq<real>): (r: seq<real>)
    ensures |r| == |w|
  {
    seq(|w|, i requires 0 <= i < |w| => w[(i + |w| - |w| / 2) % |w|])
  }

  /** `rows` is an `m x n` array. */
  predicate HasShape(rows: seq<seq<Complex>>, m: nat, n: nat) {
    |rows| == m && forall s :: 0 <= s < m ==> |rows[s]| == n
  }

  /** `F_tx` broadcasts against the `m x n` received array: rows of `n`, and either `m`
      of them or a single row that numpy pairs with every received row. */
  predicate BroadcastsTo(rows: seq<seq<Complex>>, m: nat, n: nat) {
    (|rows| == m || |rows| == 1) && forall s :: 0 <= s < |rows| ==> |rows[s]| == n
  }

  /** The row of a broadcasting array that meets row `s` of the received array. */
  function BroadcastRow(rows: seq<seq<Complex>>, s: nat): nat {
    if |rows| == 1 then 0 else s
  }

  /** A broadcasting array stretched to `m` rows. */
  function Broadcast(rows: seq<seq<Complex>>, m: nat, n: nat): (b: seq<seq<Complex>>)
    requires BroadcastsTo(rows, m, n)
    ensures HasShape(b, m, n)
    ensures forall s :: 0 <= s < m ==> BroadcastRow(rows, s) < |rows| && b[s] == rows[BroadcastRow(rows, s)]
  {
    if |rows| == 1 then seq(m, _ => rows[0]) else rows
  }

  /** The channel estimate and the reference array as `estimate_channel` leaves it. */
  datatype Estimate = Estimate(channel: seq<seq<Complex>>, reference: seq<seq<Complex>>)

  /** `estimate_channel(F_tx, frame)`: receive the frame; set the excluded columns of
      `F_tx` to 1 (in place, so the caller's array changes too); divide; multiply by
      the shifted window; zero the excluded columns. `window` is
      `signal.windows.hamming(N)`. */
  function EstimateChannel(r: Radar, ftx: seq<seq<Complex>>, frame: seq<Complex>, fft: Plan, window: seq<real>)
    : (e: Result<Estimate>)
    requires WellFormed(r) && PlanOfSize(fft, r.n) && |window| == r.n
    ensures e.Ok? <==> |frame| == Cells(r.n + r.guard, r.m) && 0 < r.n && BroadcastsTo(ftx, r.m, r.n)
    ensures e.Err? && |frame| != Cells(r.n + r.guard, r.m) ==> e.error == ShapeMismatch
    ensures e.Err? && |frame| == Cells(r.n + r.guard, r.m) && r.n == 0 ==> e.error == EmptyFft
    ensures e.Err? && |frame| == Cells(r.n + r.guard, r.m) && 0 < r.n ==> e.error == BroadcastError
    ensures e.Ok? ==> HasShape(e.value.channel, r.m, r.n) && HasShape(e.value.reference, |ftx|, r.n)
    ensures e.Ok? ==> forall s, k :: 0 <= s < |ftx| && 0 <= k < r.n ==>
      e.value.reference[s][k] == if r.mask[k] == 0 then One else ftx[s][k]
    ensures e.Ok? ==> forall s, k :: 0 <= s < r.m && 0 <= k < r.n && r.mask[k] == 0 ==>
      e.value.channel[s][k] == Zero
    ensures e.Ok? ==> forall s, k :: 0 <= s < r.m && 0 <= k < r.n && r.mask[k] != 0 ==>
      BroadcastRow(ftx, s) < |ftx|
      && e.value.channel[s][k]
         == ScaleBy(Div(ReceiveFrame(r, frame, fft).value[s][k], ftx[BroadcastRow(ftx, s)][k]), NpFftShift(window)[k])
  {
    var frx :- ReceiveFrame(r, frame, fft);
    if !BroadcastsTo(ftx, r.m, r.n) then Err(BroadcastError)
    else
      var excluded := Positions(r.excluded, r.n);
      var reference := SetColumns(ftx, excluded, One, r.n);
      var ratio := TaperedRatio(frx, Broadcast(reference, r.m, r.n), NpFftShift(window), r.n);
      Ok(Estimate(SetColumns(ratio, excluded, Zero, r.n), reference))
  }

  /** A single reference row is used for every received symbol: estimating with it
      gives the same channel as estimating with that row repeated `M` times. */
  lemma OneRowBroadcasts(r: Radar, row: seq<Complex>, frame: seq<Complex>, fft: Plan, window: seq<real>)
    requires WellFormed(r) && PlanOfSize(fft, r.n) && |window| == r.n
    requires |row| == r.n && |frame| == Cells(r.n + r.guard, r.m)
    ensures EstimateChannel(r, [row], frame, fft, window).Ok? <==> 0 < r.n
    ensures EstimateChannel(r, seq(r.m, _ => row), frame, fft, window).Ok? <==> 0 < r.n
    ensures 0 < r.n ==>
      EstimateChannel(r, [row], frame, fft, window).value.channel
      == EstimateChannel(r, seq(r.m, _ => row), frame, fft, window).value.channel
  {
    if r.n == 0 {
      return;
    }
    var one := EstimateChannel(r, [row], frame, fft, window).value.channel;
    var many := EstimateChannel(r, seq(r.m, _ => row), frame, fft, window).value.channel;
    forall s | 0 <= s < r.m
      ensures one[s] == many[s]
    {
      assert |one[s]| == |many[s]| == r.n;
      forall k | 0 <= k < r.n
        ensures one[s][k] == many[s][k]
      {
      }
    }
  }

  /** numpy's `a[:, cols] = v` on rows of `n`. */
  function SetColumns(a: seq<seq<Complex>>, cols: seq<int>, v: Complex, n: nat): (b: seq<seq<Complex>>)
    requires forall s :: 0 <= s < |a| ==> |a[s]| == n
    ensures HasShape(b, |a|, n)
    ensures forall s, k :: 0 <= s < |a| && 0 <= k < n ==> b[s][k] == if k in cols then v else a[s][k]
  {
    seq(|a|, s requires 0 <= s < |a| => seq(n, k requires 0 <= k < n => if k in cols then v else a[s][k]))
  }

  /** `num / den * taper`, element by element, with the taper along the carriers. */
  function TaperedRatio(num: seq<seq<Complex>>, den: seq<seq<Complex>>, taper: seq<real>, n: nat)
    : (q: seq<seq<Complex>>)
    requires |den| == |num| && |taper| == n
    requires forall s :: 0 <= s < |num| ==> |num[s]| == n && |den[s]| == n
    ensures HasShape(q, |num|, n)
    ensures forall s, k :: 0 <= s < |num| && 0 <= k < n ==> q[s][k] == ScaleBy(Div(num[s][k], den[s][k]), taper[k])
  {
    seq(|num|, s requires 0 <= s < |num| =>
      seq(n, k requires 0 <= k < n => ScaleBy(Div(num[s][k], den[s][k]), taper[k])))
  }

  /** A value divided by itself is 1. */
  lemma DivSelf(x: Complex)
    requires x != Zero
    ensures Div(x, x) == One
  {
    NormSqPositive(x);
    var q := NormSq(x);
    assert Mul(x, Conj(x)) == Complex(q, 0.0);
    assert 1.0 / q * q == 1.0;
  }

  /** Estimating the channel from an undistorted transmission of `F_tx` (plans inverse
      to each other, no non-zero symbol on a kept carrier replaced) gives the shifted
      window on every kept carrier and zero on the excluded ones. */
  lemma EstimateOfCleanFrame(r: Radar, ftx: seq<seq<Complex>>, frame: seq<Complex>, fft: Plan, ifft: Plan,
                             empty: seq<Complex>, window: seq<real>)
    requires WellFormed(r) && PlanOfSize(fft, r.n) && PlanOfSize(ifft, r.n) && |empty| == r.n + r.guard
    requires |window| == r.n
    requires Transmits(r, ftx, frame, ifft, empty) && InversePair(fft, ifft, r.n)
    requires forall s, k :: 0 <= s < r.m && 0 <= k < r.n && r.mask[k] != 0 ==> ftx[s][k] != Zero
    ensures EstimateChannel(r, ftx, frame, fft, window).Ok?
    ensures forall s, k :: 0 <= s < r.m && 0 <= k < r.n ==>
      EstimateChannel(r, ftx, frame, fft, window).value.channel[s][k]
      == if r.mask[k] == 0 then Zero else Complex(NpFftShift(window)[k], 0.0)
  {
    ReceiveTransmitted(r, ftx, frame, fft, ifft, empty);
    var e := EstimateChannel(r, ftx, frame, fft, window).value;
    forall s, k | 0 <= s < r.m && 0 <= k < r.n
      ensures e.channel[s][k] == if r.mask[k] == 0 then Zero else Complex(NpFftShift(window)[k], 0.0)
    {
      if r.mask[k] != 0 {
        MaskedAt(ftx[s], r.mask, k);
        DivSelf(ftx[s][k]);
      }
    }
  }
}
