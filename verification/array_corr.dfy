/** The sample covariance block `array_corr` (lib/array_corr_impl.cc): every
    `samples` input vectors of `array_size` antenna samples become one
    `array_size x array_size` matrix R = X * X^H / samples. */
module ArrayCorr {
  import opened ComplexMath
  import opened Grid

  /** The block's two constructor arguments. Eigen refuses negative matrix
      dimensions, so both are natural numbers here. */
  datatype CorrConfig = CorrConfig(arraySize: nat, samples: nat)

  // ---------------------------------------------------------------------------------
  // Scheduling: forecast and the number of matrices per call

  /** `forecast`: the input vectors wanted for `noutputItems` matrices. */
  function Forecast(c: CorrConfig, noutputItems: nat): nat {
    Cells(c.samples, noutputItems)
  }

  /** The number of matrices a call produces: as many whole blocks of `samples`
      vectors as the input holds, at most `noutputItems`. With `samples == 0` every
      block is empty and the call fills the whole output. */
  function Produced(c: CorrConfig, ninput: nat, noutputItems: nat): nat {
    if c.samples == 0 then noutputItems
    else if noutputItems <= ninput / c.samples then noutputItems
    else ninput / c.samples
  }

  /** `k` whole blocks fit in the input exactly when `k` is at most the number of
      blocks the input holds. */
  lemma BlocksFit(samples: nat, ninput: nat, k: nat)
    requires samples > 0
    ensures Cells(samples, k) <= ninput <==> k <= ninput / samples
  {
    CellsIsProduct(samples, k);
    var q := ninput / samples;
    assert ninput == q * samples + ninput % samples;
    if k <= q {
      MulMonotone(q, k, samples);
    } else {
      MulMonotone(k, q + 1, samples);
    }
  }

  /** The forecast is exact: a call produces every requested matrix if and only if
      it is given at least the forecast number of input vectors. */
  lemma ForecastExact(c: CorrConfig, ninput: nat, noutputItems: nat)
    ensures Produced(c, ninput, noutputItems) == noutputItems <==> ninput >= Forecast(c, noutputItems)
    ensures Produced(c, ninput, noutputItems) <= noutputItems
  {
    if c.samples == 0 {
      IndexZeroWidth(noutputItems, 0);
    } else {
      BlocksFit(c.samples, ninput, noutputItems);
    }
  }

  // ---------------------------------------------------------------------------------
  // The snapshot matrices

  /** The input buffer: `ninput` vectors of `arraySize` samples one after the other. */
  predicate InputShape(c: CorrConfig, ninput: nat, input: seq<Complex>) {
    |input| == Cells(c.arraySize, ninput)
  }

  /** Row `i` of snapshot matrix `k`: the samples of antenna `i` in the `k`-th block of
      `samples` input vectors. */
  function Channel(c: CorrConfig, ninput: nat, input: seq<Complex>, k: nat, i: nat): (r: seq<Complex>)
    requires InputShape(c, ninput, input) && i < c.arraySize && Cells(c.samples, k + 1) <= ninput
    ensures |r| == c.samples
  {
    IndexStep(c.samples, k);
    Column(input, c.arraySize, ninput, i, Cells(c.samples, k + 1))[Cells(c.samples, k)..]
  }

  /** The offset of sample `s` of antenna `i` in block `k`: the input address advanced
      by `k * samples * array_size`, then Eigen's column-major `Map` offset. */
  function SampleOffset(c: CorrConfig, k: nat, s: nat, i: nat): nat {
    (k * c.samples + s) * c.arraySize + i
  }

  /** Matrix `k` reads input block `k` only, in Eigen's column-major `Map` layout:
      `X[i][s]` is input sample `(k * samples + s) * array_size + i`. */
  lemma ChannelAt(c: CorrConfig, ninput: nat, input: seq<Complex>, k: nat, i: nat, s: nat)
    requires InputShape(c, ninput, input) && i < c.arraySize && Cells(c.samples, k + 1) <= ninput
    requires s < c.samples
    ensures SampleOffset(c, k, s, i) < |input|
    ensures Channel(c, ninput, input, k, i)[s] == input[SampleOffset(c, k, s, i)]
  {
    var a, n := c.arraySize, c.samples;
    IndexStep(n, k);
    IndexColumn(n, k, s);
    ColumnAt(input, a, ninput, i, Cells(n, k + 1), Cells(n, k) + s);
    IndexIsProduct(n, k, s);
    IndexIsProduct(a, k * n + s, i);
  }

  /** Entry `(i, j)` of R = X * X^H / samples: the Hermitian inner product of antenna
      rows `i` and `j`, divided by the number of samples. */
  function Entry(c: CorrConfig, ninput: nat, input: seq<Complex>, k: nat, i: nat, j: nat): Complex
    requires InputShape(c, ninput, input) && i < c.arraySize && j < c.arraySize
    requires Cells(c.samples, k + 1) <= ninput
  {
    DivReal(Dot(Channel(c, ninput, input, k, i), Channel(c, ninput, input, k, j)), c.samples as real)
  }

  /** Column `j` of matrix `k`. */
  function CovarianceColumn(c: CorrConfig, ninput: nat, input: seq<Complex>, k: nat, j: nat): (r: seq<Complex>)
    requires InputShape(c, ninput, input) && j < c.arraySize && Cells(c.samples, k + 1) <= ninput
    ensures |r| == c.arraySize
  {
    seq(c.arraySize, i requires 0 <= i < c.arraySize => Entry(c, ninput, input, k, i, j))
  }

  /** Matrix `k` as the block writes it: `array_size * array_size` entries, column by
      column. */
  function Covariance(c: CorrConfig, ninput: nat, input: seq<Complex>, k: nat): seq<Complex>
    requires InputShape(c, ninput, input) && Cells(c.samples, k + 1) <= ninput
  {
    Concat(seq(c.arraySize, j requires 0 <= j < c.arraySize => CovarianceColumn(c, ninput, input, k, j)))
  }

  /** Entry `(i, j)` of matrix `k` sits at `j * array_size + i` of its block. */
  lemma CovarianceCell(c: CorrConfig, ninput: nat, input: seq<Complex>, k: nat, i: nat, j: nat)
    requires InputShape(c, ninput, input) && Cells(c.samples, k + 1) <= ninput
    requires i < c.arraySize && j < c.arraySize
    ensures |Covariance(c, ninput, input, k)| == Cells(c.arraySize, c.arraySize)
    ensures Index2(c.arraySize, j, i) < Cells(c.arraySize, c.arraySize)
    ensures Covariance(c, ninput, input, k)[Index2(c.arraySize, j, i)] == Entry(c, ninput, input, k, i, j)
  {
    var cols := seq(c.arraySize, j requires 0 <= j < c.arraySize => CovarianceColumn(c, ninput, input, k, j));
    ConcatCells(cols, c.arraySize);
    assert cols[j][i] == Entry(c, ninput, input, k, i, j);
  }

  /** The matrices of the first `n` blocks, in order. */
  function Covariances(c: CorrConfig, ninput: nat, input: seq<Complex>, n: nat): (r: seq<seq<Complex>>)
    requires InputShape(c, ninput, input) && Cells(c.samples, n) <= ninput
    ensures |r| == n
    decreases n
  {
    if n == 0 then []
    else
      IndexStep(c.samples, n - 1);
      Covariances(c, ninput, input, n - 1) + [Covariance(c, ninput, input, n - 1)]
  }

  /** Matrix `k` of the output: `Covariances` lists the matrix of block `k` at `k`. */
  lemma {:induction false} CovariancesAt(c: CorrConfig, ninput: nat, input: seq<Complex>, n: nat, k: nat)
    requires InputShape(c, ninput, input) && Cells(c.samples, n) <= ninput && k < n
    ensures Cells(c.samples, k + 1) <= ninput
    ensures Covariances(c, ninput, input, n)[k] == Covariance(c, ninput, input, k)
    decreases n
  {
    IndexStep(c.samples, n - 1);
    if k < n - 1 {
      CovariancesAt(c, ninput, input, n - 1, k);
    }
  }

  // ---------------------------------------------------------------------------------
  // Properties of R

  lemma DivRealConj(z: Complex, d: real)
    ensures DivReal(Conj(z), d) == Conj(DivReal(z, d))
  {
  }

  /** R is Hermitian: entry `(i, j)` is the conjugate of entry `(j, i)`. */
  lemma EntryHermitian(c: CorrConfig, ninput: nat, input: seq<Complex>, k: nat, i: nat, j: nat)
    requires InputShape(c, ninput, input) && i < c.arraySize && j < c.arraySize
    requires Cells(c.samples, k + 1) <= ninput
    ensures Entry(c, ninput, input, k, i, j) == Conj(Entry(c, ninput, input, k, j, i))
  {
    var x, y := Channel(c, ninput, input, k, i), Channel(c, ninput, input, k, j);
    DotConjSymmetric(x, y);
    DivRealConj(Dot(y, x), c.samples as real);
  }

  /** The diagonal of R is real and non-negative: the mean power of each antenna. */
  lemma EntryDiagonal(c: CorrConfig, ninput: nat, input: seq<Complex>, k: nat, i: nat)
    requires InputShape(c, ninput, input) && i < c.arraySize
    requires Cells(c.samples, k + 1) <= ninput
    ensures Entry(c, ninput, input, k, i, i).im == 0.0
    ensures Entry(c, ninput, input, k, i, i).re >= 0.0
  {
    var x := Channel(c, ninput, input, k, i);
    DotSelfRealNonNegative(x);
    var d := Dot(x, x);
    if c.samples > 0 {
      var f := 1.0 / (c.samples as real);
      assert f > 0.0;
      assert f * d.re >= 0.0;
    }
  }

  // ---------------------------------------------------------------------------------
  // general_work

  /** The output index of entry `(i, j)` of matrix `k`. */
  function OutIndex(c: CorrConfig, k: nat, i: nat, j: nat): nat {
    Index2(Cells(c.arraySize, c.arraySize), k, Index2(c.arraySize, j, i))
  }

  /** Where the entries of the produced matrices sit in the output buffer. */
  lemma OutputCell(c: CorrConfig, ninput: nat, input: seq<Complex>, n: nat, k: nat, i: nat, j: nat)
    requires InputShape(c, ninput, input) && Cells(c.samples, n) <= ninput
    requires k < n && i < c.arraySize && j < c.arraySize
    ensures Cells(c.samples, k + 1) <= ninput
    ensures |Concat(Covariances(c, ninput, input, n))| == Cells(Cells(c.arraySize, c.arraySize), n)
    ensures OutIndex(c, k, i, j) < |Concat(Covariances(c, ninput, input, n))|
    ensures Concat(Covariances(c, ninput, input, n))[OutIndex(c, k, i, j)] == Entry(c, ninput, input, k, i, j)
  {
    var w := Cells(c.arraySize, c.arraySize);
    var blocks := Covariances(c, ninput, input, n);
    forall x | 0 <= x < n
      ensures |blocks[x]| == w
    {
      CovariancesAt(c, ninput, input, n, x);
      CovarianceCell(c, ninput, input, x, 0, 0);
    }
    ConcatCells(blocks, w);
    CovariancesAt(c, ninput, input, n, k);
    CovarianceCell(c, ninput, input, k, i, j);
  }

  /** The matrices in the output are Hermitian. */
  lemma OutputHermitian(c: CorrConfig, ninput: nat, input: seq<Complex>, n: nat, k: nat, i: nat, j: nat)
    requires InputShape(c, ninput, input) && Cells(c.samples, n) <= ninput
    requires k < n && i < c.arraySize && j < c.arraySize
    ensures OutIndex(c, k, i, j) < |Concat(Covariances(c, ninput, input, n))|
    ensures OutIndex(c, k, j, i) < |Concat(Covariances(c, ninput, input, n))|
    ensures Concat(Covariances(c, ninput, input, n))[OutIndex(c, k, i, j)]
         == Conj(Concat(Covariances(c, ninput, input, n))[OutIndex(c, k, j, i)])
  {
    OutputCell(c, ninput, input, n, k, i, j);
    OutputCell(c, ninput, input, n, k, j, i);
    EntryHermitian(c, ninput, input, k, i, j);
  }

  /** The number of whole blocks left after the loop: it stopped for lack of input or
      because the output is full. */
  lemma ProducedAfterLoop(c: CorrConfig, ninput: nat, noutputItems: nat, ret: nat)
    requires ret <= noutputItems && Cells(c.samples, ret) <= ninput
    requires ret == noutputItems || Cells(c.samples, ret + 1) > ninput
    ensures ret == Produced(c, ninput, noutputItems)
  {
    if c.samples > 0 {
      BlocksFit(c.samples, ninput, ret);
      BlocksFit(c.samples, ninput, ret + 1);
    } else {
      IndexZeroWidth(ret + 1, 0);
    }
  }

  /** One call: nothing when less than one block is waiting; otherwise one matrix per
      whole input block, up to `noutputItems`, consuming exactly the blocks used. */
  method GeneralWork(c: CorrConfig, ninput: nat, input: seq<Complex>, noutputItems: nat)
    returns (ret: nat, consumed: nat, out: seq<Complex>)
    requires InputShape(c, ninput, input)
    ensures ret == Produced(c, ninput, noutputItems)
    ensures ninput < c.samples ==> ret == 0
    ensures consumed == Cells(c.samples, ret) <= ninput
    ensures out == Concat(Covariances(c, ninput, input, ret))
  {
    if ninput < c.samples {
      return 0, 0, [];
    }
    ret, out := 0, [];
    while Cells(c.samples, ret + 1) <= ninput && ret < noutputItems
      invariant ret <= noutputItems && Cells(c.samples, ret) <= ninput
      invariant out == Concat(Covariances(c, ninput, input, ret))
      decreases noutputItems - ret
    {
      var block := Covariance(c, ninput, input, ret);
      ConcatAppend(Covariances(c, ninput, input, ret), block);
      out := out + block;
      ret := ret + 1;
    }
    ProducedAfterLoop(c, ninput, noutputItems, ret);
    consumed := Cells(c.samples, ret);
  }
}
