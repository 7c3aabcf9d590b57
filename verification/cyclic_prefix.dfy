/** The cyclic prefix of an OFDM symbol: the last `g` samples of the time-domain symbol
    copied in front of it (`generate_symbol` in lib/ofdmradar_tx_impl.cc, `forward` in
    docs/ofdmradar/radar.py), and its removal on the receive side. */
module CyclicPrefix {
  import opened ComplexMath

  /** The symbol `x` preceded by a copy of its last `g` samples. */
  function AddPrefix(x: seq<Complex>, g: nat): (r: seq<Complex>)
    requires g <= |x|
    ensures |r| == |x| + g
  {
    x[|x| - g..] + x
  }

  /** The symbol follows its prefix unchanged, and prefix sample `k` is symbol sample
      `|x| - g + k`. */
  lemma AddPrefixSamples(x: seq<Complex>, g: nat)
    requires g <= |x|
    ensures forall i :: 0 <= i < |x| ==> AddPrefix(x, g)[g + i] == x[i]
    ensures forall k :: 0 <= k < g ==> AddPrefix(x, g)[k] == x[|x| - g + k]
  {
  }

  /** Drop the first `g` samples. */
  function StripPrefix(s: seq<Complex>, g: nat): seq<Complex>
    requires g <= |s|
  {
    s[g..]
  }

  /** Removing the prefix recovers the symbol. */
  lemma StripAddRoundTrip(x: seq<Complex>, g: nat)
    requires g <= |x|
    ensures StripPrefix(AddPrefix(x, g), g) == x
  {
    var s := AddPrefix(x, g);
    AddPrefixSamples(x, g);
    assert forall i :: 0 <= i < |x| ==> s[g..][i] == s[g + i];
  }

  /** Cyclic rotation of `x` by `d` places to the right: entry `i` is `x[i - d]`, where
      an index below zero wraps around to the end. */
  function Rotate(x: seq<Complex>, d: nat): (r: seq<Complex>)
    requires d <= |x|
    ensures |r| == |x|
  {
    seq(|x|, i requires 0 <= i < |x| => if i >= d then x[i - d] else x[i + |x| - d])
  }

  /** The receiver's FFT window: `n` samples starting `g / 2` into a received symbol. */
  function CenteredWindow(s: seq<Complex>, g: nat, n: nat): seq<Complex>
    requires g / 2 + n <= |s|
  {
    s[g / 2..g / 2 + n]
  }

  /** A window starting half-way into the prefix sees the symbol rotated by the
      `g - g / 2` prefix samples it still contains: the prefix turns the shifted window
      into a cyclic shift of the transmitted symbol. */
  lemma CenteredWindowRotates(x: seq<Complex>, g: nat)
    requires g <= |x|
    ensures CenteredWindow(AddPrefix(x, g), g, |x|) == Rotate(x, g - g / 2)
  {
    var s, n, d := AddPrefix(x, g), |x|, g - g / 2;
    var w := CenteredWindow(s, g, n);
    AddPrefixSamples(x, g);
    forall i | 0 <= i < n
      ensures w[i] == Rotate(x, d)[i]
    {
      assert w[i] == s[g / 2 + i];
      if i < d {
        assert s[g / 2 + i] == x[n - g + g / 2 + i];
      } else {
        assert s[g + (i - d)] == x[i - d];
      }
    }
  }
}
