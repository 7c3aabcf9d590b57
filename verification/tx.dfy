/** The transmitter block `ofdmradar_tx` (lib/ofdmradar_tx_impl.cc): it builds one frame
    in its constructor and then streams that frame forever, one `work` call at a time. */
module Tx {
  import opened ComplexMath
  import opened Results
  import opened Words
  import opened Grid
  import opened Params
  import opened Shared
  import opened CyclicPrefix

  /** What the constructor needs: a symbol source in range, a prefix no longer than the
      symbol, and a frame whose 32-bit length does not wrap. */
  ghost predicate TxSetup(p: ParamSet, rng: (nat, nat) -> nat, ifft: Plan) {
    UsableConstellation(p) && DrawsInRange(rng, |p.constellation|) && PlanOfSize(ifft, p.carriers)
    && p.cyclicPrefixLength <= p.carriers && FrameFits(p)
  }

  /** The time-domain samples of symbol `j` of the frame: the inverse FFT of its
      frequency-domain symbols, with the cyclic prefix in front. */
  function SymbolSamples(p: ParamSet, rng: (nat, nat) -> nat, ifft: Plan, j: nat): (r: seq<Complex>)
    requires TxSetup(p, rng, ifft)
    ensures |r| == p.carriers + p.cyclicPrefixLength
  {
    AddPrefix(Execute(ifft, FrameSymbolData(p, rng, j)), p.cyclicPrefixLength)
  }

  /** `generate_symbol`: draws the symbol's carriers, runs the inverse FFT on them and
      lays out prefix and body (the prefix is a copy of the last `cyclic_prefix_length`
      samples, see `AddPrefix`). Symbol `j` of the frame starts after `j` symbols' worth
      of draws and leaves the generator `j + 1` symbols' worth further on. */
  method GenerateSymbol(p: ParamSet, rng: (nat, nat) -> nat, ifft: Plan, j: nat)
      returns (sym: seq<Complex>, drawnAfter: nat)
    requires TxSetup(p, rng, ifft)
    ensures |sym| == SymbolLength(p) == p.carriers + p.cyclicPrefixLength
    ensures sym[p.cyclicPrefixLength..] == Execute(ifft, FrameSymbolData(p, rng, j))
    ensures sym[..p.cyclicPrefixLength] ==
      Execute(ifft, FrameSymbolData(p, rng, j))[p.carriers - p.cyclicPrefixLength..]
    ensures sym == SymbolSamples(p, rng, ifft, j)
    ensures drawnAfter == Cells(ActiveCarriers(p), j + 1)
  {
    var a := ActiveCarriers(p);
    var symbols, drawn := GenerateTxSymbols(p, rng, Cells(a, j));
    assert symbols == FrameSymbolData(p, rng, j) by {
      assert forall i :: 0 <= i < |symbols| ==> symbols[i] == FrameSymbolData(p, rng, j)[i];
    }
    sym := AddPrefix(Execute(ifft, symbols), p.cyclicPrefixLength);
    drawnAfter := drawn;
  }

  /** `generate_frame`: the frame is `symbols` consecutive symbols, symbol `j` at offset
      `j * symbol_length`, all drawn from one generator that is never reseeded. */
  method GenerateFrame(p: ParamSet, rng: (nat, nat) -> nat, ifft: Plan)
      returns (frame: seq<Complex>)
    requires TxSetup(p, rng, ifft)
    ensures |frame| == FrameLength(p)
    ensures forall j: nat, k: nat {:trigger Index2(SymbolLength(p), j, k)} ::
      j < p.symbols && k < SymbolLength(p) ==>
      Index2(SymbolLength(p), j, k) < |frame| && frame[Index2(SymbolLength(p), j, k)] == SymbolSamples(p, rng, ifft, j)[k]
  {
    var l := SymbolLength(p);
    frame := [];
    ghost var syms: seq<seq<Complex>> := [];
    var j := 0;
    while j < p.symbols
      invariant 0 <= j <= p.symbols
      invariant |syms| == j
      invariant frame == Concat(syms)
      invariant forall j' :: 0 <= j' < j ==> syms[j'] == SymbolSamples(p, rng, ifft, j')
      invariant forall j' :: 0 <= j' < j ==> |syms[j']| == l
    {
      var sym, _ := GenerateSymbol(p, rng, ifft, j);
      ConcatAppend(syms, sym);
      frame := frame + sym;
      syms := syms + [sym];
      assert syms[j] == sym;
      j := j + 1;
    }
    ConcatCells(syms, l);
  }

  /** A stream tag: the absolute item offset it marks, its key and its integer value. */
  datatype LengthTag = LengthTag(offset: nat, key: string, value: int)

  /** The result of one `work` call: the items written, the samples, the length tag on
      the first of them if the call starts a frame, and the running index for the next
      call. */
  datatype TxOutput = TxOutput(items: nat, samples: seq<Complex>, tag: Option<LengthTag>, runningIdx: nat)

  /** The running index lies inside the frame, or is 0 for an empty frame. */
  predicate ValidRunningIdx(frame: seq<Complex>, idx: nat) {
    idx < |frame| || idx == 0
  }

  /** `work`: raises on a negative request; otherwise writes
      `min(noutput_items, frame_size - running_idx)` samples of the frame from the
      running index on, tags the call that starts a frame with the frame size under
      `len_tag_key` at the stream position `nitems_written(0)`, and wraps the index back
      to 0 when it reaches the frame size. The frame size is converted to `int`, so it
      must stay within `INT_MAX`. */
  function Work(frame: seq<Complex>, runningIdx: nat, noutputItems: int, nitemsWritten: nat, lenTagKey: string)
    : (r: Result<TxOutput>)
    requires |frame| <= INT_MAX
    requires ValidRunningIdx(frame, runningIdx)
    ensures r.Err? <==> noutputItems < 0
    ensures r.Err? ==> r.error == NegativeOutputItems
    ensures r.Ok? ==> r.value.items <= noutputItems && runningIdx + r.value.items <= |frame|
    ensures r.Ok? ==> r.value.items == noutputItems || runningIdx + r.value.items == |frame|
    ensures r.Ok? ==> r.value.samples == frame[runningIdx..runningIdx + r.value.items]
    ensures r.Ok? ==> (r.value.tag.Some? <==> runningIdx == 0)
    ensures r.Ok? && r.value.tag.Some? ==> r.value.tag.value == LengthTag(nitemsWritten, lenTagKey, |frame|)
    ensures r.Ok? ==> ValidRunningIdx(frame, r.value.runningIdx)
    ensures r.Ok? && |frame| > 0 ==> r.value.runningIdx == (runningIdx + r.value.items) % |frame|
  {
    if noutputItems < 0 then Err(NegativeOutputItems)
    else
      var items := if noutputItems < |frame| - runningIdx then noutputItems else |frame| - runningIdx;
      var tag := if runningIdx == 0 then Some(LengthTag(nitemsWritten, lenTagKey, |frame|)) else None;
      var next := if runningIdx + items == |frame| then 0 else runningIdx + items;
      if |frame| > 0 then
        ModWithinOnePeriod(runningIdx + items, |frame|);
        Ok(TxOutput(items, frame[runningIdx..runningIdx + items], tag, next))
      else
        Ok(TxOutput(items, frame[runningIdx..runningIdx + items], tag, next))
  }

  /** The concatenated output of successive `work` calls with the given requests, the
      running index after them, and the tags they attached; `written` is the stream
      position (`nitems_written(0)`) before the first call. */
  function Run(frame: seq<Complex>, runningIdx: nat, written: nat, key: string, requests: seq<nat>)
    : (r: (seq<Complex>, nat, seq<LengthTag>))
    requires |frame| <= INT_MAX
    requires ValidRunningIdx(frame, runningIdx)
    ensures ValidRunningIdx(frame, r.1)
    decreases |requests|
  {
    if |requests| == 0 then ([], runningIdx, [])
    else
      var out := Work(frame, runningIdx, requests[0], written, key).value;
      var rest := Run(frame, out.runningIdx, written + out.items, key, requests[1..]);
      var tags := if out.tag.Some? then [out.tag.value] else [];
      (out.samples + rest.0, rest.1, tags + rest.2)
  }

  /** A stretch of the frame read from `r` on, followed by a stretch read cyclically
      from where the first one ended, is one stretch read cyclically from `r`, and the
      position after both is where the second one left off. */
  lemma RotationAppend(frame: seq<Complex>, r: nat, a: seq<Complex>, b: seq<Complex>, next: nat, last: nat)
    requires 0 < |frame| && r + |a| <= |frame|
    requires a == frame[r..r + |a|]
    requires next == (r + |a|) % |frame| && last == (next + |b|) % |frame|
    requires forall u :: 0 <= u < |b| ==> b[u] == frame[(next + u) % |frame|]
    ensures last == (r + |a + b|) % |frame|
    ensures forall t :: 0 <= t < |a + b| ==> (a + b)[t] == frame[(r + t) % |frame|]
  {
    var m := |frame|;
    ModAddShift(r + |a|, |b|, m);
    forall t | 0 <= t < |a + b|
      ensures (a + b)[t] == frame[(r + t) % m]
    {
      if t < |a| {
        ModUnique(r + t, m, 0, r + t);
      } else {
        var u := t - |a|;
        assert (a + b)[t] == b[u];
        ModAddShift(r + |a|, u, m);
      }
    }
  }

  /** `out` reads the frame cyclically from position `r` on. */
  predicate ReadsCyclically(frame: seq<Complex>, r: nat, out: seq<Complex>)
    requires 0 < |frame|
  {
    forall t :: 0 <= t < |out| ==> out[t] == frame[(r + t) % |frame|]
  }

  /** The stream is the frame repeated: sample `t` of the concatenated output is frame
      sample `(runningIdx + t) mod frame_size`, and the running index afterwards is the
      position reached. */
  lemma {:induction false} RunRepeatsFrame(frame: seq<Complex>, runningIdx: nat, written: nat, key: string, requests: seq<nat>)
    requires 0 < |frame| <= INT_MAX
    requires runningIdx < |frame|
    decreases |requests|
    ensures Run(frame, runningIdx, written, key, requests).1 ==
      (runningIdx + |Run(frame, runningIdx, written, key, requests).0|) % |frame|
    ensures ReadsCyclically(frame, runningIdx, Run(frame, runningIdx, written, key, requests).0)
  {
    var m := |frame|;
    if |requests| == 0 {
      ModUnique(runningIdx, m, 0, runningIdx);
    } else {
      var step := Work(frame, runningIdx, requests[0], written, key).value;
      RunRepeatsFrame(frame, step.runningIdx, written + step.items, key, requests[1..]);
      RunRepeatsStep(frame, runningIdx, written, key, requests);
    }
  }

  /** The inductive step of `RunRepeatsFrame`: the first call's samples in front of a
      rest of the run that repeats the frame from where the first call stopped. */
  lemma RunRepeatsStep(frame: seq<Complex>, runningIdx: nat, written: nat, key: string, requests: seq<nat>)
    requires 0 < |frame| <= INT_MAX
    requires runningIdx < |frame| && |requests| > 0
    requires var step := Work(frame, runningIdx, requests[0], written, key).value;
      var rest := Run(frame, step.runningIdx, written + step.items, key, requests[1..]);
      && rest.1 == (step.runningIdx + |rest.0|) % |frame|
      && ReadsCyclically(frame, step.runningIdx, rest.0)
    ensures Run(frame, runningIdx, written, key, requests).1 ==
      (runningIdx + |Run(frame, runningIdx, written, key, requests).0|) % |frame|
    ensures ReadsCyclically(frame, runningIdx, Run(frame, runningIdx, written, key, requests).0)
  {
    var step := Work(frame, runningIdx, requests[0], written, key).value;
    var n, next := step.items, step.runningIdx;
    var rest := Run(frame, next, written + n, key, requests[1..]);
    assert Run(frame, runningIdx, written, key, requests).0 == step.samples + rest.0;
    RotationAppend(frame, runningIdx, step.samples, rest.0, next, rest.1);
  }

  /** Output sample `t` of a run that starts at `runningIdx` is the first sample of a frame. */
  predicate FrameStart(frame: seq<Complex>, runningIdx: nat, t: nat)
    requires 0 < |frame|
  {
    (runningIdx + t) % |frame| == 0
  }

  /** Every tag of a run of `len` samples that starts at `runningIdx` and stream position
      `written` carries the key and the frame size, and sits where a frame begins (at
      most at the end of the output, for a call that wrote nothing). */
  predicate TagsAtFrameStarts(frame: seq<Complex>, runningIdx: nat, written: nat, key: string, len: nat,
                              tags: seq<LengthTag>)
    requires 0 < |frame|
  {
    forall tag :: tag in tags ==>
      tag.key == key && tag.value == |frame| && written <= tag.offset <= written + len &&
      FrameStart(frame, runningIdx, tag.offset - written)
  }

  /** Every output sample of such a run that begins a frame carries a tag. */
  predicate FrameStartsTagged(frame: seq<Complex>, runningIdx: nat, written: nat, key: string, len: nat,
                              tags: seq<LengthTag>)
    requires 0 < |frame|
  {
    forall t :: 0 <= t < len && FrameStart(frame, runningIdx, t) ==> LengthTag(written + t, key, |frame|) in tags
  }

  /** One `work` call of `n` samples from `r`, tagged when it starts a frame, followed
      by a run whose tags mark exactly its frame starts, gives a run whose tags mark
      exactly its frame starts. */
  lemma TagsAppend(frame: seq<Complex>, r: nat, written: nat, key: string, n: nat, next: nat,
                   tags: seq<LengthTag>, restLen: nat, restTags: seq<LengthTag>)
    requires 0 < |frame| && r + n <= |frame| && next == (r + n) % |frame|
    requires tags == if r == 0 then [LengthTag(written, key, |frame|)] else []
    requires TagsAtFrameStarts(frame, next, written + n, key, restLen, restTags)
    requires FrameStartsTagged(frame, next, written + n, key, restLen, restTags)
    ensures TagsAtFrameStarts(frame, r, written, key, n + restLen, tags + restTags)
    ensures FrameStartsTagged(frame, r, written, key, n + restLen, tags + restTags)
  {
    var m := |frame|;
    forall tag | tag in tags + restTags
      ensures tag.key == key && tag.value == m && written <= tag.offset <= written + n + restLen
      ensures FrameStart(frame, r, tag.offset - written)
    {
      if tag in tags {
        ModUnique(0, m, 0, 0);
      } else {
        assert tag in restTags;
        ModAddShift(r + n, tag.offset - (written + n), m);
      }
    }
    forall t | 0 <= t < n + restLen && FrameStart(frame, r, t)
      ensures LengthTag(written + t, key, m) in tags + restTags
    {
      if t < n {
        ModUnique(r + t, m, 0, r + t);
      } else {
        ModAddShift(r + n, t - n, m);
        assert FrameStart(frame, next, t - n);
        assert LengthTag(written + n + (t - n), key, m) in restTags;
      }
    }
  }

  /** The length tags of a run of `work` calls mark exactly the frame starts of its
      output. */
  lemma {:induction false} RunTagsFrameStarts(frame: seq<Complex>, runningIdx: nat, written: nat, key: string, requests: seq<nat>)
    requires 0 < |frame| <= INT_MAX
    requires runningIdx < |frame|
    decreases |requests|
    ensures TagsAtFrameStarts(frame, runningIdx, written, key, |Run(frame, runningIdx, written, key, requests).0|,
                              Run(frame, runningIdx, written, key, requests).2)
    ensures FrameStartsTagged(frame, runningIdx, written, key, |Run(frame, runningIdx, written, key, requests).0|,
                              Run(frame, runningIdx, written, key, requests).2)
  {
    if |requests| > 0 {
      var step := Work(frame, runningIdx, requests[0], written, key).value;
      RunTagsFrameStarts(frame, step.runningIdx, written + step.items, key, requests[1..]);
      RunTagsStep(frame, runningIdx, written, key, requests);
    }
  }

  /** The inductive step of `RunTagsFrameStarts`: the first call's tag in front of the
      tags of the rest of the run. */
  lemma RunTagsStep(frame: seq<Complex>, runningIdx: nat, written: nat, key: string, requests: seq<nat>)
    requires 0 < |frame| <= INT_MAX
    requires runningIdx < |frame| && |requests| > 0
    requires var step := Work(frame, runningIdx, requests[0], written, key).value;
      var rest := Run(frame, step.runningIdx, written + step.items, key, requests[1..]);
      && TagsAtFrameStarts(frame, step.runningIdx, written + step.items, key, |rest.0|, rest.2)
      && FrameStartsTagged(frame, step.runningIdx, written + step.items, key, |rest.0|, rest.2)
    ensures TagsAtFrameStarts(frame, runningIdx, written, key, |Run(frame, runningIdx, written, key, requests).0|,
                              Run(frame, runningIdx, written, key, requests).2)
    ensures FrameStartsTagged(frame, runningIdx, written, key, |Run(frame, runningIdx, written, key, requests).0|,
                              Run(frame, runningIdx, written, key, requests).2)
  {
    var step := Work(frame, runningIdx, requests[0], written, key).value;
    var n, next := step.items, step.runningIdx;
    var rest := Run(frame, next, written + n, key, requests[1..]);
    var tags := if step.tag.Some? then [step.tag.value] else [];
    var whole := Run(frame, runningIdx, written, key, requests);
    assert whole.0 == step.samples + rest.0 && whole.2 == tags + rest.2;
    assert |whole.0| == n + |rest.0|;
    WorkTag(frame, runningIdx, requests[0], written, key);
    TagsAppend(frame, runningIdx, written, key, n, next, tags, |rest.0|, rest.2);
  }

  /** The tags one `work` call attaches, as the list `TagsAppend` takes. */
  lemma WorkTag(frame: seq<Complex>, runningIdx: nat, request: nat, written: nat, key: string)
    requires 0 < |frame| <= INT_MAX && runningIdx < |frame|
    ensures var step := Work(frame, runningIdx, request, written, key).value;
      && runningIdx + step.items <= |frame|
      && step.runningIdx == (runningIdx + step.items) % |frame|
      && (if step.tag.Some? then [step.tag.value] else [])
         == if runningIdx == 0 then [LengthTag(written, key, |frame|)] else []
  {
  }
}
