/** `smooth_stitched_speech`: the clips of a sentence joined into one
    waveform. The waveform type and pydub's `append(other, crossfade)` are
    parameters; nothing here depends on how a crossfade sounds. */
module Stitcher {
  import opened Outcomes

  /** The waveform `acc` with every waveform of `rest` appended in order, each
      append using the same crossfade. */
  function FoldAppend<W>(acc: W, rest: seq<W>, crossfade: int, append: (W, W, int) -> W): W
    decreases |rest|
  {
    if rest == [] then acc else FoldAppend(append(acc, rest[0], crossfade), rest[1..], crossfade, append)
  }

  /** Appending one more waveform is one more `append` at the end. */
  lemma {:induction false} FoldAppendSnoc<W>(acc: W, rest: seq<W>, w: W, crossfade: int, append: (W, W, int) -> W)
    ensures FoldAppend(acc, rest + [w], crossfade, append) == append(FoldAppend(acc, rest, crossfade, append), w, crossfade)
    decreases |rest|
  {
    if rest != [] {
      assert (rest + [w])[1..] == rest[1..] + [w];
      FoldAppendSnoc(append(acc, rest[0], crossfade), rest[1..], w, crossfade, append);
    }
  }

  /** Stitching a concatenation continues from the stitch of its first part. */
  lemma {:induction false} FoldAppendConcat<W>(acc: W, xs: seq<W>, ys: seq<W>, crossfade: int, append: (W, W, int) -> W)
    ensures FoldAppend(acc, xs + ys, crossfade, append) == FoldAppend(FoldAppend(acc, xs, crossfade, append), ys, crossfade, append)
    decreases |xs|
  {
    if xs != [] {
      assert (xs + ys)[1..] == xs[1..] + ys;
      FoldAppendConcat(append(acc, xs[0], crossfade), xs[1..], ys, crossfade, append);
    } else {
      assert xs + ys == ys;
    }
  }

  /** `smooth_stitched_speech`: an empty list is an error, a single waveform
      comes back unchanged, and a longer list is its first waveform with the
      others appended in list order. */
  method SmoothStitchedSpeech<W>(waveforms: seq<W>, crossfade: int, append: (W, W, int) -> W) returns (r: Result<W>)
    ensures waveforms == [] ==> r == Err(EmptyWaveformList)
    ensures |waveforms| == 1 ==> r == Ok(waveforms[0])
    ensures waveforms != [] ==> r == Ok(FoldAppend(waveforms[0], waveforms[1..], crossfade, append))
  {
    if |waveforms| == 1 {
      return Ok(waveforms[0]);
    } else if |waveforms| == 0 {
      return Err(EmptyWaveformList);
    }
    var waveform := waveforms[0];
    for i := 1 to |waveforms|
      invariant waveform == FoldAppend(waveforms[0], waveforms[1..i], crossfade, append)
    {
      assert waveforms[1..i + 1] == waveforms[1..i] + [waveforms[i]];
      FoldAppendSnoc(waveforms[0], waveforms[1..i], waveforms[i], crossfade, append);
      waveform := append(waveform, waveforms[i], crossfade);
    }
    assert waveforms[1..|waveforms|] == waveforms[1..];
    r := Ok(waveform);
  }

  /** Two waveforms are stitched by one append. */
  lemma StitchPair<W>(a: W, b: W, crossfade: int, append: (W, W, int) -> W)
    ensures FoldAppend(a, [b], crossfade, append) == append(a, b, crossfade)
  {
    assert [b][1..] == [];
  }
}
