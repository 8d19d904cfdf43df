/** The two synthesis pipelines, `generate_stitched_voice` and
    `generate_stitched_mix_voice`, up to the stitched waveform: the sentence
    guard, path resolution, clip decoding and stitching. Decoding a clip
    (`AudioSegment.from_file`) is the parameter `decode`, and fails for a
    path that is not in the filesystem. */
module Pipeline {
  import opened Outcomes
  import Normalizer
  import Vocab
  import Resolver
  import Stitcher

  /** The waveforms of the clips, in path order. */
  function Decoded<W>(paths: seq<string>, decode: string -> W): (ws: seq<W>)
    ensures |ws| == |paths|
    ensures forall i :: 0 <= i < |paths| ==> ws[i] == decode(paths[i])
  {
    seq(|paths|, i requires 0 <= i < |paths| => decode(paths[i]))
  }

  /** The position of the first clip that does not exist, if any. */
  function FirstMissing(paths: seq<string>, fs: set<string>): (r: Option<nat>)
    ensures r.None? <==> forall p :: p in paths ==> p in fs
    ensures r.Some? ==> r.value < |paths| && paths[r.value] !in fs
    ensures r.Some? ==> forall j :: 0 <= j < r.value ==> paths[j] in fs
  {
    if paths == [] then None
    else if paths[0] !in fs then Some(0)
    else match FirstMissing(paths[1..], fs)
      case None => None
      case Some(k) => Some(k + 1)
  }

  /** The outcome of decoding and stitching the clips at `paths`. */
  function Stitched<W>(paths: seq<string>, fs: set<string>, crossfade: int,
                       decode: string -> W, append: (W, W, int) -> W): Result<W> {
    match FirstMissing(paths, fs)
    case Some(i) => Err(FileNotFound(paths[i]))
    case None =>
      if paths == [] then Err(EmptyWaveformList)
      else
        var ws := Decoded(paths, decode);
        Ok(Stitcher.FoldAppend(ws[0], ws[1..], crossfade, append))
  }

  /** The decoding loop of both pipelines: one waveform per path, in path
      order, or the error of the first missing clip. */
  method LoadWaveforms<W>(paths: seq<string>, fs: set<string>, decode: string -> W) returns (r: Result<seq<W>>)
    ensures r.Ok? <==> forall p :: p in paths ==> p in fs
    ensures r.Ok? ==> r.value == Decoded(paths, decode)
    ensures r.Err? ==> r.error == FileNotFound(paths[FirstMissing(paths, fs).value])
  {
    var waveforms: seq<W> := [];
    for i := 0 to |paths|
      invariant forall j :: 0 <= j < i ==> paths[j] in fs
      invariant waveforms == Decoded(paths[..i], decode)
    {
      if paths[i] !in fs {
        assert paths[i] in paths;
        return Err(FileNotFound(paths[i]));
      }
      waveforms := waveforms + [decode(paths[i])];
    }
    assert paths[..|paths|] == paths;
    r := Ok(waveforms);
  }

  /** Decoding then stitching, as both pipelines do. */
  method StitchClips<W>(paths: seq<string>, fs: set<string>, crossfade: int,
                        decode: string -> W, append: (W, W, int) -> W) returns (r: Result<W>)
    ensures r == Stitched(paths, fs, crossfade, decode, append)
  {
    var waveforms :- LoadWaveforms(paths, fs, decode);
    r := Stitcher.SmoothStitchedSpeech(waveforms, crossfade, append);
  }

  /** `generate_stitched_voice` up to the stitched waveform. */
  method GenerateStitchedVoice<W>(sent: string, vocab: Vocab.SpokenVocab, spk: string, crossfade: int,
                                  fs: set<string>, closeMatch: Resolver.Matcher,
                                  decode: string -> W, append: (W, W, int) -> W) returns (r: Result<W>)
    ensures sent == [] ==> r == Err(AssertionError("sent cannot be empty"))
    ensures sent != [] && spk !in vocab.voicePath ==> r == Err(KeyError(spk))
    ensures sent != [] && spk in vocab.voicePath ==>
              r == Stitched(Resolver.SentenceClips(Normalizer.Tokenize(sent), vocab.voicePath[spk], vocab.fileType,
                                                   vocab.wrdVocab, vocab.defaultToken, fs, closeMatch),
                            fs, crossfade, decode, append)
  {
    if sent == [] {
      return Err(AssertionError("sent cannot be empty"));
    }
    var paths :- Resolver.FindVoicePaths(sent, vocab, spk, fs, closeMatch);
    r := StitchClips(paths, fs, crossfade, decode, append);
  }

  /** The speaker pair used when none is given. */
  function SpeakersOrDefault(spks: Option<seq<string>>): (r: seq<string>)
    ensures spks.None? ==> r == ["spk0", "spk0"]
    ensures spks.Some? ==> r == spks.value
  {
    if spks.None? then ["spk0", "spk0"] else spks.value
  }

  /** `generate_stitched_mix_voice` up to the stitched waveform. */
  method GenerateStitchedMixVoice<W>(sent: string, vocab: Vocab.MixSpokenVocab, spksArg: Option<seq<string>>,
                                     crossfade: int, fs: set<string>, closeMatch: Resolver.Matcher,
                                     isAlpha: char -> bool, decode: string -> W, append: (W, W, int) -> W)
    returns (r: Result<W>)
    ensures sent == [] ==> r == Err(AssertionError("sent cannot be empty"))
    ensures sent != [] ==>
              var clips := Resolver.MixSentenceClips(Normalizer.Tokenize(sent), vocab, SpeakersOrDefault(spksArg),
                                                     fs, closeMatch, isAlpha);
              r == (if clips.Err? then Err(clips.error) else Stitched(clips.value, fs, crossfade, decode, append))
  {
    var spks := SpeakersOrDefault(spksArg);
    if sent == [] {
      return Err(AssertionError("sent cannot be empty"));
    }
    var paths :- Resolver.FindMixVoicePaths(sent, vocab, spks, fs, closeMatch, isAlpha);
    r := StitchClips(paths, fs, crossfade, decode, append);
  }

  /** A non-empty sentence of punctuation alone passes the guard, has no
      token, and so fails in stitching. */
  lemma PunctuationOnlySentence<W>(vocab: Vocab.SpokenVocab, spk: string, crossfade: int, fs: set<string>,
                                   closeMatch: Resolver.Matcher, decode: string -> W, append: (W, W, int) -> W)
    requires spk in vocab.voicePath
    ensures Normalizer.Tokenize("?!") == []
    ensures Stitched(Resolver.SentenceClips(Normalizer.Tokenize("?!"), vocab.voicePath[spk], vocab.fileType,
                                            vocab.wrdVocab, vocab.defaultToken, fs, closeMatch),
                     fs, crossfade, decode, append) == Err(EmptyWaveformList)
  {
    assert '?' in Normalizer.Punctuation && '!' in Normalizer.Punctuation;
    assert Normalizer.StripNewlines("?!") == "?!";
    assert Normalizer.Lower("?!") == "?!";
    assert Normalizer.Translate("?!", Normalizer.Punctuation) == [];
  }

  /** When every clip exists the speech is the stitch of the clips' waveforms
      in token order; a single clip is its own waveform. */
  lemma StitchedExistingClips<W>(paths: seq<string>, fs: set<string>, crossfade: int,
                                decode: string -> W, append: (W, W, int) -> W)
    requires paths != [] && forall p :: p in paths ==> p in fs
    ensures Stitched(paths, fs, crossfade, decode, append)
              == Ok(Stitcher.FoldAppend(decode(paths[0]), Decoded(paths[1..], decode), crossfade, append))
    ensures |paths| == 1 ==> Stitched(paths, fs, crossfade, decode, append) == Ok(decode(paths[0]))
  {
    assert Decoded(paths, decode)[1..] == Decoded(paths[1..], decode);
  }
}
