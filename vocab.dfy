/** The vocabulary configuration: the single-language `SpokenVocab` and the
    two-language `MixSpokenVocab` of generate_speech.py. Both are built once
    and only read afterwards, so they are values here. */
module Vocab {
  import opened Outcomes
  import Normalizer

  /** The extension of every clip. */
  const FileType: string := "wav"

  /** The fallback word of English, and of Bengali ("অইচি"). */
  const EnglishDefault: string := "a"
  const BengaliDefault: string := "\U{0985}\U{0987}\U{099A}\U{09BF}"

  /** The default token of a language: Bengali's for `be`, `a` for any other. */
  function DefaultToken(lng: string): string {
    if lng == "be" then BengaliDefault else EnglishDefault
  }

  /** The languages `MixSpokenVocab` accepts. */
  predicate IsSupported(lng: string) {
    lng == "en" || lng == "be"
  }

  // ---------------------------------------------------------------------
  // Speaker identifiers: f"spk{i}"
  // ---------------------------------------------------------------------

  function DigitChar(d: nat): char
    requires d < 10
  {
    ('0' as int + d) as char
  }

  /** `str(n)`: the decimal digits of `n`. */
  function NatToString(n: nat): (r: string)
    ensures 1 <= |r|
    ensures |r| == 1 <==> n < 10
    decreases n
  {
    if n < 10 then [DigitChar(n)] else NatToString(n / 10) + [DigitChar(n % 10)]
  }

  /** Distinct numbers print differently. */
  lemma {:induction false} NatToStringInjective(a: nat, b: nat)
    requires NatToString(a) == NatToString(b)
    ensures a == b
    decreases a
  {
    if a >= 10 && b >= 10 {
      var sa, sb := NatToString(a), NatToString(b);
      assert sa[|sa| - 1] == DigitChar(a % 10) && sb[|sb| - 1] == DigitChar(b % 10);
      assert sa[..|sa| - 1] == NatToString(a / 10);
      assert sb[..|sb| - 1] == NatToString(b / 10);
      NatToStringInjective(a / 10, b / 10);
    } else if a < 10 && b < 10 {
      assert NatToString(a)[0] == DigitChar(a);
    }
  }

  function SpeakerId(i: nat): string {
    "spk" + NatToString(i)
  }

  lemma SpeakerIdInjective(i: nat, j: nat)
    requires SpeakerId(i) == SpeakerId(j)
    ensures i == j
  {
    assert SpeakerId(i)[3..] == NatToString(i);
    assert SpeakerId(j)[3..] == NatToString(j);
    NatToStringInjective(i, j);
  }

  /** The speaker identifiers `spk0` .. `spk{n-1}`. */
  function SpeakerIds(n: int): set<string> {
    set i | 0 <= i < n :: SpeakerId(i)
  }

  /** There are exactly `n` of them. */
  lemma {:induction false} SpeakerIdsCount(n: nat)
    ensures |SpeakerIds(n)| == n
  {
    if n > 0 {
      SpeakerIdsCount(n - 1);
      assert SpeakerIds(n) == SpeakerIds(n - 1) + {SpeakerId(n - 1)};
      if SpeakerId(n - 1) in SpeakerIds(n - 1) {
        var i :| 0 <= i < n - 1 && SpeakerId(i) == SpeakerId(n - 1);
        SpeakerIdInjective(i, n - 1);
      }
    }
  }

  /** The speaker directory map of one language (generate_speech.py:51-53 and 113-114):
      `spk{i}` maps to `{root}/{lng}/spk{i}` for every `i` in `range(n)`. */
  function SpeakerDirs(root: string, lng: string, n: int): (m: map<string, string>)
    ensures m.Keys == SpeakerIds(n)
    ensures forall k :: k in m ==> m[k] == root + "/" + lng + "/" + k
  {
    map i | 0 <= i < n :: SpeakerId(i) := root + "/" + lng + "/" + SpeakerId(i)
  }

  /** The map has one entry per speaker, and no two speakers share a directory. */
  lemma SpeakerDirsShape(root: string, lng: string, n: nat)
    ensures |SpeakerDirs(root, lng, n)| == n
    ensures forall k1, k2 :: k1 in SpeakerDirs(root, lng, n) && k2 in SpeakerDirs(root, lng, n) && k1 != k2
              ==> SpeakerDirs(root, lng, n)[k1] != SpeakerDirs(root, lng, n)[k2]
  {
    var m := SpeakerDirs(root, lng, n);
    SpeakerIdsCount(n);
    assert |m| == |m.Keys|;
    var p := root + "/" + lng + "/";
    forall k1, k2 | k1 in m && k2 in m && m[k1] == m[k2] ensures k1 == k2 {
      assert (p + k1)[|p|..] == k1 && (p + k2)[|p|..] == k2;
    }
  }

  // ---------------------------------------------------------------------
  // SpokenVocab (generate_speech.py:38-67)
  // ---------------------------------------------------------------------

  datatype SpokenVocab = SpokenVocab(
    fileType: string,
    defaultToken: string,
    lng: string,
    wrdVocabFpath: string,
    numSpk: int,
    voicePath: map<string, string>,   // speaker -> clip directory
    wrdVocab: seq<string>)            // the known words, in file order

  /** `build_word_vocab` once the file's lines are read: each line with
      the newlines at both of its ends removed, in file order. */
  function StripLines(lines: seq<string>): (r: seq<string>)
    ensures |r| == |lines|
    ensures forall i :: 0 <= i < |r| ==> r[i] == Normalizer.StripNewlines(lines[i])
  {
    seq(|lines|, i requires 0 <= i < |lines| => Normalizer.StripNewlines(lines[i]))
  }

  /** `SpokenVocab.__init__`, given the lines of the word-list file. */
  function NewSpokenVocab(voiceRoot: string, wrdVocabFpath: string, fileLines: seq<string>,
                          lng: string, numSpk: int): (v: SpokenVocab)
    ensures v.fileType == FileType && v.lng == lng
    ensures lng == "be" ==> v.defaultToken == BengaliDefault
    ensures lng != "be" ==> v.defaultToken == EnglishDefault
    ensures v.voicePath.Keys == SpeakerIds(numSpk)
    ensures forall k :: k in v.voicePath ==> v.voicePath[k] == voiceRoot + "/" + lng + "/" + k
    ensures |v.wrdVocab| == |fileLines|
    ensures forall i :: 0 <= i < |fileLines| ==> v.wrdVocab[i] == Normalizer.StripNewlines(fileLines[i])
  {
    SpokenVocab(FileType, DefaultToken(lng), lng, wrdVocabFpath, numSpk,
                SpeakerDirs(voiceRoot, lng, numSpk), StripLines(fileLines))
  }

  // ---------------------------------------------------------------------
  // MixSpokenVocab (generate_speech.py:77-132)
  // ---------------------------------------------------------------------

  datatype MixSpokenVocab = MixSpokenVocab(
    fileType: string,
    lngs: seq<string>,
    defaultTokens: map<string, string>,
    wrdVocabFpaths: map<string, string>,
    numSpks: map<string, int>,
    voicePaths: map<string, map<string, string>>,  // language -> speaker -> directory
    wrdVocabs: map<string, string>)                 // language -> word-list PATH (as the code stores it)

  /** Every configured language has a default token, speaker map and word-list entry. */
  predicate WellFormed(v: MixSpokenVocab) {
    |v.lngs| == 2 &&
    forall l :: l in v.lngs ==> l in v.defaultTokens && l in v.voicePaths && l in v.wrdVocabs
  }

  /** The dictionary built from equally long key and value lists, pair by
      pair, a later pair overwriting an earlier one with the same key. */
  function PairMap<V>(ks: seq<string>, vs: seq<V>): (m: map<string, V>)
    requires |ks| == |vs|
    ensures forall k :: k in m <==> k in ks
    decreases |ks|
  {
    if |ks| == 0 then map[]
    else
      var n := |ks| - 1;
      assert ks == ks[..n] + [ks[n]];
      PairMap(ks[..n], vs[..n])[ks[n] := vs[n]]
  }

  /** A key maps to the value of its last pair. */
  lemma {:induction false} PairMapLastWins<V>(ks: seq<string>, vs: seq<V>, i: nat)
    requires |ks| == |vs| && i < |ks|
    requires ks[i] !in ks[i + 1..]
    ensures PairMap(ks, vs)[ks[i]] == vs[i]
    decreases |ks|
  {
    var n := |ks| - 1;
    if i < n {
      assert ks[i + 1..] == ks[..n][i + 1..] + [ks[n]];
      assert ks[..n][i] == ks[i] && vs[..n][i] == vs[i];
      PairMapLastWins(ks[..n], vs[..n], i);
    }
  }

  /** `{k: v for k, v in zip(ks, vs)}`: the pairs up to the shorter length. */
  function ZipMap<V>(ks: seq<string>, vs: seq<V>): (m: map<string, V>)
    ensures forall k :: k in m <==> k in ks[..Shorter(ks, vs)]
  {
    PairMap(ks[..Shorter(ks, vs)], vs[..Shorter(ks, vs)])
  }

  /** The length `zip` stops at. */
  function Shorter<V>(ks: seq<string>, vs: seq<V>): (n: nat)
    ensures n <= |ks| && n <= |vs| && (n == |ks| || n == |vs|)
  {
    if |ks| < |vs| then |ks| else |vs|
  }

  /** A key among the zipped pairs maps to the value of its last pair. */
  lemma ZipMapLastWins<V>(ks: seq<string>, vs: seq<V>, i: nat)
    requires i < Shorter(ks, vs)
    requires ks[i] !in ks[i + 1..Shorter(ks, vs)]
    ensures ZipMap(ks, vs)[ks[i]] == vs[i]
  {
    var n := Shorter(ks, vs);
    assert ks[..n][i + 1..] == ks[i + 1..n];
    PairMapLastWins(ks[..n], vs[..n], i);
  }

  /** Repeating a language keeps the speaker count given last. */
  lemma DuplicateLanguageLastWins()
    ensures ZipMap(["en", "en"], [1, 3]) == map["en" := 3]
  {
    var ks: seq<string> := ["en", "en"];
    ZipMapLastWins(ks, [1, 3], 1);
    assert ks[..2] == ks;
  }

  /** The languages: English and Bengali when none are given. */
  function LngsOrDefault(lngs: Option<seq<string>>): (r: seq<string>)
    ensures lngs.None? ==> r == ["en", "be"]
    ensures lngs.Some? ==> r == lngs.value
  {
    if lngs.None? then ["en", "be"] else lngs.value
  }

  /** The speaker counts: one speaker per language when none are given. */
  function NumSpksOrDefault(numSpks: Option<seq<int>>): (r: seq<int>)
    ensures numSpks.None? ==> r == [1, 1]
    ensures numSpks.Some? ==> r == numSpks.value
  {
    if numSpks.None? then [1, 1] else numSpks.value
  }

  /** The arguments `MixSpokenVocab.__init__` accepts without raising. */
  predicate MixAccepts(lngsArg: Option<seq<string>>, numSpksArg: Option<seq<int>>, wrdVocabFpaths: seq<string>) {
    var lngs, numSpks := LngsOrDefault(lngsArg), NumSpksOrDefault(numSpksArg);
    && |lngs| == 2
    && (forall l :: l in lngs ==> IsSupported(l))
    && (forall l :: l in lngs ==> l in ZipMap(lngs, numSpks))
    && (forall l :: l in lngs ==> l in ZipMap(lngs, wrdVocabFpaths))
  }

  /** With the default languages and speaker counts, construction succeeds
      exactly when both word-list paths are given: a shorter list is cut by
      `zip` and the lookup of `be` fails. */
  lemma DefaultMixAccepts(wrdVocabFpaths: seq<string>)
    ensures MixAccepts(None, None, wrdVocabFpaths) <==> |wrdVocabFpaths| >= 2
  {
    var lngs: seq<string> := ["en", "be"];
    assert lngs[..2] == lngs;
    if |wrdVocabFpaths| < 2 {
      assert "be" in lngs;
      assert "be" !in lngs[..|wrdVocabFpaths|];
    }
  }

  /** `build_voice_paths`: one speaker map per language. */
  method BuildVoicePaths(voiceRoot: string, lngs: seq<string>, numSpks: map<string, int>)
    returns (r: Result<map<string, map<string, string>>>)
    ensures r.Ok? <==> forall l :: l in lngs ==> l in numSpks
    ensures r.Ok? ==> forall l :: l in r.value <==> l in lngs
    ensures r.Ok? ==> forall l :: l in lngs ==> r.value[l] == SpeakerDirs(voiceRoot, l, numSpks[l])
    ensures r.Err? ==> exists k :: 0 <= k < |lngs| && lngs[k] !in numSpks && r.error == KeyError(lngs[k])
                                   && forall j :: 0 <= j < k ==> lngs[j] in numSpks
  {
    var voicePaths: map<string, map<string, string>> := map[];
    for i := 0 to |lngs|
      invariant forall l :: l in voicePaths <==> l in lngs[..i]
      invariant forall l :: l in voicePaths ==> l in numSpks && voicePaths[l] == SpeakerDirs(voiceRoot, l, numSpks[l])
    {
      var lng := lngs[i];
      if lng !in numSpks {
        assert lng in lngs;
        assert forall j :: 0 <= j < i ==> lngs[j] in lngs[..i];
        return Err(KeyError(lng));
      }
      assert lngs[..i + 1] == lngs[..i] + [lng];
      voicePaths := voicePaths[lng := SpeakerDirs(voiceRoot, lng, numSpks[lng])];
    }
    assert lngs[..|lngs|] == lngs;
    r := Ok(voicePaths);
  }

  /** `build_word_vocabs`: stores, for each language, the word-list PATH it
      was given (not the words of that file). */
  method BuildWordVocabs(lngs: seq<string>, wrdVocabFpaths: map<string, string>)
    returns (r: Result<map<string, string>>)
    ensures r.Ok? <==> forall l :: l in lngs ==> l in wrdVocabFpaths
    ensures r.Ok? ==> forall l :: l in r.value <==> l in lngs
    ensures r.Ok? ==> forall l :: l in lngs ==> r.value[l] == wrdVocabFpaths[l]
    ensures r.Err? ==> exists k :: 0 <= k < |lngs| && lngs[k] !in wrdVocabFpaths && r.error == KeyError(lngs[k])
                                   && forall j :: 0 <= j < k ==> lngs[j] in wrdVocabFpaths
  {
    var wrdVocabs: map<string, string> := map[];
    for i := 0 to |lngs|
      invariant forall l :: l in wrdVocabs <==> l in lngs[..i]
      invariant forall l :: l in wrdVocabs ==> l in wrdVocabFpaths && wrdVocabs[l] == wrdVocabFpaths[l]
    {
      var lng := lngs[i];
      if lng !in wrdVocabFpaths {
        assert lng in lngs;
        assert forall j :: 0 <= j < i ==> lngs[j] in lngs[..i];
        return Err(KeyError(lng));
      }
      assert lngs[..i + 1] == lngs[..i] + [lng];
      wrdVocabs := wrdVocabs[lng := wrdVocabFpaths[lng]];
    }
    assert lngs[..|lngs|] == lngs;
    r := Ok(wrdVocabs);
  }

  /** The default-token loop of `MixSpokenVocab.__init__`: the default
      token of each language, or `NotImplementedError` at the first language
      that is neither `en` nor `be`. */
  method BuildDefaultTokens(lngs: seq<string>) returns (r: Result<map<string, string>>)
    ensures r.Ok? <==> forall l :: l in lngs ==> IsSupported(l)
    ensures r.Ok? ==> forall l :: l in lngs ==> l in r.value && r.value[l] == DefaultToken(l)
    ensures r.Err? ==> r.error == NotImplementedError("Language not supported")
  {
    var defaultTokens: map<string, string> := map[];
    for i := 0 to |lngs|
      invariant forall j :: 0 <= j < i ==> IsSupported(lngs[j])
      invariant forall j :: 0 <= j < i ==> lngs[j] in defaultTokens && defaultTokens[lngs[j]] == DefaultToken(lngs[j])
    {
      var lng := lngs[i];
      var defaultToken;
      if lng == "en" {
        defaultToken := EnglishDefault;
      } else if lng == "be" {
        defaultToken := BengaliDefault;
      } else {
        assert lngs[i] in lngs;
        return Err(NotImplementedError("Language not supported"));
      }
      defaultTokens := defaultTokens[lng := defaultToken];
    }
    r := Ok(defaultTokens);
  }

  /** `MixSpokenVocab.__init__`; `None` stands for an omitted argument. */
  method NewMixSpokenVocab(voiceRoot: string, wrdVocabFpaths: seq<string>,
                           lngsArg: Option<seq<string>>, numSpksArg: Option<seq<int>>)
    returns (r: Result<MixSpokenVocab>)
    ensures var lngs := LngsOrDefault(lngsArg);
      |lngs| != 2 ==> r == Err(AssertionError("Currently only two languages are supported."))
    ensures var lngs := LngsOrDefault(lngsArg);
      |lngs| == 2 && (exists l :: l in lngs && !IsSupported(l)) ==>
        r == Err(NotImplementedError("Language not supported"))
    ensures r.Ok? <==> MixAccepts(lngsArg, numSpksArg, wrdVocabFpaths)
    ensures var lngs, numSpks := LngsOrDefault(lngsArg), NumSpksOrDefault(numSpksArg);
      var spks, fpaths := ZipMap(lngs, numSpks), ZipMap(lngs, wrdVocabFpaths);
      |lngs| == 2 && (forall l :: l in lngs ==> IsSupported(l)) && !MixAccepts(lngsArg, numSpksArg, wrdVocabFpaths) ==>
        exists k :: 0 <= k < |lngs| && r == Err(KeyError(lngs[k])) &&
          ((lngs[k] !in spks && forall j :: 0 <= j < k ==> lngs[j] in spks) ||
           ((forall l :: l in lngs ==> l in spks) && lngs[k] !in fpaths && forall j :: 0 <= j < k ==> lngs[j] in fpaths))
    ensures var lngs, numSpks := LngsOrDefault(lngsArg), NumSpksOrDefault(numSpksArg);
      r.Ok? ==>
        && WellFormed(r.value)
        && r.value.fileType == FileType
        && r.value.lngs == lngs
        && (forall l :: l in lngs ==> r.value.defaultTokens[l] == DefaultToken(l))
        && (forall l :: l in lngs ==>
              r.value.voicePaths[l] == SpeakerDirs(voiceRoot, l, ZipMap(lngs, numSpks)[l]))
        && (forall l :: l in lngs ==> r.value.wrdVocabs[l] == ZipMap(lngs, wrdVocabFpaths)[l])
  {
    var numSpks := NumSpksOrDefault(numSpksArg);
    var lngs := LngsOrDefault(lngsArg);
    if |lngs| != 2 {
      return Err(AssertionError("Currently only two languages are supported."));
    }
    var defaultTokens :- BuildDefaultTokens(lngs);
    var fpaths := ZipMap(lngs, wrdVocabFpaths);
    var spks := ZipMap(lngs, numSpks);
    var voicePaths := BuildVoicePaths(voiceRoot, lngs, spks);
    if voicePaths.Err? {
      return Err(voicePaths.error);
    }
    var wrdVocabs := BuildWordVocabs(lngs, fpaths);
    if wrdVocabs.Err? {
      return Err(wrdVocabs.error);
    }
    assert MixAccepts(lngsArg, numSpksArg, wrdVocabFpaths);
    r := Ok(MixSpokenVocab(FileType, lngs, defaultTokens, fpaths, spks, voicePaths.value, wrdVocabs.value));
  }
}
