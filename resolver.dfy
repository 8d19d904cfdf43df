/** Word-to-clip resolution: `find_voice_paths` for one language and
    `find_mix_voice_paths`, with its English router, for a language pair.
    The filesystem is the set of existing paths; `difflib.get_close_matches(
    tok, cands, n=1)` is the parameter `closeMatch`, and `str.isalpha` of one
    character is the parameter `isAlpha`. */
module Resolver {
  import opened Outcomes
  import Normalizer
  import Vocab

  /** The first element of `get_close_matches(query, candidates, n=1)`, if any. */
  type Matcher = (string, seq<string>) -> Option<string>

  /** What difflib guarantees of a match: it is one of the candidates, and
      for a non-empty query (its similarity ratio being at least 0.6) it shares
      a character with the query. An empty query matches only the empty word,
      whose ratio with it is 1. */
  ghost predicate IsCloseMatcher(m: Matcher) {
    forall q, cands :: m(q, cands).Some? ==>
      m(q, cands).value in cands && (q != [] ==> exists c :: c in q && c in m(q, cands).value)
  }

  /** `os.path.join(a, b)` on POSIX paths: an absolute `b` replaces `a`. */
  function Join(a: string, b: string): (r: string)
    ensures b != [] && b[0] == '/' ==> r == b
    ensures !(b != [] && b[0] == '/') ==>
              a <= r && |b| <= |r| <= |a| + 1 + |b| && r[|r| - |b|..] == b
    ensures !(b != [] && b[0] == '/') && a != [] && a[|a| - 1] != '/' ==> r == a + "/" + b
    ensures !(b != [] && b[0] == '/') && (a == [] || a[|a| - 1] == '/') ==> r == a + b
  {
    if b != [] && b[0] == '/' then b
    else if a == [] || a[|a| - 1] == '/' then a + b
    else a + "/" + b
  }

  /** The file name of a word's clip, `f"{word}.{file_type}"`. */
  function ClipName(word: string, fileType: string): string {
    word + "." + fileType
  }

  /** Which step of the fallback chain chose a clip. */
  datatype Via = Exact | Fuzzy(word: string) | Default

  datatype Resolution = Resolution(path: string, via: Via)

  /** The clip of one token in one speaker directory: the exact clip if it
      exists, else the close match, else the default token. A fallback clip
      that does not exist is only reported; its path is used all the same. */
  function ResolveClip(tok: string, dir: string, fileType: string, cands: seq<string>,
                       defaultTok: string, fs: set<string>, closeMatch: Matcher): (r: Resolution)
    ensures r.via.Exact? <==> Join(dir, ClipName(tok, fileType)) in fs
    ensures r.via.Exact? ==> r.path == Join(dir, ClipName(tok, fileType))
    ensures r.via.Fuzzy? ==>
              closeMatch(tok, cands) == Some(r.via.word) && r.path == Join(dir, ClipName(r.via.word, fileType))
    ensures r.via.Default? ==>
              closeMatch(tok, cands) == None && r.path == Join(dir, ClipName(defaultTok, fileType))
  {
    var exact := Join(dir, ClipName(tok, fileType));
    if exact in fs then Resolution(exact, Exact)
    else match closeMatch(tok, cands)
      case Some(w) => Resolution(Join(dir, ClipName(w, fileType)), Fuzzy(w))
      case None => Resolution(Join(dir, ClipName(defaultTok, fileType)), Default)
  }

  /** A word that names a clip inside a directory rather than an absolute path. */
  predicate IsRelative(w: string) {
    w == [] || w[0] != '/'
  }

  /** A directory `os.path.join` extends with a separator. */
  predicate IsDirName(dir: string) {
    dir != [] && dir[|dir| - 1] != '/'
  }

  /** Every speaker directory `root/lng/spk{i}` ends in a digit, so a clip
      file joined to it follows a separator. */
  lemma SpeakerDirsAreDirNames(root: string, lng: string, n: int)
    ensures forall k :: k in Vocab.SpeakerDirs(root, lng, n) ==> IsDirName(Vocab.SpeakerDirs(root, lng, n)[k])
  {
    forall k | k in Vocab.SpeakerDirs(root, lng, n)
      ensures IsDirName(Vocab.SpeakerDirs(root, lng, n)[k])
    {
      var i :| 0 <= i < n && k == Vocab.SpeakerId(i);
      var digits := Vocab.NatToString(i);
      assert '0' <= digits[|digits| - 1] <= '9' by {
        if i >= 10 {
          assert digits == Vocab.NatToString(i / 10) + [Vocab.DigitChar(i % 10)];
        }
      }
      var d := root + "/" + lng + "/" + k;
      assert d[|d| - 1] == digits[|digits| - 1];
    }
  }

  /** A clip whose word is relative stays inside the speaker directory: its
      path is the directory, a separator, then the clip's file name. */
  lemma ResolvedInDirectory(tok: string, dir: string, fileType: string, cands: seq<string>,
                            defaultTok: string, fs: set<string>, closeMatch: Matcher)
    requires IsRelative(tok) && IsRelative(defaultTok)
    requires closeMatch(tok, cands).Some? ==> IsRelative(closeMatch(tok, cands).value)
    ensures dir <= ResolveClip(tok, dir, fileType, cands, defaultTok, fs, closeMatch).path
    ensures IsDirName(dir) ==> dir + "/" <= ResolveClip(tok, dir, fileType, cands, defaultTok, fs, closeMatch).path
  {
    var r := ResolveClip(tok, dir, fileType, cands, defaultTok, fs, closeMatch);
    match r.via
    case Exact => assert IsRelative(ClipName(tok, fileType));
    case Fuzzy(w) => assert IsRelative(ClipName(w, fileType));
    case Default => assert IsRelative(ClipName(defaultTok, fileType));
  }

  /** Tokens never start with '/', which the normaliser deletes. */
  lemma TokensRelative(sent: string)
    ensures forall t :: t in Normalizer.Tokenize(sent) ==> IsRelative(t)
  {
    Normalizer.TokensWellFormed(sent);
    assert '/' in Normalizer.Punctuation;
  }

  // ---------------------------------------------------------------------
  // One language (generate_speech.py:158-191)
  // ---------------------------------------------------------------------

  /** The clip paths of a sequence of tokens in one speaker directory. */
  function SentenceClips(tokens: seq<string>, dir: string, fileType: string, cands: seq<string>,
                         defaultTok: string, fs: set<string>, closeMatch: Matcher): seq<string> {
    seq(|tokens|, i requires 0 <= i < |tokens| => ResolveClip(tokens[i], dir, fileType, cands, defaultTok, fs, closeMatch).path)
  }

  /** The per-token loop of `find_voice_paths`: the clip path of each
      token, appended in token order. */
  method ResolveTokens(tokens: seq<string>, dir: string, fileType: string, cands: seq<string>,
                       defaultTok: string, fs: set<string>, closeMatch: Matcher) returns (paths: seq<string>)
    ensures paths == SentenceClips(tokens, dir, fileType, cands, defaultTok, fs, closeMatch)
  {
    paths := [];
    for i := 0 to |tokens|
      invariant |paths| == i
      invariant forall j :: 0 <= j < i ==>
                  paths[j] == ResolveClip(tokens[j], dir, fileType, cands, defaultTok, fs, closeMatch).path
    {
      var resolved := ResolveClip(tokens[i], dir, fileType, cands, defaultTok, fs, closeMatch);
      paths := paths + [resolved.path];
    }
  }

  /** `find_voice_paths`: one clip path per token of the normalised sentence,
      in token order; an unknown speaker is a `KeyError`. */
  method FindVoicePaths(sent: string, vocab: Vocab.SpokenVocab, spk: string,
                        fs: set<string>, closeMatch: Matcher) returns (r: Result<seq<string>>)
    ensures spk !in vocab.voicePath ==> r == Err(KeyError(spk))
    ensures spk in vocab.voicePath ==>
              r == Ok(SentenceClips(Normalizer.Tokenize(sent), vocab.voicePath[spk], vocab.fileType,
                                    vocab.wrdVocab, vocab.defaultToken, fs, closeMatch))
  {
    if spk !in vocab.voicePath {
      return Err(KeyError(spk));
    }
    var normalized := Normalizer.Normalize(sent);
    var tokens := Normalizer.Tokens(normalized);
    var paths := ResolveTokens(tokens, vocab.voicePath[spk], vocab.fileType, vocab.wrdVocab,
                               vocab.defaultToken, fs, closeMatch);
    r := Ok(paths);
  }

  /** Every path of a sentence lies in the chosen speaker's directory when no
      word of the list is an absolute path and the matcher returns candidates. */
  lemma SentenceInSpeakerDirectory(sent: string, vocab: Vocab.SpokenVocab, spk: string,
                                   fs: set<string>, closeMatch: Matcher)
    requires spk in vocab.voicePath
    requires vocab.defaultToken == Vocab.DefaultToken(vocab.lng)
    requires forall w :: w in vocab.wrdVocab ==> IsRelative(w)
    requires IsCloseMatcher(closeMatch)
    ensures forall t :: t in Normalizer.Tokenize(sent) ==>
              var dir := vocab.voicePath[spk];
              var path := ResolveClip(t, dir, vocab.fileType, vocab.wrdVocab, vocab.defaultToken, fs, closeMatch).path;
              dir <= path && (IsDirName(dir) ==> dir + "/" <= path)
  {
    TokensRelative(sent);
    forall t | t in Normalizer.Tokenize(sent)
      ensures var dir := vocab.voicePath[spk];
              var path := ResolveClip(t, dir, vocab.fileType, vocab.wrdVocab, vocab.defaultToken, fs, closeMatch).path;
              dir <= path && (IsDirName(dir) ==> dir + "/" <= path)
    {
      ResolvedInDirectory(t, vocab.voicePath[spk], vocab.fileType, vocab.wrdVocab,
                          vocab.defaultToken, fs, closeMatch);
    }
  }

  // ---------------------------------------------------------------------
  // Language pair (generate_speech.py:239-292)
  // ---------------------------------------------------------------------

  /** `xs.index(x)`: the first position of `x`, or nothing (a `ValueError`). */
  function FirstIndex(xs: seq<string>, x: string): (r: Option<nat>)
    ensures r.Some? <==> x in xs
    ensures r.Some? ==> r.value < |xs| && xs[r.value] == x && forall j :: 0 <= j < r.value ==> xs[j] != x
  {
    if xs == [] then None
    else if xs[0] == x then Some(0)
    else match FirstIndex(xs[1..], x)
      case None => None
      case Some(k) => Some(k + 1)
  }

  /** `check_english`: `str.isalpha` of the token, which holds when the token
      is non-empty and each of its characters is alphabetic. */
  function CheckEnglish(tok: string, isAlpha: char -> bool): bool {
    tok != [] && forall k :: 0 <= k < |tok| ==> isAlpha(tok[k])
  }

  /** A token is English iff it is non-empty and all its characters are
      alphabetic; one non-alphabetic character makes it not English. */
  lemma CheckEnglishCharacters(tok: string, isAlpha: char -> bool)
    ensures CheckEnglish(tok, isAlpha) <==> tok != [] && forall c :: c in tok ==> isAlpha(c)
    ensures forall k :: 0 <= k < |tok| && !isAlpha(tok[k]) ==> !CheckEnglish(tok, isAlpha)
  {
    if tok != [] && forall c :: c in tok ==> isAlpha(c) {
      assert forall k :: 0 <= k < |tok| ==> tok[k] in tok;
    }
  }

  /** The language and speaker a token is spoken in. */
  datatype Route = Route(lng: string, spk: string)

  /** The routing of one token: an alphabetic token goes to `en` with the
      speaker at `en`'s position, any other token to the language at the
      mirrored position (the other one of a pair) with that position's speaker. */
  function RouteToken(tok: string, lngs: seq<string>, spks: seq<string>, isAlpha: char -> bool): (r: Result<Route>)
    ensures "en" !in lngs ==> r == Err(ValueError)
    ensures "en" in lngs ==> r.Ok? || r == Err(IndexError)
    ensures r.Ok? ==> r.value.lng in lngs && r.value.spk in spks
    ensures r.Ok? && CheckEnglish(tok, isAlpha) ==>
              var e := FirstIndex(lngs, "en").value;
              e < |spks| && r.value == Route("en", spks[e])
    ensures r.Ok? && !CheckEnglish(tok, isAlpha) ==>
              var o := |lngs| - 1 - FirstIndex(lngs, "en").value;
              0 <= o < |lngs| && o < |spks| && r.value == Route(lngs[o], spks[o])
    ensures "en" in lngs && |lngs| <= |spks| ==> r.Ok?
  {
    match FirstIndex(lngs, "en")
    case None => Err(ValueError)
    case Some(e) =>
      var o := |lngs| - 1 - e;
      if CheckEnglish(tok, isAlpha) then
        if e < |spks| then Ok(Route("en", spks[e])) else Err(IndexError)
      else
        if o < |spks| then Ok(Route(lngs[o], spks[o])) else Err(IndexError)
  }

  /** With exactly two languages, a non-alphabetic token goes to the language
      that is not `en` (or to `en` again when both are `en`). */
  lemma RoutePairOther(tok: string, lngs: seq<string>, spks: seq<string>, isAlpha: char -> bool)
    requires |lngs| == 2 && "en" in lngs && |spks| >= 2
    requires !CheckEnglish(tok, isAlpha)
    ensures var e := FirstIndex(lngs, "en").value;
      RouteToken(tok, lngs, spks, isAlpha) == Ok(Route(lngs[1 - e], spks[1 - e]))
  {
  }

  /** A token with any character that is not alphabetic (a Bengali vowel
      sign, virama or anusvara, a digit, `@`, ...) goes to the language at
      the mirrored position, with that position's speaker. */
  lemma NonAlphabeticRoutedToOther(tok: string, k: nat, lngs: seq<string>, spks: seq<string>, isAlpha: char -> bool)
    requires k < |tok| && !isAlpha(tok[k])
    requires "en" in lngs && |lngs| <= |spks|
    ensures var o := |lngs| - 1 - FirstIndex(lngs, "en").value;
      0 <= o < |lngs| && RouteToken(tok, lngs, spks, isAlpha) == Ok(Route(lngs[o], spks[o]))
  {
    assert !CheckEnglish(tok, isAlpha);
  }

  /** Iterating over a string yields its characters as one-character strings. */
  function Characters(s: string): seq<string> {
    seq(|s|, i requires 0 <= i < |s| => [s[i]])
  }

  /** Each candidate drawn from a string is one of its characters. */
  lemma CharactersAreSingletons(s: string)
    ensures |Characters(s)| == |s|
    ensures forall w :: w in Characters(s) ==> |w| == 1 && w[0] in s
  {
  }

  /** One token of a mixed sentence: route it, look up its language's default
      token, speaker directory and word list, and resolve its clip there. The
      word list of a language is the word-list PATH that `MixSpokenVocab` keeps,
      so the close-match candidates are that path's characters. */
  function ResolveMixToken(tok: string, vocab: Vocab.MixSpokenVocab, spks: seq<string>,
                           fs: set<string>, closeMatch: Matcher, isAlpha: char -> bool): (r: Result<string>)
    ensures RouteToken(tok, vocab.lngs, spks, isAlpha).Err? ==>
              r == Err(RouteToken(tok, vocab.lngs, spks, isAlpha).error)
  {
    var route :- RouteToken(tok, vocab.lngs, spks, isAlpha);
    if route.lng !in vocab.defaultTokens then Err(KeyError(route.lng))
    else if route.lng !in vocab.voicePaths then Err(KeyError(route.lng))
    else if route.spk !in vocab.voicePaths[route.lng] then Err(KeyError(route.spk))
    else if route.lng !in vocab.wrdVocabs then Err(KeyError(route.lng))
    else
      var dir := vocab.voicePaths[route.lng][route.spk];
      Ok(ResolveClip(tok, dir, vocab.fileType, Characters(vocab.wrdVocabs[route.lng]),
                     vocab.defaultTokens[route.lng], fs, closeMatch).path)
  }

  /** A resolved mixed token is the clip chosen in its routed language and
      speaker directory; in a well-formed vocabulary the only failure after
      routing is an unknown speaker. */
  lemma MixTokenResolution(tok: string, vocab: Vocab.MixSpokenVocab, spks: seq<string>,
                           fs: set<string>, closeMatch: Matcher, isAlpha: char -> bool)
    ensures var r := ResolveMixToken(tok, vocab, spks, fs, closeMatch, isAlpha);
      r.Ok? ==>
        && RouteToken(tok, vocab.lngs, spks, isAlpha).Ok?
        && var route := RouteToken(tok, vocab.lngs, spks, isAlpha).value;
        && route.lng in vocab.voicePaths && route.spk in vocab.voicePaths[route.lng]
        && route.lng in vocab.wrdVocabs && route.lng in vocab.defaultTokens
        && r.value == ResolveClip(tok, vocab.voicePaths[route.lng][route.spk], vocab.fileType,
                                  Characters(vocab.wrdVocabs[route.lng]), vocab.defaultTokens[route.lng],
                                  fs, closeMatch).path
    ensures var r := ResolveMixToken(tok, vocab, spks, fs, closeMatch, isAlpha);
      Vocab.WellFormed(vocab) && RouteToken(tok, vocab.lngs, spks, isAlpha).Ok? ==>
        var route := RouteToken(tok, vocab.lngs, spks, isAlpha).value;
        && (r.Ok? <==> route.spk in vocab.voicePaths[route.lng])
        && (r.Err? ==> r.error == KeyError(route.spk))
  {
  }

  /** In mixed mode the candidates are the characters of the word-list path,
      so a close match is a single character of that path, and, for a
      non-empty token, a character of the token too. */
  lemma MixMatchIsPathCharacter(tok: string, wordListPath: string, closeMatch: Matcher)
    requires IsCloseMatcher(closeMatch)
    ensures var m := closeMatch(tok, Characters(wordListPath));
      m.Some? ==> |m.value| == 1 && m.value[0] in wordListPath && (tok != [] ==> m.value[0] in tok)
  {
    var m := closeMatch(tok, Characters(wordListPath));
    if m.Some? {
      CharactersAreSingletons(wordListPath);
      if tok != [] {
        var c :| c in tok && c in m.value;
        assert m.value == [m.value[0]];
      }
    }
  }

  /** Every path of a mixed sentence lies in the directory of the speaker its
      token was routed to: a close match is a character of the token, and no
      token contains '/'. */
  lemma MixSentenceInSpeakerDirectory(sent: string, vocab: Vocab.MixSpokenVocab, spks: seq<string>,
                                      fs: set<string>, closeMatch: Matcher, isAlpha: char -> bool)
    requires IsCloseMatcher(closeMatch)
    requires forall l :: l in vocab.defaultTokens ==> IsRelative(vocab.defaultTokens[l])
    ensures forall t :: t in Normalizer.Tokenize(sent) && ResolveMixToken(t, vocab, spks, fs, closeMatch, isAlpha).Ok? ==>
              var route := RouteToken(t, vocab.lngs, spks, isAlpha).value;
              route.lng in vocab.voicePaths && route.spk in vocab.voicePaths[route.lng] &&
              var dir := vocab.voicePaths[route.lng][route.spk];
              var path := ResolveMixToken(t, vocab, spks, fs, closeMatch, isAlpha).value;
              dir <= path && (IsDirName(dir) ==> dir + "/" <= path)
  {
    Normalizer.TokensWellFormed(sent);
    assert '/' in Normalizer.Punctuation;
    forall t | t in Normalizer.Tokenize(sent) && ResolveMixToken(t, vocab, spks, fs, closeMatch, isAlpha).Ok?
      ensures var route := RouteToken(t, vocab.lngs, spks, isAlpha).value;
              route.lng in vocab.voicePaths && route.spk in vocab.voicePaths[route.lng] &&
              var dir := vocab.voicePaths[route.lng][route.spk];
              var path := ResolveMixToken(t, vocab, spks, fs, closeMatch, isAlpha).value;
              dir <= path && (IsDirName(dir) ==> dir + "/" <= path)
    {
      MixTokenResolution(t, vocab, spks, fs, closeMatch, isAlpha);
      var route := RouteToken(t, vocab.lngs, spks, isAlpha).value;
      var path := vocab.wrdVocabs[route.lng];
      MixMatchIsPathCharacter(t, path, closeMatch);
      var m := closeMatch(t, Characters(path));
      if m.Some? {
        assert m.value[0] != '/';
      }
      ResolvedInDirectory(t, vocab.voicePaths[route.lng][route.spk], vocab.fileType, Characters(path),
                          vocab.defaultTokens[route.lng], fs, closeMatch);
    }
  }

  /** An ASCII word is routed to English and its speaker. */
  lemma EnglishWordRoutedToEnglish(isAlpha: char -> bool)
    requires forall c :: 'a' <= c <= 'z' ==> isAlpha(c)
    ensures RouteToken("hello", ["en", "be"], ["spk0", "spk1"], isAlpha) == Ok(Route("en", "spk0"))
  {
    assert CheckEnglish("hello", isAlpha);
  }

  /** A Bengali word with a vowel sign (U+09BE, not alphabetic) is routed to Bengali. */
  lemma BengaliWithSignRoutedToBengali(isAlpha: char -> bool)
    requires !isAlpha('\U{09BE}')
    ensures RouteToken("\U{09B8}\U{09BE}\U{0995}\U{09CD}\U{09B7}\U{09BE}\U{09CE}", ["en", "be"], ["spk0", "spk1"], isAlpha)
              == Ok(Route("be", "spk1"))
  {
    assert "\U{09B8}\U{09BE}\U{0995}\U{09CD}\U{09B7}\U{09BE}\U{09CE}"[1] == '\U{09BE}';
  }

  /** A Bengali word made only of letters is alphabetic under Unicode and so
      is routed to English, as the router is written. */
  lemma BengaliLettersRoutedToEnglish(isAlpha: char -> bool)
    requires isAlpha('\U{0995}') && isAlpha('\U{09B0}')
    ensures RouteToken("\U{0995}\U{09B0}", ["en", "be"], ["spk0", "spk1"], isAlpha) == Ok(Route("en", "spk0"))
  {
    assert CheckEnglish("\U{0995}\U{09B0}", isAlpha);
  }

  /** The clip paths of a mixed sentence's tokens, or the error of the first
      token that cannot be resolved. */
  function MixSentenceClips(tokens: seq<string>, vocab: Vocab.MixSpokenVocab, spks: seq<string>,
                            fs: set<string>, closeMatch: Matcher, isAlpha: char -> bool): (r: Result<seq<string>>)
    ensures r.Ok? ==> |r.value| == |tokens|
    decreases |tokens|
  {
    if tokens == [] then Ok([])
    else
      var p :- ResolveMixToken(tokens[0], vocab, spks, fs, closeMatch, isAlpha);
      var ps :- MixSentenceClips(tokens[1..], vocab, spks, fs, closeMatch, isAlpha);
      Ok([p] + ps)
  }

  /** When every token resolves, the sentence's clips are the tokens' clips in order. */
  lemma {:induction false} MixSentenceClipsAllResolved(tokens: seq<string>, paths: seq<string>, vocab: Vocab.MixSpokenVocab,
                                                       spks: seq<string>, fs: set<string>, closeMatch: Matcher,
                                                       isAlpha: char -> bool)
    requires |paths| == |tokens|
    requires forall j :: 0 <= j < |tokens| ==> ResolveMixToken(tokens[j], vocab, spks, fs, closeMatch, isAlpha) == Ok(paths[j])
    ensures MixSentenceClips(tokens, vocab, spks, fs, closeMatch, isAlpha) == Ok(paths)
  {
    if tokens != [] {
      MixSentenceClipsAllResolved(tokens[1..], paths[1..], vocab, spks, fs, closeMatch, isAlpha);
      assert [paths[0]] + paths[1..] == paths;
    }
  }

  /** A resolved sentence has one clip per token, each the clip of its token. */
  lemma {:induction false} MixSentenceClipsResolved(tokens: seq<string>, vocab: Vocab.MixSpokenVocab,
                                                    spks: seq<string>, fs: set<string>, closeMatch: Matcher,
                                                    isAlpha: char -> bool)
    requires MixSentenceClips(tokens, vocab, spks, fs, closeMatch, isAlpha).Ok?
    ensures var paths := MixSentenceClips(tokens, vocab, spks, fs, closeMatch, isAlpha).value;
      |paths| == |tokens| &&
      forall j :: 0 <= j < |tokens| ==> ResolveMixToken(tokens[j], vocab, spks, fs, closeMatch, isAlpha) == Ok(paths[j])
  {
    if tokens != [] {
      MixSentenceClipsResolved(tokens[1..], vocab, spks, fs, closeMatch, isAlpha);
      var paths := MixSentenceClips(tokens, vocab, spks, fs, closeMatch, isAlpha).value;
      forall j | 1 <= j < |tokens|
        ensures ResolveMixToken(tokens[j], vocab, spks, fs, closeMatch, isAlpha) == Ok(paths[j])
      {
        assert tokens[1..][j - 1] == tokens[j];
      }
    }
  }

  /** The first token that cannot be resolved decides the sentence's error. */
  lemma {:induction false} MixSentenceClipsFirstError(tokens: seq<string>, i: nat, vocab: Vocab.MixSpokenVocab,
                                                      spks: seq<string>, fs: set<string>, closeMatch: Matcher,
                                                      isAlpha: char -> bool)
    requires i < |tokens|
    requires forall j :: 0 <= j < i ==> ResolveMixToken(tokens[j], vocab, spks, fs, closeMatch, isAlpha).Ok?
    requires ResolveMixToken(tokens[i], vocab, spks, fs, closeMatch, isAlpha).Err?
    ensures MixSentenceClips(tokens, vocab, spks, fs, closeMatch, isAlpha)
              == Err(ResolveMixToken(tokens[i], vocab, spks, fs, closeMatch, isAlpha).error)
    decreases i
  {
    if i > 0 {
      MixSentenceClipsFirstError(tokens[1..], i - 1, vocab, spks, fs, closeMatch, isAlpha);
    }
  }

  /** Without `en` among the languages, the first token already fails with
      the `ValueError` of `lngs.index("en")`. */
  lemma MixSentenceClipsWithoutEnglish(tokens: seq<string>, vocab: Vocab.MixSpokenVocab, spks: seq<string>,
                                       fs: set<string>, closeMatch: Matcher, isAlpha: char -> bool)
    ensures "en" !in vocab.lngs && tokens != [] ==>
              MixSentenceClips(tokens, vocab, spks, fs, closeMatch, isAlpha) == Err(ValueError)
  {
    if "en" !in vocab.lngs && tokens != [] {
      assert ResolveMixToken(tokens[0], vocab, spks, fs, closeMatch, isAlpha) == Err(ValueError);
    }
  }

  /** The per-token loop of `find_mix_voice_paths`: the clip path of each
      token in order, stopping at the first token that cannot be resolved. */
  method ResolveMixTokens(tokens: seq<string>, vocab: Vocab.MixSpokenVocab, spks: seq<string>, fs: set<string>,
                          closeMatch: Matcher, isAlpha: char -> bool) returns (r: Result<seq<string>>)
    ensures "en" !in vocab.lngs && tokens != [] ==> r == Err(ValueError)
    ensures r == MixSentenceClips(tokens, vocab, spks, fs, closeMatch, isAlpha)
  {
    var paths: seq<string> := [];
    for i := 0 to |tokens|
      invariant |paths| == i
      invariant forall j :: 0 <= j < i ==> ResolveMixToken(tokens[j], vocab, spks, fs, closeMatch, isAlpha) == Ok(paths[j])
    {
      var resolved := ResolveMixToken(tokens[i], vocab, spks, fs, closeMatch, isAlpha);
      if resolved.Err? {
        MixSentenceClipsFirstError(tokens, i, vocab, spks, fs, closeMatch, isAlpha);
        MixSentenceClipsWithoutEnglish(tokens, vocab, spks, fs, closeMatch, isAlpha);
        return Err(resolved.error);
      }
      assert forall j :: 0 <= j < i ==> (paths + [resolved.value])[j] == paths[j];
      paths := paths + [resolved.value];
    }
    MixSentenceClipsAllResolved(tokens, paths, vocab, spks, fs, closeMatch, isAlpha);
    MixSentenceClipsWithoutEnglish(tokens, vocab, spks, fs, closeMatch, isAlpha);
    r := Ok(paths);
  }

  /** `find_mix_voice_paths`: one clip path per token of the normalised
      sentence, in token order, or the error of the first token that cannot
      be resolved; without `en` among the languages any token is a `ValueError`. */
  method FindMixVoicePaths(sent: string, vocab: Vocab.MixSpokenVocab, spks: seq<string>, fs: set<string>,
                           closeMatch: Matcher, isAlpha: char -> bool) returns (r: Result<seq<string>>)
    ensures "en" !in vocab.lngs && Normalizer.Tokenize(sent) != [] ==> r == Err(ValueError)
    ensures r == MixSentenceClips(Normalizer.Tokenize(sent), vocab, spks, fs, closeMatch, isAlpha)
  {
    var normalized := Normalizer.Normalize(sent);
    var tokens := Normalizer.Tokens(normalized);
    r := ResolveMixTokens(tokens, vocab, spks, fs, closeMatch, isAlpha);
  }
}
