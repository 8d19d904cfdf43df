# SpokenVocab speech stitching, modelled in Dafny

SpokenVocab turns a sentence into speech by splicing together recorded word
clips. `generate_speech.py` normalises the sentence into lookup tokens and
finds one clip per token in a speaker's directory. When a clip is missing it
falls back to the closest word in the word list, and failing that to the
language's default word. The clips are then decoded and joined, each pair
with a crossfade. The code has two modes:

- a single-language mode: `SpokenVocab`, `find_voice_paths` and
  `generate_stitched_voice`;
- a code-mixed mode for a language pair: `MixSpokenVocab`,
  `find_mix_voice_paths` with its English router `check_english`, and
  `generate_stitched_mix_voice`.

The project has six modules, one per file:

- `Outcomes` (`outcomes.dfy`): `Option`, `Result`, and the exceptions the
  code raises, as an `Error` datatype.
- `Normalizer` (`normalizer.dfy`): the punctuation table and `normalize`,
  with `str.split()` and the token comprehension. It proves:
  - which characters tokens contain;
  - that special tokens come out isolated and in order;
  - that normalising again keeps the tokens, although not the text.
- `Vocab` (`vocab.dfy`): the two vocabulary classes. Both are built once and
  then only read, so they are datatypes. `MixSpokenVocab.__init__` and its two
  builders are methods with loops that return a `Result`.
- `Resolver` (`resolver.dfy`): the exact-clip / close-match / default-word
  fallback chain, `find_voice_paths`, the router, and `find_mix_voice_paths`.
- `Stitcher` (`stitcher.dfy`): `smooth_stitched_speech` as a loop proved
  equal to a left fold of `append`.
- `Pipeline` (`pipeline.dfy`): the sentence guard, the decoding loop and
  stitching of both `generate_*` functions.

The outside world enters as parameters:

- The filesystem is the set `fs` of existing paths, and `os.path.exists`
  is membership in it.
- `difflib.get_close_matches(tok, cands, n=1)` is a function parameter,
  `closeMatch`. Its one relevant guarantee is the ghost predicate
  `IsCloseMatcher`: a match is one of the candidates and, for a non-empty
  query, shares a character with the query. An empty query has ratio 1 only
  with the empty word, so its match need share nothing. Lemmas that need the
  guarantee require it.
- `str.isalpha` of one character is the parameter `isAlpha`.
- `AudioSegment.from_file` is `decode`, and it fails with `FileNotFound`
  on a path outside `fs`.
- `AudioSegment.append(other, crossfade)` is `append`.
- The word-list file's lines are a parameter of `NewSpokenVocab`.

The model follows the code as written, including behaviour a caller may not
expect:

- `normalize` strips newlines at both ends of the sentence, not only at
  the end (line 150).
- An unknown speaker is a `KeyError` (lines 164 and 272). There is no
  fallback to the default word.
- A close match is used whether or not its clip exists (lines 178-189). A
  fallback clip that does not exist is only reported. Its path is kept, and decoding
  then fails with `FileNotFound`.
- The router uses Unicode `isalpha` (lines 242-245). A Bengali word made
  only of letters is therefore routed to English
  (`BengaliLettersRoutedToEnglish`). Any token with a character that is not
  alphabetic goes to the other language: a vowel sign, a virama, an
  anusvara, a digit, or `@`, `$` and `%` (`NonAlphabeticRoutedToOther`,
  `BengaliWithSignRoutedToBengali`).
- `MixSpokenVocab.build_word_vocabs` (lines 129-130) stores each language's word-list PATH,
  not its words. `find_mix_voice_paths` then hands that string to
  `get_close_matches`, so the candidates are the path's characters
  (`MixMatchIsPathCharacter`).
- Normalisation is idempotent only on tokens. On text, a special token is
  padded again on every pass (`NormalizeNotIdempotentOnText`,
  `NormalizeIdempotentOnTokens`).
- Repeating a language in `lngs` keeps the value zipped last for it
  (`DuplicateLanguageLastWins`).

## Model

| member | source | states |
|---|---|---|
| Normalizer.BuildPunctuation | generate_speech.py:16-19 | the loop that removes each special token from `string.punctuation` leaves exactly the characters of `Punctuation` |
| Normalizer.PunctuationMembers | generate_speech.py:16-19 | a character is in the deletion table iff it is ASCII punctuation and not one of `@$%` |
| Normalizer.SpaceIsNotPunctuation | generate_speech.py:16-19 | the table never deletes the space that padding inserts |
| Normalizer.LeadingNewlines | generate_speech.py:150 | counts exactly the newlines that open the text |
| Normalizer.TrailingNewlines | generate_speech.py:150 | counts exactly the newlines that close the text |
| Normalizer.StripNewlines | generate_speech.py:150 | the stripped text is a slice of the input with no newline at either end |
| Normalizer.StripNewlinesSplit | generate_speech.py:150 | the input is the stripped text between a run of newlines before and a run after |
| Normalizer.StripKeepsInner | generate_speech.py:150 | text with no newline at either end is left unchanged |
| Normalizer.LowerChar | generate_speech.py:151 | the lowered character is not upper case, and only an upper-case character changes |
| Normalizer.LowerChars | generate_speech.py:151 | lower-cased text has no upper-case letter |
| Normalizer.TranslateMembers | generate_speech.py:152 | a character survives the translation iff it was in the text and not in the table |
| Normalizer.PadWithExtend | generate_speech.py:153-154 | one more `replace` pass pads one more token: the passes compose into padding with the whole token list |
| Normalizer.PadSingle | generate_speech.py:153-154 | a special character is padded with a space each side and any other is kept; padding twice doubles the spaces |
| Normalizer.PadCons | generate_speech.py:153-154 | padding works character by character, once and twice |
| Normalizer.PadChars | generate_speech.py:153-154 | padding adds only spaces |
| Normalizer.PadBetweenNewlines | generate_speech.py:150-154 | padding leaves the newline runs around a text in place |
| Normalizer.NormalizedPlain | generate_speech.py:147-155 | text with no newline at its ends, no upper case and no table character is normalised by padding alone |
| Normalizer.Normalize | generate_speech.py:147-155 | the strip, lower, translate and replace reassignments compute `Normalized(sent)` |
| Normalizer.NormalizedChars | generate_speech.py:147-155 | a normalised sentence has no upper-case letter and no deleted punctuation |
| Normalizer.NonEmpty | generate_speech.py:169 | keeps exactly the non-empty tokens, and is the identity when none is empty |
| Normalizer.SplitFromWords | generate_speech.py:169 | every word `str.split()` yields is non-empty, has no whitespace, and is made of input characters |
| Normalizer.SplitSpaceFirst | generate_speech.py:169 | a whitespace character ends the current word |
| Normalizer.SplitWordFirst | generate_speech.py:169 | a non-space character extends the current word |
| Normalizer.SplitPadded | generate_speech.py:169 | a character padded with spaces is a word of its own |
| Normalizer.SplitDoublePadded | generate_speech.py:169 | a character padded twice is still a word of its own |
| Normalizer.SplitAllSpaces | generate_speech.py:169 | whitespace alone yields no word |
| Normalizer.SplitTrailingSpaces | generate_speech.py:169 | trailing whitespace adds no word |
| Normalizer.SplitLeadingSpaces | generate_speech.py:169 | leading whitespace adds no word |
| Normalizer.TokensAreSplit | generate_speech.py:169 | the `if tok` filter removes nothing from `str.split()` |
| Normalizer.ConcatAppend | generate_speech.py:169 | joining the words of a concatenation joins the two joins |
| Normalizer.ConcatSplit | generate_speech.py:169 | the words of a split, put back together, are the text without its whitespace |
| Normalizer.TokensWellFormed | generate_speech.py:147-169 | every token is non-empty, without whitespace, upper case or deleted punctuation |
| Normalizer.SpecialsWithoutSpaces | generate_speech.py:169 | dropping whitespace keeps the special characters in order |
| Normalizer.SpecialsStrip | generate_speech.py:150 | stripping newlines keeps the special characters in order |
| Normalizer.SpecialsLower | generate_speech.py:151 | lower-casing keeps the special characters in order |
| Normalizer.SpecialsTranslate | generate_speech.py:152 | the translation keeps the special characters in order |
| Normalizer.SpecialsPad | generate_speech.py:153-154 | padding keeps the special characters in order |
| Normalizer.SplitPadIsolates | generate_speech.py:153-169 | after padding, a word containing a special character is that character alone |
| Normalizer.SpecialsIsolated | generate_speech.py:147-169 | every `@`, `$` or `%` of a sentence's tokens is a token on its own |
| Normalizer.SpecialsInOrder | generate_speech.py:147-169 | the tokens carry exactly the sentence's special characters, in sentence order |
| Normalizer.RenormalizeOnlyPads | generate_speech.py:147-155 | normalising a normalised sentence only strips and pads it again |
| Normalizer.SplitPadTwice | generate_speech.py:153-169 | padding twice gives the same words as padding once |
| Normalizer.SplitPadStrip | generate_speech.py:150-169 | stripping newlines before padding does not change the words |
| Normalizer.NormalizeIdempotentOnTokens | generate_speech.py:147-169 | the tokens of a normalised sentence are the sentence's tokens |
| Normalizer.NormalizeNotIdempotentOnText | generate_speech.py:147-155 | for every special character, normalising twice gives different text than normalising once |
| Vocab.NatToString | generate_speech.py:52 | `str(i)` has at least one digit, and one digit exactly when `i < 10` |
| Vocab.NatToStringInjective | generate_speech.py:52 | distinct speaker numbers print differently |
| Vocab.SpeakerIdInjective | generate_speech.py:52 | distinct speaker numbers give distinct `spk{i}` names |
| Vocab.SpeakerIdsCount | generate_speech.py:52-53 | `range(num_spk)` yields exactly `num_spk` speaker names |
| Vocab.SpeakerDirs | generate_speech.py:51-53 | the speaker map's keys are `spk0`..`spk{n-1}`, each mapped to `root/lng/spk{i}`; `build_voice_paths` (lines 113-114) builds the same map per language |
| Vocab.SpeakerDirsShape | generate_speech.py:51-53 | the map has `n` entries, and no two speakers share a directory |
| Vocab.StripLines | generate_speech.py:64-66 | one word per line of the file, in order, each with its surrounding newlines stripped |
| Vocab.NewSpokenVocab | generate_speech.py:40-49 | `wav` clips; default token `অইচি` for `be` and `a` otherwise; the speaker map; the stripped word list |
| Vocab.PairMap | generate_speech.py:101-103 | the dictionary of equally long key and value lists has exactly the listed keys |
| Vocab.PairMapLastWins | generate_speech.py:101-103 | a key maps to the value of its last pair |
| Vocab.Shorter | generate_speech.py:101-103 | `zip` stops at the shorter list |
| Vocab.ZipMap | generate_speech.py:101-103 | the zipped dictionary's keys are exactly the keys within the shorter length |
| Vocab.ZipMapLastWins | generate_speech.py:101-103 | a zipped key maps to the value of its last pair |
| Vocab.DuplicateLanguageLastWins | generate_speech.py:101-103 | with `lngs = ["en", "en"]` and `num_spks = [1, 3]`, English gets 3 speakers |
| Vocab.LngsOrDefault | generate_speech.py:82-83 | an omitted language list is `en`, `be`; a given one is used as is |
| Vocab.NumSpksOrDefault | generate_speech.py:80-81 | an omitted speaker-count list is one speaker per language; a given one is used as is |
| Vocab.DefaultMixAccepts | generate_speech.py:80-105 | with the default languages and speaker counts, construction succeeds iff at least two word-list paths are given |
| Vocab.BuildVoicePaths | generate_speech.py:107-116 | succeeds iff every language has a speaker count; then one speaker map per language; otherwise a `KeyError` naming the first language, in list order, without one |
| Vocab.BuildWordVocabs | generate_speech.py:118-132 | succeeds iff every language has a word-list path; then each language maps to its PATH; otherwise a `KeyError` naming the first language, in list order, without one |
| Vocab.BuildDefaultTokens | generate_speech.py:90-99 | succeeds iff every language is `en` or `be`, giving each its default token; otherwise `NotImplementedError` |
| Vocab.NewMixSpokenVocab | generate_speech.py:79-105 | the `AssertionError` for a language count other than two; `NotImplementedError` for a language other than `en`/`be`; success exactly when the arguments are accepted; for too short a speaker-count or path list, the `KeyError` of the first language the zipped counts lack, else of the first the zipped paths lack; on success a well-formed vocabulary with per-language default tokens, speaker maps and word-list paths from the zipped arguments |
| Resolver.Join | generate_speech.py:175 | `os.path.join`: an absolute file name replaces the directory; otherwise the directory, one `/` unless it is empty or already ends in `/`, then the file name |
| Resolver.ResolveClip | generate_speech.py:173-190 | the exact clip is chosen iff it exists; otherwise the close match's clip if there is one, else the default word's clip, whether or not that clip exists |
| Resolver.ResolvedInDirectory | generate_speech.py:173-190 | a clip whose word is not an absolute path is the speaker directory, a `/` and a file name, so `spk1`'s clips are not taken for `spk10`'s |
| Resolver.SpeakerDirsAreDirNames | generate_speech.py:51-53 | every speaker directory `root/lng/spk{i}` ends in a digit, so the clip paths joined to it follow a `/` |
| Resolver.TokensRelative | generate_speech.py:168-169 | no token starts with `/`, which the normaliser deletes |
| Resolver.ResolveTokens | generate_speech.py:172-191 | the loop appends the clip of each token in token order |
| Resolver.FindVoicePaths | generate_speech.py:158-191 | an unknown speaker is a `KeyError`; otherwise one clip per token of the normalised sentence, in order |
| Resolver.SentenceInSpeakerDirectory | generate_speech.py:158-191 | with a word list of relative words, every clip of a sentence is the chosen speaker's directory followed by `/` |
| Resolver.FirstIndex | generate_speech.py:260 | `list.index`: present iff the item is in the list, and then its first position |
| Resolver.CheckEnglishCharacters | generate_speech.py:242-245 | `check_english` is `str.isalpha`: true iff the token is non-empty and every character is alphabetic; one non-alphabetic character makes it false |
| Resolver.RouteToken | generate_speech.py:242-268 | no `en` is a `ValueError`; a speaker list too short is an `IndexError`; an alphabetic token goes to `en` with the speaker at `en`'s position, any other token to the mirrored position's language and speaker; always succeeds when `en` is present and there are enough speakers |
| Resolver.RoutePairOther | generate_speech.py:259-268 | with a language pair, a non-alphabetic token goes to the other language and its speaker |
| Resolver.NonAlphabeticRoutedToOther | generate_speech.py:259-268 | a token with any non-alphabetic character goes to the mirrored position's language and speaker |
| Resolver.EnglishWordRoutedToEnglish | generate_speech.py:242-268 | `hello` is routed to `en` and its speaker |
| Resolver.BengaliWithSignRoutedToBengali | generate_speech.py:242-268 | a Bengali word containing a vowel sign is routed to `be` and its speaker |
| Resolver.BengaliLettersRoutedToEnglish | generate_speech.py:242-268 | a Bengali word made of letters only is routed to `en` |
| Resolver.CharactersAreSingletons | generate_speech.py:280 | iterating over a string gives one candidate per character, each that one character |
| Resolver.ResolveMixToken | generate_speech.py:259-291 | a routing error is the token's error |
| Resolver.MixTokenResolution | generate_speech.py:259-291 | a resolved token is the clip chosen in its routed language's speaker directory; in a well-formed vocabulary, the only failure after routing is a `KeyError` for the speaker |
| Resolver.MixMatchIsPathCharacter | generate_speech.py:273-280 | in mixed mode a close match is one character of the word-list path and, for a non-empty token, of the token |
| Resolver.MixSentenceInSpeakerDirectory | generate_speech.py:259-291 | every clip of a mixed sentence is the directory of the speaker its token was routed to, followed by `/` |
| Resolver.MixSentenceClips | generate_speech.py:258-292 | a resolved sentence has one clip per token (its clips, its first error and the missing-`en` error are stated by the lemmas below) |
| Resolver.MixSentenceClipsAllResolved | generate_speech.py:258-292 | when every token resolves, the sentence's clips are the tokens' clips in order |
| Resolver.MixSentenceClipsResolved | generate_speech.py:258-292 | a resolved sentence has one clip per token, each the clip of its token |
| Resolver.MixSentenceClipsFirstError | generate_speech.py:258-292 | the first token that cannot be resolved decides the sentence's error |
| Resolver.MixSentenceClipsWithoutEnglish | generate_speech.py:258-261 | without `en` among the languages, a sentence with a token fails with the `ValueError` of `lngs.index("en")` |
| Resolver.ResolveMixTokens | generate_speech.py:258-292 | the loop gives the token-by-token clips or the first token's error; without `en` any token is a `ValueError` |
| Resolver.FindMixVoicePaths | generate_speech.py:239-292 | the clips of the normalised sentence's tokens, or the first token's error; without `en` a sentence with a token is a `ValueError` |
| Stitcher.FoldAppendSnoc | generate_speech.py:201-203 | stitching one more waveform is one more `append` at the end |
| Stitcher.FoldAppendConcat | generate_speech.py:201-203 | stitching a concatenation continues from the stitch of its first part |
| Stitcher.StitchPair | generate_speech.py:201-203 | two waveforms are stitched by a single crossfaded append |
| Stitcher.SmoothStitchedSpeech | generate_speech.py:194-204 | an empty list is an error; a single waveform comes back unchanged; otherwise the first waveform with the others appended in list order |
| Pipeline.Decoded | generate_speech.py:220-223 | one waveform per path, in path order: the i-th is the decoding of the i-th path |
| Pipeline.FirstMissing | generate_speech.py:220-223 | the first path that does not exist, or none exactly when all exist |
| Pipeline.LoadWaveforms | generate_speech.py:220-223 | the decoding loop succeeds iff every clip exists, giving the waveforms in path order; otherwise it fails on the first missing clip; the mixed pipeline's loop at lines 304-307 is the same |
| Pipeline.StitchClips | generate_speech.py:220-226 | `FileNotFound` for the first clip that does not exist; else the empty-list error when there is no clip; else the first clip's waveform with the others appended in order |
| Pipeline.SpeakersOrDefault | generate_speech.py:298-299 | an omitted speaker list is `spk0`, `spk0`; a given one is used as is |
| Pipeline.GenerateStitchedVoice | generate_speech.py:213-236 | an empty sentence is an `AssertionError`; an unknown speaker a `KeyError`; otherwise the stitch of the sentence's clips |
| Pipeline.GenerateStitchedMixVoice | generate_speech.py:295-320 | speakers default to `spk0, spk0`; an empty sentence is an `AssertionError`; otherwise the first path-finding error, or the stitch of the clips |
| Pipeline.PunctuationOnlySentence | generate_speech.py:213-226 | a sentence of punctuation alone passes the guard, has no token, and fails in stitching |
| Pipeline.StitchedExistingClips | generate_speech.py:220-226 | when every clip exists, the speech is the fold of the decoded clips in order; a single clip is its own waveform |

## Left out

- Normalizer.LowerChar: lower-cases ASCII `A`-`Z` only. Bengali has no case, but Python's `str.lower` also lowers non-ASCII capitals such as `É`, and the model leaves those unchanged.
- Resolver.ResolveClip: `difflib.get_close_matches` is an abstract parameter. Its ratio computation and 0.6 cut-off are not modelled beyond `IsCloseMatcher`.
- Resolver.ResolveClip: `os.path.exists` is exact membership in a set of paths. There is no path normalisation, and symbolic links are not followed.
- Resolver.ResolveMixToken: its contract states only the routing error. The lookups and the chosen clip are stated by `MixTokenResolution`.
- Resolver.RouteToken: `check_english` is `str.isalpha` through the abstract per-character `isAlpha`. The `isinstance` test is left out because tokens are always strings.
- The diagnostics that `find_voice_paths` and `find_mix_voice_paths` print for a missing fallback clip are not modelled. They print and carry on.
- Audio is abstract. The waveform type, decoding and `append` are parameters, so what a crossfade sounds like is not modelled. Nor is it shown that swapping two clips changes the speech, because that needs a concrete `append`.
- The saving branches of both `generate_*` functions are not modelled: `save_wav`, `os.makedirs`, the `time.time()` file name and `export`. They only write files.
- `np.asarray(...get_array_of_samples())` is not modelled. The model's result is the stitched waveform itself.
- `SpokenVocab.get_speech` and `MixSpokenVocab.get_speech` are not called anywhere, and are not modelled.
- `read_arguments`, `read_txt` and the `__main__` block are not modelled. They are command-line and file I/O.
- Reading the word-list file in `build_word_vocab` is not modelled. Its lines are a parameter of `NewSpokenVocab`, and a file that cannot be opened is not modelled.
- Default arguments are not modelled. These are `crossfade=100`, `spk="spk0"`, `lng="en"` and `num_spk=10` in the function and constructor signatures, and the command-line defaults. Every such parameter is explicit. Only defaults applied in a function body are modelled: `lngs` and `num_spks` (lines 80-83) and `spks` (lines 298-299).
- Machine integers do not arise. Speaker counts are unbounded integers, and a negative count gives no speakers, as `range` does.
