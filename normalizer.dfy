/** The sentence normaliser of generate_speech.py: strip the surrounding
    newlines, lower-case, delete punctuation except the three special tokens,
    pad each special token with spaces, and split on whitespace into the
    lookup tokens. */
module Normalizer {

  /** The special tokens kept by the normaliser and isolated as tokens. */
  const SpecTokens: string := "@$%"

  /** Python's `string.punctuation`: the 32 ASCII punctuation characters. */
  const AsciiPunctuation: string := "!\"#$%&'()*+,-./:;<=>?@[\\]^_`{|}~"

  predicate IsSpecial(c: char) { c in SpecTokens }

  /** Python's `str.isspace`: exactly the code points `str.split()` separates on. */
  predicate IsSpace(c: char) {
    var n := c as int;
    9 <= n <= 13 || 28 <= n <= 32 || n == 0x85 || n == 0xA0 || n == 0x1680
    || 0x2000 <= n <= 0x200A || n == 0x2028 || n == 0x2029 || n == 0x202F
    || n == 0x205F || n == 0x3000
  }

  predicate IsUpper(c: char) { 'A' <= c <= 'Z' }

  // ---------------------------------------------------------------------
  // Character-wise rewriting: the common shape of `str.lower`,
  // `str.translate` and the single-character `str.replace` calls.
  // ---------------------------------------------------------------------

  /** Replaces every character `c` of `s` by the string `f(c)`. */
  function MapChars(s: string, f: char -> string): string
    decreases |s|
  {
    if s == [] then [] else f(s[0]) + MapChars(s[1..], f)
  }

  lemma {:induction false} MapCharsAppend(a: string, b: string, f: char -> string)
    ensures MapChars(a + b, f) == MapChars(a, f) + MapChars(b, f)
    decreases |a|
  {
    if a == [] {
      assert a + b == b;
    } else {
      assert (a + b)[0] == a[0];
      assert (a + b)[1..] == a[1..] + b;
      MapCharsAppend(a[1..], b, f);
    }
  }

  lemma MapCharsCons(x: char, s: string, f: char -> string)
    ensures MapChars([x] + s, f) == f(x) + MapChars(s, f)
  {
    assert ([x] + s)[1..] == s;
  }

  lemma MapCharsSingle(x: char, f: char -> string)
    ensures MapChars([x], f) == f(x)
  {
    MapCharsCons(x, [], f);
    assert [x] + [] == [x];
  }

  lemma MapCharsTriple(x: char, y: char, z: char, f: char -> string)
    ensures MapChars([x, y, z], f) == f(x) + f(y) + f(z)
  {
    MapCharsSingle(z, f);
    MapCharsCons(y, [z], f);
    assert [y] + [z] == [y, z];
    MapCharsCons(x, [y, z], f);
    assert [x] + [y, z] == [x, y, z];
  }

  /** Rewriting with `f` and then with `g` is rewriting once with `h` when
      `h` does what `f` then `g` do to each character. */
  lemma {:induction false} MapCharsFuse(s: string, f: char -> string, g: char -> string, h: char -> string)
    requires forall c :: c in s ==> MapChars(f(c), g) == h(c)
    ensures MapChars(MapChars(s, f), g) == MapChars(s, h)
    decreases |s|
  {
    if s != [] {
      MapCharsAppend(f(s[0]), MapChars(s[1..], f), g);
      assert forall c :: c in s[1..] ==> c in s;
      MapCharsFuse(s[1..], f, g, h);
    }
  }

  /** A rewriting that keeps every character of `s` leaves `s` unchanged. */
  lemma {:induction false} MapCharsKeepsAll(s: string, f: char -> string)
    requires forall c :: c in s ==> f(c) == [c]
    ensures MapChars(s, f) == s
    decreases |s|
  {
    if s != [] {
      assert forall c :: c in s[1..] ==> c in s;
      MapCharsKeepsAll(s[1..], f);
      assert s == [s[0]] + s[1..];
    }
  }

  /** A rewriting that deletes every character of `s` yields the empty string. */
  lemma {:induction false} MapCharsDropsAll(s: string, f: char -> string)
    requires forall c :: c in s ==> f(c) == []
    ensures MapChars(s, f) == []
    decreases |s|
  {
    if s != [] {
      assert forall c :: c in s[1..] ==> c in s;
      MapCharsDropsAll(s[1..], f);
    }
  }

  /** Every character of the output comes from the piece of some input character. */
  lemma {:induction false} MapCharsFrom(s: string, f: char -> string, d: char)
    requires d in MapChars(s, f)
    ensures exists c :: c in s && d in f(c)
    decreases |s|
  {
    if d !in f(s[0]) {
      MapCharsFrom(s[1..], f, d);
      var c :| c in s[1..] && d in f(c);
      assert c in s;
    }
  }

  // ---------------------------------------------------------------------
  // The individual rewriting steps.
  // ---------------------------------------------------------------------

  /** `str.lower`, on the ASCII letters. */
  function LowerChar(c: char): (r: char)
    ensures !IsUpper(r)
    ensures r == c || IsUpper(c)
  {
    if IsUpper(c) then (c as int + 32) as char else c
  }

  function Lower(s: string): string {
    MapChars(s, c => [LowerChar(c)])
  }

  /** `str.translate` with a deletion table: drops every character of `table`. */
  function Translate(s: string, table: string): string {
    MapChars(s, c => if c in table then [] else [c])
  }

  lemma TranslateMembers(s: string, table: string)
    ensures forall c :: c in Translate(s, table) <==> c in s && c !in table
  {
    forall c | c in Translate(s, table)
      ensures c in s && c !in table
    {
      MapCharsFrom(s, c => if c in table then [] else [c], c);
    }
    forall c | c in s && c !in table
      ensures c in Translate(s, table)
    {
      var i :| 0 <= i < |s| && s[i] == c;
      assert s == s[..i] + [c] + s[i + 1..];
      MapCharsAppend(s[..i] + [c], s[i + 1..], c => if c in table then [] else [c]);
      MapCharsAppend(s[..i], [c], c => if c in table then [] else [c]);
      MapCharsSingle(c, c => if c in table then [] else [c]);
    }
  }

  /** The padding `str.replace(tok, f" {tok} ")` does, for every `tok` in `ts` at once. */
  function PadWith(s: string, ts: string): string {
    MapChars(s, c => if c in ts then [' ', c, ' '] else [c])
  }

  function Pad(s: string): string {
    PadWith(s, SpecTokens)
  }

  /** One more `replace` pads one more token. */
  lemma PadWithExtend(s: string, ts: string, t: char)
    requires t !in ts && t != ' '
    ensures PadWith(PadWith(s, ts), [t]) == PadWith(s, ts + [t])
  {
    forall c | c in s
      ensures MapChars((c => if c in ts then [' ', c, ' '] else [c])(c),
                       c => if c in [t] then [' ', c, ' '] else [c])
           == (c => if c in ts + [t] then [' ', c, ' '] else [c])(c)
    {
      if c in ts {
        MapCharsTriple(' ', c, ' ', c => if c in [t] then [' ', c, ' '] else [c]);
      } else {
        MapCharsSingle(c, c => if c in [t] then [' ', c, ' '] else [c]);
      }
    }
    MapCharsFuse(s, c => if c in ts then [' ', c, ' '] else [c],
                 c => if c in [t] then [' ', c, ' '] else [c],
                 c => if c in ts + [t] then [' ', c, ' '] else [c]);
  }

  /** The characters of `s` that are special tokens, in order. */
  function Specials(s: string): string {
    MapChars(s, c => if IsSpecial(c) then [c] else [])
  }

  function WithoutSpaces(s: string): string {
    MapChars(s, c => if IsSpace(c) then [] else [c])
  }

  // ---------------------------------------------------------------------
  // The punctuation table built at module load.
  // ---------------------------------------------------------------------

  /** The table `normalize` deletes: `string.punctuation` without `@`, `$` and `%`. */
  const Punctuation: string := "!\"#&'()*+,-./:;<=>?[\\]^_`{|}~"

  lemma PunctuationMembers(c: char)
    ensures c in Punctuation <==> c in AsciiPunctuation && !IsSpecial(c)
  {
  }

  /** The module-level loop: removes each special token from
      `string.punctuation` in turn, leaving the characters of `Punctuation`. */
  method BuildPunctuation() returns (p: string)
    ensures forall c :: c in p <==> c in Punctuation
  {
    p := AsciiPunctuation;
    for i := 0 to |SpecTokens|
      invariant forall c :: c in p <==> c in AsciiPunctuation && c !in SpecTokens[..i]
    {
      TranslateMembers(p, [SpecTokens[i]]);
      assert SpecTokens[..i + 1] == SpecTokens[..i] + [SpecTokens[i]];
      p := Translate(p, [SpecTokens[i]]);
    }
    assert SpecTokens[..|SpecTokens|] == SpecTokens;
    forall c ensures c in p <==> c in Punctuation {
      PunctuationMembers(c);
    }
  }

  lemma SpaceIsNotPunctuation()
    ensures ' ' !in Punctuation
  {
    assert ' ' !in AsciiPunctuation;
    PunctuationMembers(' ');
  }

  // ---------------------------------------------------------------------
  // Newline stripping: `str.strip("\n")`.
  // ---------------------------------------------------------------------

  /** Number of newlines that open `s`. */
  function LeadingNewlines(s: string): (k: nat)
    ensures k <= |s|
    ensures forall i :: 0 <= i < k ==> s[i] == '\n'
    ensures k < |s| ==> s[k] != '\n'
    decreases |s|
  {
    if s != [] && s[0] == '\n' then 1 + LeadingNewlines(s[1..]) else 0
  }

  /** Number of newlines that close `s`. */
  function TrailingNewlines(s: string): (k: nat)
    ensures k <= |s|
    ensures forall i :: |s| - k <= i < |s| ==> s[i] == '\n'
    ensures k < |s| ==> s[|s| - 1 - k] != '\n'
    decreases |s|
  {
    if s != [] && s[|s| - 1] == '\n' then 1 + TrailingNewlines(s[..|s| - 1]) else 0
  }

  /** `s.strip("\n")`: the part of `s` between its opening and closing runs of newlines. */
  function StripNewlines(s: string): (r: string)
    ensures r == [] || (r[0] != '\n' && r[|r| - 1] != '\n')
    ensures exists i, j :: 0 <= i <= j <= |s| && r == s[i..j]
              && (forall k :: 0 <= k < i ==> s[k] == '\n')
              && (forall k :: j <= k < |s| ==> s[k] == '\n')
  {
    var i := LeadingNewlines(s);
    var j := |s| - TrailingNewlines(s[i..]);
    assert s[i..][..j - i] == s[i..j];
    s[i..j]
  }

  /** The pieces of `s` that StripNewlines removes, as a decomposition. */
  lemma StripNewlinesSplit(s: string) returns (pre: string, post: string)
    ensures s == pre + StripNewlines(s) + post
    ensures forall c :: c in pre ==> c == '\n'
    ensures forall c :: c in post ==> c == '\n'
  {
    var i, j :| 0 <= i <= j <= |s| && StripNewlines(s) == s[i..j]
                && (forall k :: 0 <= k < i ==> s[k] == '\n')
                && (forall k :: j <= k < |s| ==> s[k] == '\n');
    pre, post := s[..i], s[j..];
    assert s == s[..i] + s[i..j] + s[j..];
  }

  // ---------------------------------------------------------------------
  // normalize (generate_speech.py:147-155)
  // ---------------------------------------------------------------------

  /** What `normalize` returns. */
  function Normalized(sent: string): string {
    Pad(Translate(Lower(StripNewlines(sent)), Punctuation))
  }

  /** `normalize`, step by step as the source reassigns `sent`. */
  method Normalize(sent: string) returns (r: string)
    ensures r == Normalized(sent)
  {
    r := StripNewlines(sent);
    r := Lower(r);
    r := Translate(r, Punctuation);
    ghost var base := r;
    MapCharsKeepsAll(base, c => if c in SpecTokens[..0] then [' ', c, ' '] else [c]);
    for i := 0 to |SpecTokens|
      invariant r == PadWith(base, SpecTokens[..i])
    {
      PadWithExtend(base, SpecTokens[..i], SpecTokens[i]);
      assert SpecTokens[..i + 1] == SpecTokens[..i] + [SpecTokens[i]];
      r := PadWith(r, [SpecTokens[i]]);
    }
    assert SpecTokens[..|SpecTokens|] == SpecTokens;
  }

  // ---------------------------------------------------------------------
  // str.split() and the token list comprehension
  // ---------------------------------------------------------------------

  /** The word read so far, as a list of at most one token. */
  function Flush(w: string): seq<string> {
    if w == [] then [] else [w]
  }

  /** `str.split()` of `s`, continuing a word `w` already read. */
  function SplitFrom(s: string, w: string): seq<string>
    decreases |s|
  {
    if s == [] then Flush(w)
    else if IsSpace(s[0]) then Flush(w) + SplitFrom(s[1..], [])
    else SplitFrom(s[1..], w + [s[0]])
  }

  function Split(s: string): seq<string> {
    SplitFrom(s, [])
  }

  /** Each word is non-empty, free of whitespace, and made of characters of the input. */
  lemma {:induction false} SplitFromWords(s: string, w: string)
    requires forall c :: c in w ==> !IsSpace(c)
    ensures forall t :: t in SplitFrom(s, w) ==>
              t != [] && forall j :: 0 <= j < |t| ==> !IsSpace(t[j]) && (t[j] in w || t[j] in s)
    decreases |s|
  {
    if s != [] {
      if IsSpace(s[0]) {
        SplitFromWords(s[1..], []);
      } else {
        SplitFromWords(s[1..], w + [s[0]]);
      }
    }
  }

  /** `[tok for tok in ts if tok]`. */
  function NonEmpty(ts: seq<string>): (r: seq<string>)
    ensures forall t :: t in r <==> t in ts && t != []
    ensures (forall t :: t in ts ==> t != []) ==> r == ts
    decreases |ts|
  {
    if ts == [] then []
    else if ts[0] == [] then
      assert ts[0] in ts;
      NonEmpty(ts[1..])
    else
      assert ts == [ts[0]] + ts[1..];
      assert forall t :: t in ts[1..] ==> t in ts;
      [ts[0]] + NonEmpty(ts[1..])
  }

  /** The tokens of a normalised sentence (generate_speech.py:169, 255). */
  function Tokens(normalized: string): seq<string> {
    NonEmpty(Split(normalized))
  }

  /** The tokens the two path finders look up for a raw sentence. */
  function Tokenize(sent: string): seq<string> {
    Tokens(Normalized(sent))
  }

  // ---------------------------------------------------------------------
  // Facts about splitting used below
  // ---------------------------------------------------------------------

  lemma SplitSpaceFirst(c: char, x: string, w: string)
    requires IsSpace(c)
    ensures SplitFrom([c] + x, w) == Flush(w) + SplitFrom(x, [])
  {
    assert ([c] + x)[1..] == x;
  }

  lemma SplitWordFirst(c: char, x: string, w: string)
    requires !IsSpace(c)
    ensures SplitFrom([c] + x, w) == SplitFrom(x, w + [c])
  {
    assert ([c] + x)[1..] == x;
  }

  /** A character padded with spaces is a token of its own. */
  lemma SplitPadded(c: char, x: string, w: string)
    requires !IsSpace(c)
    ensures SplitFrom([' ', c, ' '] + x, w) == Flush(w) + [[c]] + SplitFrom(x, [])
  {
    SplitSpaceFirst(' ', [c, ' '] + x, w);
    assert [' ', c, ' '] + x == [' '] + ([c, ' '] + x);
    SplitWordFirst(c, [' '] + x, []);
    assert [c, ' '] + x == [c] + ([' '] + x);
    assert [] + [c] == [c];
    SplitSpaceFirst(' ', x, [c]);
  }

  lemma {:induction false} SplitAllSpaces(n: string, w: string)
    requires forall c :: c in n ==> IsSpace(c)
    ensures SplitFrom(n, w) == Flush(w)
    decreases |n|
  {
    if n != [] {
      assert forall c :: c in n[1..] ==> c in n;
      SplitAllSpaces(n[1..], []);
    }
  }

  lemma {:induction false} SplitTrailingSpaces(x: string, n: string, w: string)
    requires forall c :: c in n ==> IsSpace(c)
    ensures SplitFrom(x + n, w) == SplitFrom(x, w)
    decreases |x|
  {
    if x == [] {
      assert x + n == n;
      SplitAllSpaces(n, w);
    } else {
      assert (x + n)[0] == x[0];
      assert (x + n)[1..] == x[1..] + n;
      if IsSpace(x[0]) {
        SplitTrailingSpaces(x[1..], n, []);
      } else {
        SplitTrailingSpaces(x[1..], n, w + [x[0]]);
      }
    }
  }

  lemma {:induction false} SplitLeadingSpaces(n: string, x: string)
    requires forall c :: c in n ==> IsSpace(c)
    ensures SplitFrom(n + x, []) == SplitFrom(x, [])
    decreases |n|
  {
    if n == [] {
      assert n + x == x;
    } else {
      assert (n + x)[0] == n[0];
      assert (n + x)[1..] == n[1..] + x;
      assert n[0] in n;
      assert forall c :: c in n[1..] ==> c in n;
      SplitLeadingSpaces(n[1..], x);
    }
  }

  lemma PadSingle(c: char)
    ensures Pad([c]) == if IsSpecial(c) then [' ', c, ' '] else [c]
    ensures IsSpecial(c) ==> Pad(Pad([c])) == [' ', ' ', c, ' ', ' ']
    ensures !IsSpecial(c) ==> Pad(Pad([c])) == [c]
  {
    var f := c => if c in SpecTokens then [' ', c, ' '] else [c];
    MapCharsSingle(c, f);
    MapCharsTriple(' ', c, ' ', f);
  }

  /** Padding splits at each character. */
  lemma PadCons(c: char, rest: string)
    ensures Pad([c] + rest) == Pad([c]) + Pad(rest)
    ensures Pad(Pad([c] + rest)) == Pad(Pad([c])) + Pad(Pad(rest))
  {
    var f := c => if c in SpecTokens then [' ', c, ' '] else [c];
    MapCharsAppend([c], rest, f);
    MapCharsAppend(Pad([c]), Pad(rest), f);
  }

  /** A character padded twice is still a token of its own. */
  lemma SplitDoublePadded(c: char, x: string, w: string)
    requires !IsSpace(c)
    ensures SplitFrom([' ', ' ', c, ' ', ' '] + x, w) == Flush(w) + [[c]] + SplitFrom(x, [])
  {
    assert [' ', ' ', c, ' ', ' '] + x == [' '] + ([' ', c, ' '] + ([' '] + x));
    SplitSpaceFirst(' ', [' ', c, ' '] + ([' '] + x), w);
    SplitPadded(c, [' '] + x, []);
    SplitSpaceFirst(' ', x, []);
  }

  /** Padding a second time splits into the same words. */
  lemma {:induction false} SplitPadTwice(z: string, w: string)
    ensures SplitFrom(Pad(Pad(z)), w) == SplitFrom(Pad(z), w)
    decreases |z|
  {
    if z != [] {
      var c, rest := z[0], z[1..];
      assert z == [c] + rest;
      PadCons(c, rest);
      PadSingle(c);
      if IsSpecial(c) {
        SplitDoublePadded(c, Pad(Pad(rest)), w);
        SplitPadded(c, Pad(rest), w);
        SplitPadTwice(rest, []);
      } else if IsSpace(c) {
        SplitSpaceFirst(c, Pad(Pad(rest)), w);
        SplitSpaceFirst(c, Pad(rest), w);
        SplitPadTwice(rest, []);
      } else {
        SplitWordFirst(c, Pad(Pad(rest)), w);
        SplitWordFirst(c, Pad(rest), w);
        SplitPadTwice(rest, w + [c]);
      }
    }
  }

  /** Whatever surrounds them, the special tokens of a padded string split apart. */
  lemma {:induction false} SplitPadIsolates(y: string, w: string)
    requires forall c :: c in w ==> !IsSpecial(c)
    ensures forall t, j :: t in SplitFrom(Pad(y), w) && 0 <= j < |t| && IsSpecial(t[j]) ==> t == [t[j]]
    decreases |y|
  {
    if y != [] {
      var c, rest := y[0], y[1..];
      var f := c => if c in SpecTokens then [' ', c, ' '] else [c];
      assert Pad(y) == f(c) + Pad(rest);
      if IsSpecial(c) {
        SplitPadded(c, Pad(rest), w);
        SplitPadIsolates(rest, []);
      } else if IsSpace(c) {
        SplitSpaceFirst(c, Pad(rest), w);
        SplitPadIsolates(rest, []);
      } else {
        SplitWordFirst(c, Pad(rest), w);
        SplitPadIsolates(rest, w + [c]);
      }
    }
  }

  /** Concatenation of a list of strings. */
  function Concat(ts: seq<string>): string {
    if ts == [] then [] else ts[0] + Concat(ts[1..])
  }

  lemma {:induction false} ConcatAppend(a: seq<string>, b: seq<string>)
    ensures Concat(a + b) == Concat(a) + Concat(b)
    decreases |a|
  {
    if a == [] {
      assert a + b == b;
    } else {
      assert (a + b)[1..] == a[1..] + b;
      ConcatAppend(a[1..], b);
    }
  }

  /** Splitting loses exactly the whitespace. */
  lemma {:induction false} ConcatSplit(s: string, w: string)
    ensures Concat(SplitFrom(s, w)) == w + WithoutSpaces(s)
    decreases |s|
  {
    if s == [] {
    } else if IsSpace(s[0]) {
      ConcatAppend(Flush(w), SplitFrom(s[1..], []));
      ConcatSplit(s[1..], []);
    } else {
      ConcatSplit(s[1..], w + [s[0]]);
    }
  }

  // ---------------------------------------------------------------------
  // Properties of the normaliser
  // ---------------------------------------------------------------------

  /** A well-formed lookup token. */
  predicate IsToken(t: string) {
    t != [] && forall j :: 0 <= j < |t| ==> !IsSpace(t[j]) && !IsUpper(t[j]) && t[j] !in Punctuation
  }

  lemma LowerChars(s: string)
    ensures forall c :: c in Lower(s) ==> !IsUpper(c)
  {
    forall c | c in Lower(s) ensures !IsUpper(c) {
      MapCharsFrom(s, c => [LowerChar(c)], c);
    }
  }

  /** Padding adds only spaces around special tokens. */
  lemma PadChars(s: string)
    ensures forall c :: c in Pad(s) ==> c in s || c == ' '
  {
    forall c | c in Pad(s) ensures c in s || c == ' ' {
      MapCharsFrom(s, c => if c in SpecTokens then [' ', c, ' '] else [c], c);
    }
  }

  /** No character of a normalised sentence is upper case or deleted punctuation. */
  lemma NormalizedChars(sent: string)
    ensures forall c :: c in Normalized(sent) ==> !IsUpper(c) && c !in Punctuation
  {
    var lowered := Lower(StripNewlines(sent));
    LowerChars(StripNewlines(sent));
    var kept := Translate(lowered, Punctuation);
    TranslateMembers(lowered, Punctuation);
    PadChars(kept);
    SpaceIsNotPunctuation();
  }

  /** Every token is non-empty, has no whitespace, no upper-case letter and
      no deleted punctuation character. */
  lemma TokensWellFormed(sent: string)
    ensures forall t :: t in Tokenize(sent) ==> IsToken(t)
  {
    var n := Normalized(sent);
    NormalizedChars(sent);
    SplitFromWords(n, []);
  }

  lemma SpecialsWithoutSpaces(s: string)
    ensures Specials(WithoutSpaces(s)) == Specials(s)
  {
    var sp := c => if IsSpecial(c) then [c] else [];
    forall c | c in s ensures MapChars((c => if IsSpace(c) then [] else [c])(c), sp) == sp(c) {
      MapCharsSingle(c, sp);
    }
    MapCharsFuse(s, c => if IsSpace(c) then [] else [c], sp, sp);
  }

  lemma SpecialsPad(s: string)
    ensures Specials(Pad(s)) == Specials(s)
  {
    var sp := c => if IsSpecial(c) then [c] else [];
    forall c | c in s ensures MapChars((c => if c in SpecTokens then [' ', c, ' '] else [c])(c), sp) == sp(c) {
      MapCharsTriple(' ', c, ' ', sp);
      MapCharsSingle(c, sp);
    }
    MapCharsFuse(s, c => if c in SpecTokens then [' ', c, ' '] else [c], sp, sp);
  }

  lemma SpecialsTranslate(s: string)
    ensures Specials(Translate(s, Punctuation)) == Specials(s)
  {
    var sp := c => if IsSpecial(c) then [c] else [];
    forall c | c in s ensures MapChars((c => if c in Punctuation then [] else [c])(c), sp) == sp(c) {
      PunctuationMembers(c);
      MapCharsSingle(c, sp);
    }
    MapCharsFuse(s, c => if c in Punctuation then [] else [c], sp, sp);
  }

  lemma SpecialsLower(s: string)
    ensures Specials(Lower(s)) == Specials(s)
  {
    var sp := c => if IsSpecial(c) then [c] else [];
    forall c | c in s ensures MapChars((c => [LowerChar(c)])(c), sp) == sp(c) {
      MapCharsSingle(LowerChar(c), sp);
    }
    MapCharsFuse(s, c => [LowerChar(c)], sp, sp);
  }

  lemma SpecialsStrip(s: string)
    ensures Specials(StripNewlines(s)) == Specials(s)
  {
    var sp := c => if IsSpecial(c) then [c] else [];
    var pre, post := StripNewlinesSplit(s);
    assert '\n' !in SpecTokens;
    MapCharsAppend(pre + StripNewlines(s), post, sp);
    MapCharsAppend(pre, StripNewlines(s), sp);
    MapCharsDropsAll(pre, sp);
    MapCharsDropsAll(post, sp);
  }

  /** The `if tok` filter of the comprehension drops nothing. */
  lemma TokensAreSplit(normalized: string)
    ensures Tokens(normalized) == Split(normalized)
  {
    SplitFromWords(normalized, []);
  }

  /** Each special token of the input is a one-character token of its own. */
  lemma SpecialsIsolated(sent: string)
    ensures forall t, j :: t in Tokenize(sent) && 0 <= j < |t| && IsSpecial(t[j]) ==> t == [t[j]]
  {
    var kept := Translate(Lower(StripNewlines(sent)), Punctuation);
    TokensAreSplit(Normalized(sent));
    SplitPadIsolates(kept, []);
  }

  /** The special tokens of the input appear among the tokens in input order. */
  lemma SpecialsInOrder(sent: string)
    ensures Specials(Concat(Tokenize(sent))) == Specials(sent)
  {
    var stripped := StripNewlines(sent);
    var lowered := Lower(stripped);
    var kept := Translate(lowered, Punctuation);
    var n := Pad(kept);
    TokensAreSplit(n);
    ConcatSplit(n, []);
    assert Concat(Tokenize(sent)) == WithoutSpaces(n);
    SpecialsWithoutSpaces(n);
    SpecialsPad(kept);
    SpecialsTranslate(lowered);
    SpecialsLower(stripped);
    SpecialsStrip(sent);
  }

  /** On a normalised sentence, lower-casing and deleting punctuation change nothing. */
  lemma RenormalizeOnlyPads(sent: string)
    ensures Normalized(Normalized(sent)) == Pad(StripNewlines(Normalized(sent)))
  {
    var n := Normalized(sent);
    NormalizedChars(sent);
    var y := StripNewlines(n);
    var pre, post := StripNewlinesSplit(n);
    forall c | c in y ensures c in n && !IsUpper(c) && c !in Punctuation {
      var i :| 0 <= i < |y| && y[i] == c;
      assert n[|pre| + i] == c;
    }
    MapCharsKeepsAll(y, c => [LowerChar(c)]);
    MapCharsKeepsAll(y, c => if c in Punctuation then [] else [c]);
  }

  /** Padding leaves surrounding newlines alone. */
  lemma PadBetweenNewlines(pre: string, mid: string, post: string)
    requires forall c :: c in pre ==> c == '\n'
    requires forall c :: c in post ==> c == '\n'
    ensures Pad(pre + mid + post) == pre + (Pad(mid) + post)
  {
    var f := c => if c in SpecTokens then [' ', c, ' '] else [c];
    assert f('\n') == ['\n'];
    assert Pad(pre) == pre by {
      MapCharsKeepsAll(pre, f);
    }
    assert Pad(post) == post by {
      MapCharsKeepsAll(post, f);
    }
    assert Pad(pre + mid + post) == Pad(pre + mid) + Pad(post) by {
      MapCharsAppend(pre + mid, post, f);
    }
    assert Pad(pre + mid) == Pad(pre) + Pad(mid) by {
      MapCharsAppend(pre, mid, f);
    }
  }

  /** The newlines StripNewlines removes only separate words. */
  lemma SplitPadStrip(y: string)
    ensures Split(Pad(StripNewlines(y))) == Split(Pad(y))
  {
    var pre, post := StripNewlinesSplit(y);
    var mid := StripNewlines(y);
    PadBetweenNewlines(pre, mid, post);
    assert IsSpace('\n');
    SplitLeadingSpaces(pre, Pad(mid) + post);
    SplitTrailingSpaces(Pad(mid), post, []);
  }

  /** Normalising twice gives the same tokens as normalising once. */
  lemma NormalizeIdempotentOnTokens(sent: string)
    ensures Tokenize(Normalized(sent)) == Tokenize(sent)
  {
    var kept := Translate(Lower(StripNewlines(sent)), Punctuation);
    var n := Normalized(sent);
    RenormalizeOnlyPads(sent);
    SplitPadStrip(n);
    SplitPadTwice(kept, []);
  }

  // ---------------------------------------------------------------------
  // Worked examples
  // ---------------------------------------------------------------------

  /** Stripping leaves text without a newline at either end unchanged. */
  lemma StripKeepsInner(s: string)
    requires s == [] || (s[0] != '\n' && s[|s| - 1] != '\n')
    ensures StripNewlines(s) == s
  {
    assert LeadingNewlines(s) == 0;
    assert TrailingNewlines(s[0..]) == 0;
    assert s[0..|s|] == s;
  }

  /** Text with no newline at its ends, no upper-case letter and no table
      character is normalised by padding alone. */
  lemma NormalizedPlain(s: string)
    requires s == [] || (s[0] != '\n' && s[|s| - 1] != '\n')
    requires forall c :: c in s ==> !IsUpper(c) && c !in Punctuation
    ensures Normalized(s) == Pad(s)
  {
    StripKeepsInner(s);
    MapCharsKeepsAll(s, c => [LowerChar(c)]);
    MapCharsKeepsAll(s, c => if c in Punctuation then [] else [c]);
  }

  /** On text, normalising twice differs from normalising once: a sentence
      made of one special character is padded again by the second pass. Only
      the tokens agree (`NormalizeIdempotentOnTokens`). */
  lemma NormalizeNotIdempotentOnText(c: char)
    requires IsSpecial(c)
    ensures Normalized([c]) == [' ', c, ' ']
    ensures Normalized(Normalized([c])) == [' ', ' ', c, ' ', ' ']
    ensures Normalized(Normalized([c])) != Normalized([c])
  {
    PunctuationMembers(c);
    SpaceIsNotPunctuation();
    PadSingle(c);
    NormalizedPlain([c]);
    NormalizedPlain([' ', c, ' ']);
  }
}
