/** Deriving an organisation slug from its name, against the published slug pattern. */
module Slugs {
  import opened Text

  const MIN_LENGTH := 3
  const MAX_LENGTH := 80

  predicate IsAlnum(c: char) {
    'a' <= c <= 'z' || '0' <= c <= '9'
  }

  predicate IsHyphen(c: char) {
    c == '-'
  }

  predicate Alnum(s: string) {
    forall i :: 0 <= i < |s| ==> IsAlnum(s[i])
  }

  /** Skips the leading characters that may not appear in a slug. */
  function SkipSeparators(t: string): (r: string)
    ensures |r| <= |t|
    ensures r != [] ==> IsAlnum(r[0])
    ensures t != [] && !IsAlnum(t[0]) ==> |r| < |t|
  {
    if t != [] && !IsAlnum(t[0]) then SkipSeparators(t[1..]) else t
  }

  /** Substitutes one hyphen for every maximal run of characters outside a-z and 0-9. */
  function Hyphenate(t: string): string
    decreases |t|
  {
    if t == [] then []
    else if IsAlnum(t[0]) then [t[0]] + Hyphenate(t[1..])
    else ['-'] + Hyphenate(SkipSeparators(t))
  }

  /** The candidate of `FromLowered` before it is cut. */
  function Padded(t: string): string {
    var candidate := Strip(IsHyphen, Hyphenate(t));
    if |candidate| < MIN_LENGTH then (if candidate != [] then candidate + "-org" else "org") else candidate
  }

  /** The derivation on text that is already stripped and lowered. */
  function FromLowered(t: string): string {
    var padded := Padded(t);
    var cut := Strip(IsHyphen, if |padded| > MAX_LENGTH then padded[..MAX_LENGTH] else padded);
    if |cut| < MIN_LENGTH then "org" else cut
  }

  function FromName(casing: Casing, name: string): string {
    FromLowered(casing.lower(Strip(casing.isSpace, name)))
  }

  /** Normalising an explicitly supplied slug. */
  function Normalise(casing: Casing, slug: string): string {
    casing.lower(Strip(casing.isSpace, slug))
  }

  // ---- The meaning: words joined by single hyphens ----

  /** Length of the run of slug letters at the start of `t`. */
  function RunLength(t: string): (k: nat)
    ensures k <= |t|
    ensures Alnum(t[..k])
    ensures k < |t| ==> !IsAlnum(t[k])
    ensures t != [] && IsAlnum(t[0]) ==> k > 0
  {
    if t != [] && IsAlnum(t[0]) then
      var k := 1 + RunLength(t[1..]);
      assert t[..k] == [t[0]] + t[1..][..k - 1];
      k
    else 0
  }

  /** The maximal runs of a-z and 0-9 in `t`, from left to right. */
  function Words(t: string): (words: seq<string>)
    ensures forall i :: 0 <= i < |words| ==> words[i] != [] && Alnum(words[i])
    decreases |t|
  {
    if t == [] then []
    else if !IsAlnum(t[0]) then Words(t[1..])
    else [t[..RunLength(t)]] + Words(t[RunLength(t)..])
  }

  function Join(words: seq<string>): string {
    if words == [] then []
    else if |words| == 1 then words[0]
    else words[0] + "-" + Join(words[1..])
  }

  /** The pattern `^[a-z0-9]+(?:-[a-z0-9]+)*$`. */
  ghost predicate MatchesPattern(s: string) {
    exists words: seq<string> ::
      words != [] && (forall i :: 0 <= i < |words| ==> words[i] != [] && Alnum(words[i])) && s == Join(words)
  }

  /** A slug the API accepts: the pattern together with its length bounds. */
  ghost predicate IsSlug(s: string) {
    MatchesPattern(s) && MIN_LENGTH <= |s| <= MAX_LENGTH
  }

  /** What the derivation makes of the joined words: padded when short, cut when long. */
  function Fitted(joined: string): string {
    if joined == [] then "org"
    else if |joined| < MIN_LENGTH then joined + "-org"
    else if |joined| <= MAX_LENGTH then joined
    else if joined[MAX_LENGTH - 1] == '-' then joined[..MAX_LENGTH - 1]
    else joined[..MAX_LENGTH]
  }

  /** Letter by letter: starts and ends with a letter, and no two hyphens are adjacent. */
  predicate Hyphenated(s: string) {
    && s != []
    && IsAlnum(s[0]) && IsAlnum(s[|s| - 1])
    && (forall i :: 0 <= i < |s| ==> IsAlnum(s[i]) || s[i] == '-')
    && (forall i :: 0 <= i < |s| - 1 ==> IsAlnum(s[i]) || IsAlnum(s[i + 1]))
  }

  lemma {:induction false} HyphenateRun(t: string)
    ensures Hyphenate(t) == t[..RunLength(t)] + Hyphenate(t[RunLength(t)..])
  {
    if t != [] && IsAlnum(t[0]) {
      HyphenateRun(t[1..]);
      var k := RunLength(t);
      assert t[..k] == [t[0]] + t[1..][..k - 1];
      assert t[k..] == t[1..][k - 1..];
    } else {
      assert t[0..] == t;
    }
  }

  lemma {:induction false} StripRightAfter(a: string, b: string)
    requires StripRight(IsHyphen, b) != []
    ensures StripRight(IsHyphen, a + b) == a + StripRight(IsHyphen, b)
  {
    if b[|b| - 1] == '-' {
      assert (a + b)[..|a + b| - 1] == a + b[..|b| - 1];
      StripRightAfter(a, b[..|b| - 1]);
    } else {
      assert (a + b)[|a + b| - 1] == b[|b| - 1];
    }
  }

  lemma {:induction false} WordsSkip(t: string)
    ensures Words(SkipSeparators(t)) == Words(t)
  {
    if t != [] && !IsAlnum(t[0]) {
      WordsSkip(t[1..]);
    }
  }

  /** Stripping a word followed by a hyphen and a rest that strips to `joined`. */
  lemma StripWord(word: string, rest: string, joined: string)
    requires word != [] && Alnum(word)
    requires StripRight(IsHyphen, rest) == joined
    requires joined == [] ==> rest == []
    ensures StripRight(IsHyphen, word + "-" + rest) == if joined == [] then word else word + "-" + joined
  {
    if joined == [] {
      assert word + "-" + rest == word + "-";
      assert (word + "-")[..|word|] == word;
    } else {
      StripRightAfter(word + "-", rest);
    }
  }

  /** The hyphenated form and the words of text that starts with a word. */
  lemma SplitWord(t: string, word: string, v: string)
    requires t != [] && IsAlnum(t[0])
    requires word == t[..RunLength(t)]
    requires v == SkipSeparators(t[RunLength(t)..])
    ensures word != [] && Alnum(word) && |v| < |t|
    ensures Words(t) == [word] + Words(v)
    ensures Hyphenate(t) == if RunLength(t) == |t| then word else word + "-" + Hyphenate(v)
    ensures RunLength(t) == |t| ==> v == []
  {
    HyphenateRun(t);
    WordsSkip(t[RunLength(t)..]);
  }

  lemma {:induction false} StrippedRightIsJoined(t: string)
    requires t == [] || IsAlnum(t[0])
    ensures StripRight(IsHyphen, Hyphenate(t)) == Join(Words(t))
    decreases |t|
  {
    if t != [] {
      var word, v := t[..RunLength(t)], SkipSeparators(t[RunLength(t)..]);
      SplitWord(t, word, v);
      StrippedRightIsJoined(v);
      if v != [] {
        SplitWord(v, v[..RunLength(v)], SkipSeparators(v[RunLength(v)..]));
      }
      StripWord(word, Hyphenate(v), Join(Words(v)));
      assert Words(t)[1..] == Words(v);
    }
  }

  /** Substituting separators and stripping the ends leaves the words joined by hyphens. */
  lemma StrippedIsJoined(t: string)
    ensures Strip(IsHyphen, Hyphenate(t)) == Join(Words(t))
  {
    var v := SkipSeparators(t);
    StrippedRightIsJoined(v);
    WordsSkip(t);
    if v != t {
      assert Hyphenate(t)[1..] == Hyphenate(v);
    }
    assert StripLeft(IsHyphen, Hyphenate(v)) == Hyphenate(v);
  }

  lemma {:induction false} JoinIsHyphenated(words: seq<string>)
    requires words != []
    requires forall i :: 0 <= i < |words| ==> words[i] != [] && Alnum(words[i])
    ensures Hyphenated(Join(words))
  {
    if |words| == 1 {
      assert IsAlnum(words[0][|words[0]| - 1]);
    } else {
      JoinIsHyphenated(words[1..]);
      var head, tail := words[0], Join(words[1..]);
      var s := head + "-" + tail;
      forall i | 0 <= i < |s|
        ensures IsAlnum(s[i]) || s[i] == '-'
        ensures i < |s| - 1 ==> IsAlnum(s[i]) || IsAlnum(s[i + 1])
      {
        if i > |head| {
          assert s[i] == tail[i - |head| - 1];
        }
      }
    }
  }

  lemma {:induction false} HyphenatedIsFixed(s: string)
    requires forall i :: 0 <= i < |s| ==> IsAlnum(s[i]) || s[i] == '-'
    requires forall i :: 0 <= i < |s| - 1 ==> IsAlnum(s[i]) || IsAlnum(s[i + 1])
    ensures Hyphenate(s) == s
    decreases |s|
  {
    if s != [] {
      HyphenatedIsFixed(s[1..]);
      if !IsAlnum(s[0]) {
        assert SkipSeparators(s) == s[1..];
      }
      assert s == [s[0]] + s[1..];
    }
  }

  /** The two readings of the pattern agree. */
  lemma PatternIsHyphenated(s: string)
    ensures MatchesPattern(s) <==> Hyphenated(s)
  {
    if MatchesPattern(s) {
      var words: seq<string> :| words != []
        && (forall i :: 0 <= i < |words| ==> words[i] != [] && Alnum(words[i])) && s == Join(words);
      JoinIsHyphenated(words);
    }
    if Hyphenated(s) {
      HyphenatedIsFixed(s);
      StripKeepsEnds(IsHyphen, s);
      StrippedIsJoined(s);
      assert s == Join(Words(s));
    }
  }

  lemma CutKeepsPattern(s: string)
    requires Hyphenated(s) && |s| > MAX_LENGTH
    ensures Strip(IsHyphen, s[..MAX_LENGTH]) == Fitted(s)
    ensures Hyphenated(Fitted(s))
  {
    var p := s[..MAX_LENGTH];
    assert StripLeft(IsHyphen, p) == p;
    if p[MAX_LENGTH - 1] == '-' {
      var q := p[..MAX_LENGTH - 1];
      assert q == s[..MAX_LENGTH - 1];
      assert IsAlnum(s[MAX_LENGTH - 2]);
      assert StripRight(IsHyphen, q) == q;
    }
  }

  lemma PaddingKeepsPattern(candidate: string)
    requires candidate != [] && |candidate| < MIN_LENGTH && Hyphenated(candidate)
    ensures Hyphenated(candidate + "-org")
  {
    var s := candidate + "-org";
    var n := |candidate|;
    assert s[n] == '-' && s[n + 1] == 'o' && s[n + 2] == 'r' && s[n + 3] == 'g';
  }

  lemma PaddedIsHyphenated(t: string)
    ensures Hyphenated(Padded(t)) && |Padded(t)| >= MIN_LENGTH
    ensures |Padded(t)| > MAX_LENGTH ==> Padded(t) == Join(Words(t))
    ensures |Padded(t)| <= MAX_LENGTH ==> Padded(t) == Fitted(Join(Words(t)))
  {
    StrippedIsJoined(t);
    var joined := Join(Words(t));
    if Words(t) != [] {
      JoinIsHyphenated(Words(t));
      if |joined| < MIN_LENGTH {
        PaddingKeepsPattern(joined);
      }
    }
  }

  /** After padding and cutting at least three characters remain, whatever the input, so the
      final fallback of the derivation is never taken. */
  lemma FallbackIsDead(t: string)
    ensures Strip(IsHyphen, if |Padded(t)| > MAX_LENGTH then Padded(t)[..MAX_LENGTH] else Padded(t))
            == Fitted(Join(Words(t)))
    ensures |Fitted(Join(Words(t)))| >= MIN_LENGTH
  {
    PaddedIsHyphenated(t);
    if |Padded(t)| > MAX_LENGTH {
      CutKeepsPattern(Padded(t));
    } else {
      StripKeepsEnds(IsHyphen, Padded(t));
    }
  }

  /** For every input the slug is the hyphen-join of its words, fitted to the bounds; it always
      satisfies the published pattern and bounds. */
  lemma SlugOfLowered(t: string)
    ensures FromLowered(t) == Fitted(Join(Words(t)))
    ensures IsSlug(FromLowered(t))
  {
    FallbackIsDead(t);
    PaddedIsHyphenated(t);
    if |Padded(t)| > MAX_LENGTH {
      CutKeepsPattern(Padded(t));
    }
    PatternIsHyphenated(Fitted(Join(Words(t))));
  }

  /** A valid slug, used as a name, derives itself; given as a slug, it is stored as it is. */
  lemma SlugsAreFixedPoints(casing: Casing, s: string)
    requires KeepsPlain(casing) && IsSlug(s)
    ensures FromName(casing, s) == s
    ensures Normalise(casing, s) == s
  {
    PatternIsHyphenated(s);
    assert Plain(s);
    StripKeepsEnds(casing.isSpace, s);
    HyphenatedIsFixed(s);
    StripKeepsEnds(IsHyphen, s);
    assert FromLowered(s) == s;
  }

  /** Deriving twice changes nothing: the derivation is a projection onto the valid slugs. */
  lemma DerivingIsIdempotent(casing: Casing, name: string)
    requires KeepsPlain(casing)
    ensures FromName(casing, FromName(casing, name)) == FromName(casing, name)
  {
    SlugOfLowered(casing.lower(Strip(casing.isSpace, name)));
    SlugsAreFixedPoints(casing, FromName(casing, name));
  }

  // ---- The derivation, letter by letter ----

  /** Words are split exactly at the characters outside a-z and 0-9, and joined by one hyphen each. */
  lemma SplitExactly(w: string, c: char, t: string)
    requires forall i :: 0 <= i < |w| ==> 'a' <= w[i] <= 'z' || '0' <= w[i] <= '9'
    requires !('a' <= c <= 'z') && !('0' <= c <= '9')
    ensures RunLength(w + [c] + t) == |w|
    ensures Words(w + [c] + t) == (if w == "" then [] else [w]) + Words(t)
    ensures Join(Words(w + [c] + t))
            == if w == "" then Join(Words(t)) else if Words(t) == [] then w else w + "-" + Join(Words(t))
  {
    var s := w + [c] + t;
    assert s == w + ([c] + t);
    RunOf(w, [c] + t);
    assert ([c] + t)[1..] == t;
    if w == [] {
      assert s == [c] + t;
    } else {
      assert s[..|w|] == w && s[|w|..] == [c] + t;
      hide RunLength;
      assert Words(s) == [w] + Words(t);
      assert ([w] + Words(t))[1..] == Words(t);
    }
  }

  /** Letters and digits alone are one word. */
  lemma OneWord(w: string)
    requires forall i :: 0 <= i < |w| ==> 'a' <= w[i] <= 'z' || '0' <= w[i] <= '9'
    ensures RunLength(w) == |w| && Words(w) == (if w == "" then [] else [w]) && Join(Words(w)) == w
  {
    RunOf(w, []);
    assert w + [] == w && w[..|w|] == w && w[|w|..] == [];
  }

  lemma {:induction false} RunOf(w: string, rest: string)
    requires forall i :: 0 <= i < |w| ==> 'a' <= w[i] <= 'z' || '0' <= w[i] <= '9'
    requires rest != [] ==> !('a' <= rest[0] <= 'z') && !('0' <= rest[0] <= '9')
    ensures RunLength(w + rest) == |w|
  {
    if w == [] {
      assert w + rest == rest;
    } else {
      assert (w + rest)[1..] == w[1..] + rest;
      RunOf(w[1..], rest);
    }
  }

  /** The slug of stripped and lowered text: the joined words, padded when shorter than 3, cut at 80 and
      at 79 when the cut leaves a hyphen. Only a-z, 0-9 and single inner hyphens appear in it. */
  lemma SlugLetters(t: string)
    ensures var joined, s := Join(Words(t)), FromLowered(t);
            && s == (if joined == "" then "org"
                     else if |joined| < 3 then joined + "-org"
                     else if |joined| <= 80 then joined
                     else if joined[79] == '-' then joined[..79]
                     else joined[..80])
            && 3 <= |s| <= 80
            && (forall i :: 0 <= i < |s| ==> 'a' <= s[i] <= 'z' || '0' <= s[i] <= '9' || s[i] == '-')
            && s[0] != '-' && s[|s| - 1] != '-'
            && (forall i :: 0 <= i < |s| - 1 ==> s[i] != '-' || s[i + 1] != '-')
  {
    SlugOfLowered(t);
    PatternIsHyphenated(FromLowered(t));
    hide FromLowered, MatchesPattern, Words, Join;
  }

  /** A name is stripped and lowered before its slug is derived, a given slug before it is stored. */
  lemma StrippedThenLowered(casing: Casing, a: string, middle: string, b: string)
    requires forall i :: 0 <= i < |a| ==> casing.isSpace(a[i])
    requires forall i :: 0 <= i < |b| ==> casing.isSpace(b[i])
    requires middle == [] || (!casing.isSpace(middle[0]) && !casing.isSpace(middle[|middle| - 1]))
    ensures FromName(casing, a + middle + b) == FromLowered(casing.lower(middle))
    ensures Normalise(casing, a + middle + b) == casing.lower(middle)
  {
    StripExactly(casing.isSpace, a, middle, b);
  }
}
