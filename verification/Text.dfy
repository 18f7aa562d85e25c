/** The string operations of the host language that the services lean on.

    Unicode case mapping and white space are supplied by the caller as a `Casing`; nothing is
    assumed about them except, where a lemma says so, that they leave plain lower-case ASCII alone. */
module Text {

  datatype Casing = Casing(lower: string -> string, isSpace: char -> bool)

  /** Removes the characters satisfying `drop` from the left end. */
  function StripLeft(drop: char -> bool, s: string): (r: string)
    ensures |r| <= |s|
  {
    if s != [] && drop(s[0]) then StripLeft(drop, s[1..]) else s
  }

  /** Removes the characters satisfying `drop` from the right end. */
  function StripRight(drop: char -> bool, s: string): (r: string)
    ensures |r| <= |s|
  {
    if s != [] && drop(s[|s| - 1]) then StripRight(drop, s[..|s| - 1]) else s
  }

  function Strip(drop: char -> bool, s: string): (r: string)
    ensures |r| <= |s|
  {
    StripRight(drop, StripLeft(drop, s))
  }

  /** Characters of the public-safe names used here: lower-case ASCII letters, digits, `_` and `-`. */
  predicate IsPlain(c: char) {
    'a' <= c <= 'z' || '0' <= c <= '9' || c == '_' || c == '-'
  }

  predicate Plain(s: string) {
    forall i :: 0 <= i < |s| ==> IsPlain(s[i])
  }

  /** What any case mapping does to plain text: nothing. */
  ghost predicate KeepsPlain(casing: Casing) {
    && (forall s :: Plain(s) ==> casing.lower(s) == s)
    && (forall c :: IsPlain(c) ==> !casing.isSpace(c))
  }

  lemma StripKeepsEnds(drop: char -> bool, s: string)
    requires s == [] || (!drop(s[0]) && !drop(s[|s| - 1]))
    ensures Strip(drop, s) == s
  {
  }

  lemma {:induction false} StripLeftRun(drop: char -> bool, a: string, s: string)
    requires forall i :: 0 <= i < |a| ==> drop(a[i])
    ensures StripLeft(drop, a + s) == StripLeft(drop, s)
  {
    if a == [] {
      assert a + s == s;
    } else {
      assert (a + s)[1..] == a[1..] + s;
      StripLeftRun(drop, a[1..], s);
    }
  }

  lemma {:induction false} StripRightRun(drop: char -> bool, s: string, b: string)
    requires forall i :: 0 <= i < |b| ==> drop(b[i])
    ensures StripRight(drop, s + b) == StripRight(drop, s)
  {
    if b == [] {
      assert s + b == s;
    } else {
      assert (s + b)[..|s + b| - 1] == s + b[..|b| - 1];
      StripRightRun(drop, s, b[..|b| - 1]);
    }
  }

  /** Stripping takes the dropped characters off both ends and nothing else. */
  lemma StripExactly(drop: char -> bool, a: string, middle: string, b: string)
    requires forall i :: 0 <= i < |a| ==> drop(a[i])
    requires forall i :: 0 <= i < |b| ==> drop(b[i])
    requires middle == [] || (!drop(middle[0]) && !drop(middle[|middle| - 1]))
    ensures Strip(drop, a + middle + b) == middle
  {
    assert a + middle + b == a + (middle + b);
    StripLeftRun(drop, a, middle + b);
    if middle == [] {
      assert middle + b == b + [];
      StripLeftRun(drop, b, []);
    } else {
      StripRightRun(drop, middle, b);
    }
  }

  predicate EndsWith(s: string, suffix: string) {
    |suffix| <= |s| && s[|s| - |suffix|..] == suffix
  }

  /** Replaces every occurrence of one character by another. */
  function ReplaceChar(s: string, from: char, to: char): (r: string)
    ensures |r| == |s|
    ensures forall i :: 0 <= i < |s| ==> r[i] == if s[i] == from then to else s[i]
  {
    if s == [] then [] else [if s[0] == from then to else s[0]] + ReplaceChar(s[1..], from, to)
  }

  lemma {:induction false} ReplaceAbsent(s: string, from: char, to: char)
    requires forall i :: 0 <= i < |s| ==> s[i] != from
    ensures ReplaceChar(s, from, to) == s
  {
  }
}
