/** String helpers with the semantics of Python's str methods:
    split with a separator, join, replace, strip and rstrip with a character set,
    and substring membership (`p in s`). */
module Text {

  /** p occurs in s starting at position i. */
  predicate OccursAt(p: string, s: string, i: int)
  {
    0 <= i <= |s| - |p| && s[i..i + |p|] == p
  }

  /** `p in s` for strings: p occurs in s at some position. */
  predicate IsSubstring(p: string, s: string)
  {
    exists i | 0 <= i <= |s| - |p| :: OccursAt(p, s, i)
  }

  predicate IsPrefix(p: string, s: string)
  {
    |p| <= |s| && s[..|p|] == p
  }

  /** `s.split(sep)` for a non-empty separator: occurrences of sep are taken
      leftmost first and never overlap. */
  function SplitOn(s: string, sep: string): (parts: seq<string>)
    requires |sep| > 0
    ensures |parts| >= 1
    decreases |s|
  {
    if |s| < |sep| then [s]
    else if s[..|sep|] == sep then [""] + SplitOn(s[|sep|..], sep)
    else
      var rest := SplitOn(s[1..], sep);
      [[s[0]] + rest[0]] + rest[1..]
  }

  /** `sep.join(parts)`. */
  function Join(parts: seq<string>, sep: string): string
  {
    if |parts| == 0 then ""
    else if |parts| == 1 then parts[0]
    else parts[0] + sep + Join(parts[1..], sep)
  }

  /** `s.replace(pat, rep)` for a non-empty pattern: every non-overlapping
      occurrence, leftmost first, is replaced. */
  function ReplaceAll(s: string, pat: string, rep: string): string
    requires |pat| > 0
  {
    Join(SplitOn(s, pat), rep)
  }

  /** `s.rstrip(chars)`. */
  function RStrip(s: string, chars: set<char>): (r: string)
    ensures IsPrefix(r, s)
    ensures |r| > 0 ==> r[|r| - 1] !in chars
    ensures forall i :: |r| <= i < |s| ==> s[i] in chars
  {
    if |s| > 0 && s[|s| - 1] in chars then RStrip(s[..|s| - 1], chars) else s
  }

  /** `s.lstrip(chars)`. */
  function LStrip(s: string, chars: set<char>): (r: string)
    ensures |r| <= |s| && r == s[|s| - |r|..]
    ensures |r| > 0 ==> r[0] !in chars
    ensures forall i :: 0 <= i < |s| - |r| ==> s[i] in chars
  {
    if |s| > 0 && s[0] in chars then LStrip(s[1..], chars) else s
  }

  /** `s.strip(chars)`. */
  function Strip(s: string, chars: set<char>): string
  {
    LStrip(RStrip(s, chars), chars)
  }

  /** Splitting and joining again with the same separator gives back the string. */
  lemma {:induction false} JoinSplitOn(s: string, sep: string)
    requires |sep| > 0
    ensures Join(SplitOn(s, sep), sep) == s
    decreases |s|
  {
    if |s| < |sep| {
    } else if s[..|sep|] == sep {
      JoinSplitOn(s[|sep|..], sep);
      JoinEmptyHead(SplitOn(s[|sep|..], sep), sep);
      assert s == sep + s[|sep|..];
    } else {
      JoinSplitOn(s[1..], sep);
      JoinExtendHead(s[0], SplitOn(s[1..], sep), sep);
      assert s == [s[0]] + s[1..];
    }
  }

  /** An empty first part contributes only the separator. */
  lemma JoinEmptyHead(tail: seq<string>, sep: string)
    requires |tail| >= 1
    ensures Join([""] + tail, sep) == sep + Join(tail, sep)
  {
    assert ([""] + tail)[1..] == tail;
  }

  /** Prefixing the first part with a character prefixes the joined string. */
  lemma JoinExtendHead(c: char, parts: seq<string>, sep: string)
    requires |parts| >= 1
    ensures Join([[c] + parts[0]] + parts[1..], sep) == [c] + Join(parts, sep)
  {
    var ext := [[c] + parts[0]] + parts[1..];
    if |parts| > 1 {
      assert ext[1..] == parts[1..];
    }
  }

  /** The first part of a split is a prefix of the string. */
  lemma {:induction false} SplitOnFirstIsPrefix(s: string, sep: string)
    requires |sep| > 0
    ensures IsPrefix(SplitOn(s, sep)[0], s)
    decreases |s|
  {
    if |s| < |sep| {
    } else if s[..|sep|] == sep {
    } else {
      SplitOnFirstIsPrefix(s[1..], sep);
    }
  }

  /** No part of a split contains the separator. */
  lemma {:induction false} SplitOnPartsAvoidSep(s: string, sep: string)
    requires |sep| > 0
    ensures forall k :: 0 <= k < |SplitOn(s, sep)| ==> !IsSubstring(sep, SplitOn(s, sep)[k])
    decreases |s|
  {
    var parts := SplitOn(s, sep);
    if |s| < |sep| {
      assert parts == [s];
      forall i ensures !OccursAt(sep, s, i) { }
    } else if s[..|sep|] == sep {
      SplitOnPartsAvoidSep(s[|sep|..], sep);
      var tail := SplitOn(s[|sep|..], sep);
      assert parts == [""] + tail;
      forall k | 0 <= k < |parts| ensures !IsSubstring(sep, parts[k]) {
        if k > 0 {
          assert parts[k] == tail[k - 1];
        } else {
          forall i ensures !OccursAt(sep, parts[k], i) { }
        }
      }
    } else {
      var rest := SplitOn(s[1..], sep);
      SplitOnPartsAvoidSep(s[1..], sep);
      SplitOnFirstIsPrefix(s[1..], sep);
      var first := [s[0]] + rest[0];
      assert parts == [first] + rest[1..];
      assert first == s[..|first|];
      forall i ensures !OccursAt(sep, first, i) {
        if i == 0 && |sep| <= |first| {
          assert first[..|sep|] == s[..|sep|];
        } else if 0 < i <= |first| - |sep| {
          assert first[i..i + |sep|] == rest[0][i - 1..i - 1 + |sep|];
          assert !OccursAt(sep, rest[0], i - 1);
        }
      }
      forall k | 0 <= k < |parts| ensures !IsSubstring(sep, parts[k]) {
        if k > 0 { assert parts[k] == rest[k]; }
      }
    }
  }

  /** A string that does not contain the separator splits into itself alone. */
  lemma {:induction false} SplitOnWithoutSep(s: string, sep: string)
    requires |sep| > 0
    requires !IsSubstring(sep, s)
    ensures SplitOn(s, sep) == [s]
    decreases |s|
  {
    if |s| >= |sep| {
      assert !OccursAt(sep, s, 0);
      assert s[0..|sep|] == s[..|sep|];
      forall i ensures !OccursAt(sep, s[1..], i) {
        assert !OccursAt(sep, s, i + 1);
        if 0 <= i <= |s[1..]| - |sep| {
          assert s[1..][i..i + |sep|] == s[i + 1..i + 1 + |sep|];
        }
      }
      SplitOnWithoutSep(s[1..], sep);
      assert [s[0]] + s[1..] == s;
    }
  }

  /** The first part of a split ends at the leftmost separator. */
  lemma {:induction false} SplitOnHead(a: string, sep: string, b: string)
    requires |sep| > 0
    requires forall i :: 0 <= i < |a| ==> !OccursAt(sep, a + sep + b, i)
    ensures SplitOn(a + sep + b, sep) == [a] + SplitOn(b, sep)
    decreases |a|
  {
    var s := a + sep + b;
    if a == [] {
      assert s == sep + b && s[..|sep|] == sep && s[|sep|..] == b;
    } else {
      assert !OccursAt(sep, s, 0);
      assert s[0..|sep|] == s[..|sep|];
      assert s[1..] == a[1..] + sep + b;
      forall i | 0 <= i < |a[1..]| ensures !OccursAt(sep, a[1..] + sep + b, i) {
        assert !OccursAt(sep, s, i + 1);
        assert s[1..][i..i + |sep|] == s[i + 1..i + 1 + |sep|];
      }
      SplitOnHead(a[1..], sep, b);
      assert [a[0]] + a[1..] == a;
    }
  }

  /** Stripping the end of a concatenation strips the second part first and
      reaches into the first only when the second is stripped away entirely. */
  lemma {:induction false} RStripConcat(x: string, y: string, chars: set<char>)
    ensures RStrip(x + y, chars) == if RStrip(y, chars) == [] then RStrip(x, chars) else x + RStrip(y, chars)
    decreases |y|
  {
    if y == [] {
      assert x + y == x;
    } else if y[|y| - 1] in chars {
      assert (x + y)[..|x + y| - 1] == x + y[..|y| - 1];
      RStripConcat(x, y[..|y| - 1], chars);
    }
  }

  /** A pattern holding a character the string lacks does not occur in it. */
  lemma MissingCharNotSubstring(p: string, s: string, i: nat)
    requires i < |p|
    requires forall j :: 0 <= j < |s| ==> s[j] != p[i]
    ensures !IsSubstring(p, s)
  {
    forall k ensures !OccursAt(p, s, k) {
      if 0 <= k <= |s| - |p| {
        assert s[k..k + |p|][i] == s[k + i];
      }
    }
  }

  /** Replacing a pattern that does not occur changes nothing. */
  lemma ReplaceAllAbsent(s: string, pat: string, rep: string)
    requires |pat| > 0
    requires !IsSubstring(pat, s)
    ensures ReplaceAll(s, pat, rep) == s
  {
    SplitOnWithoutSep(s, pat);
  }

  /** Stripping characters that neither end carries changes nothing. */
  lemma StripUntouched(s: string, chars: set<char>)
    requires |s| > 0 ==> s[0] !in chars && s[|s| - 1] !in chars
    ensures Strip(s, chars) == s
  {
  }
}
