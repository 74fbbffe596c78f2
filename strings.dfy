/** The few operations of Python's `str` that the mock device and the URL parser rely on:
    `replace`, `split`/`join`, `lstrip`, `rstrip`, `find` and ASCII `lower`. Strings are
    sequences of characters; no Unicode case folding or normalisation is modelled. */
module Strings {

  /** `p` occurs in `s` starting at index `i`. */
  predicate OccursAt(s: string, p: string, i: nat)
  {
    i + |p| <= |s| && s[i..i + |p|] == p
  }

  /** Python's `p in s`. */
  ghost predicate Contains(s: string, p: string)
  {
    exists i: nat :: OccursAt(s, p, i)
  }

  /** No proper suffix of `p` is also a prefix of `p`, so two occurrences of `p` never overlap. */
  ghost predicate Unbordered(p: string)
  {
    forall k :: 0 < k < |p| ==> p[k..] != p[..|p| - k]
  }

  /** Python's `s.replace(pattern, replacement)`: every occurrence of `pattern`, found left to
      right without overlap, is replaced. */
  function Replace(s: string, pattern: string, replacement: string): string
    requires |pattern| > 0
    decreases |s|
  {
    if |s| < |pattern| then s
    else if s[..|pattern|] == pattern then replacement + Replace(s[|pattern|..], pattern, replacement)
    else [s[0]] + Replace(s[1..], pattern, replacement)
  }

  /** Python's `s.split(sep)`: the pieces between the occurrences of `sep`, left to right. */
  function Split(s: string, sep: string): (parts: seq<string>)
    requires |sep| > 0
    ensures |parts| >= 1
    decreases |s|
  {
    if |s| < |sep| then [s]
    else if s[..|sep|] == sep then [""] + Split(s[|sep|..], sep)
    else
      var rest := Split(s[1..], sep);
      [[s[0]] + rest[0]] + rest[1..]
  }

  /** Python's `sep.join(parts)`. */
  function Join(parts: seq<string>, sep: string): string
  {
    if |parts| == 0 then ""
    else if |parts| == 1 then parts[0]
    else parts[0] + sep + Join(parts[1..], sep)
  }

  lemma JoinConsChar(c: char, parts: seq<string>, sep: string)
    requires |parts| >= 1
    ensures Join([[c] + parts[0]] + parts[1..], sep) == [c] + Join(parts, sep)
  {
    var xs := [[c] + parts[0]] + parts[1..];
    if |parts| > 1 {
      assert xs[1..] == parts[1..];
    }
  }

  /** `replace` is `split` followed by `join` with the replacement. */
  lemma {:induction false} ReplaceIsJoinOfSplit(s: string, pattern: string, replacement: string)
    requires |pattern| > 0
    ensures Replace(s, pattern, replacement) == Join(Split(s, pattern), replacement)
    decreases |s|
  {
    if |s| < |pattern| {
    } else if s[..|pattern|] == pattern {
      ReplaceIsJoinOfSplit(s[|pattern|..], pattern, replacement);
      var rest := Split(s[|pattern|..], pattern);
      assert ([""] + rest)[1..] == rest;
    } else {
      ReplaceIsJoinOfSplit(s[1..], pattern, replacement);
      JoinConsChar(s[0], Split(s[1..], pattern), replacement);
    }
  }

  lemma {:induction false} ReplaceWithItself(s: string, pattern: string)
    requires |pattern| > 0
    ensures Replace(s, pattern, pattern) == s
    decreases |s|
  {
    if |s| < |pattern| {
    } else if s[..|pattern|] == pattern {
      ReplaceWithItself(s[|pattern|..], pattern);
      assert s == s[..|pattern|] + s[|pattern|..];
    } else {
      ReplaceWithItself(s[1..], pattern);
      assert s == [s[0]] + s[1..];
    }
  }

  /** Joining the pieces of a split with the separator gives the string back. */
  lemma SplitJoinRoundTrip(s: string, sep: string)
    requires |sep| > 0
    ensures Join(Split(s, sep), sep) == s
  {
    ReplaceIsJoinOfSplit(s, sep, sep);
    ReplaceWithItself(s, sep);
  }

  lemma {:induction false} SplitFirstIsPrefix(s: string, sep: string)
    requires |sep| > 0
    ensures Split(s, sep)[0] <= s
    decreases |s|
  {
    if |s| < |sep| {
    } else if s[..|sep|] == sep {
    } else {
      SplitFirstIsPrefix(s[1..], sep);
      var p := Split(s[1..], sep)[0];
      assert [s[0]] + p == s[..|p| + 1];
    }
  }

  lemma NotContainsPrefixOf(s: string, t: string, p: string)
    requires t <= s && !Contains(s, p)
    ensures !Contains(t, p)
  {
    forall i: nat | OccursAt(t, p, i) ensures false {
      assert t[i..i + |p|] == s[i..i + |p|];
      assert OccursAt(s, p, i);
    }
  }

  /** No piece of a split contains the separator. */
  lemma {:induction false} SplitPiecesAreFree(s: string, sep: string)
    requires |sep| > 0
    ensures forall k :: 0 <= k < |Split(s, sep)| ==> !Contains(Split(s, sep)[k], sep)
    decreases |s|
  {
    var parts := Split(s, sep);
    if |s| < |sep| {
      assert parts == [s];
      forall i: nat | OccursAt(s, sep, i) ensures false { }
    } else if s[..|sep|] == sep {
      SplitPiecesAreFree(s[|sep|..], sep);
      var rest := Split(s[|sep|..], sep);
      assert parts == [""] + rest;
      forall k | 0 <= k < |parts| ensures !Contains(parts[k], sep) {
        if k == 0 {
          forall i: nat | OccursAt("", sep, i) ensures false { }
        } else {
          assert parts[k] == rest[k - 1];
        }
      }
    } else {
      SplitPiecesAreFree(s[1..], sep);
      SplitFirstIsPrefix(s[1..], sep);
      var rest := Split(s[1..], sep);
      var first := [s[0]] + rest[0];
      assert parts == [first] + rest[1..];
      assert first <= s by {
        assert first == s[..|rest[0]| + 1];
      }
      forall i: nat | OccursAt(first, sep, i) ensures false {
        if i > 0 {
          assert first[i..i + |sep|] == rest[0][i - 1..i - 1 + |sep|];
          assert OccursAt(rest[0], sep, i - 1);
        }
      }
      forall k | 0 <= k < |parts| ensures !Contains(parts[k], sep) {
        if k > 0 {
          assert parts[k] == rest[k];
        }
      }
    }
  }

  /** What `replace` does, in full: the string is the pattern-free pieces joined by the pattern,
      and the result is the same pieces, in the same order, joined by the replacement. */
  lemma ReplaceSpec(s: string, pattern: string, replacement: string)
    requires |pattern| > 0
    ensures var parts := Split(s, pattern);
      && Join(parts, pattern) == s
      && (forall k :: 0 <= k < |parts| ==> !Contains(parts[k], pattern))
      && Replace(s, pattern, replacement) == Join(parts, replacement)
  {
    SplitJoinRoundTrip(s, pattern);
    SplitPiecesAreFree(s, pattern);
    ReplaceIsJoinOfSplit(s, pattern, replacement);
  }

  /** A string without the pattern comes back from `replace` unchanged. */
  lemma {:induction false} ReplaceAbsent(s: string, pattern: string, replacement: string)
    requires |pattern| > 0 && !Contains(s, pattern)
    ensures Replace(s, pattern, replacement) == s
    decreases |s|
  {
    if |s| >= |pattern| {
      assert !OccursAt(s, pattern, 0);
      NotContainsSuffix(s, pattern);
      ReplaceAbsent(s[1..], pattern, replacement);
      assert s == [s[0]] + s[1..];
    }
  }

  lemma NotContainsSuffix(s: string, p: string)
    requires |s| > 0 && !Contains(s, p)
    ensures !Contains(s[1..], p)
  {
    forall i: nat | OccursAt(s[1..], p, i) ensures false {
      assert s[1..][i..i + |p|] == s[i + 1..i + 1 + |p|];
      assert OccursAt(s, p, i + 1);
    }
  }

  /** A one-character pattern is replaced piecewise across a concatenation. */
  lemma {:induction false} ReplaceCharConcat(a: string, b: string, c: char, replacement: string)
    ensures Replace(a + b, [c], replacement) == Replace(a, [c], replacement) + Replace(b, [c], replacement)
    decreases |a|
  {
    if |a| > 0 {
      ReplaceCharConcat(a[1..], b, c, replacement);
      assert (a + b)[1..] == a[1..] + b;
      assert (a + b)[..1] == a[..1];
    } else {
      assert a + b == b;
    }
  }

  lemma {:induction false} ReplaceCharAbsent(s: string, c: char, replacement: string)
    requires c !in s
    ensures Replace(s, [c], replacement) == s
    decreases |s|
  {
    if |s| > 0 {
      assert s[..1] != [c] by { assert s[..1][0] == s[0]; }
      ReplaceCharAbsent(s[1..], c, replacement);
      assert s == [s[0]] + s[1..];
    }
  }

  lemma OccurrenceInsideMisses(a: string, sep: string, rest: string)
    requires |sep| > 0 && |a| >= |sep| && !Contains(a, sep)
    ensures (a + sep + rest)[..|sep|] != sep
  {
    assert (a + sep + rest)[..|sep|] == a[..|sep|];
    assert !OccursAt(a, sep, 0);
  }

  lemma OccurrenceStraddlingMisses(a: string, sep: string, rest: string)
    requires 0 < |a| < |sep| && Unbordered(sep)
    ensures (a + sep + rest)[..|sep|] != sep
  {
    var d := |a|;
    var s := a + sep + rest;
    assert sep[d..] != sep[..|sep| - d];
    var j :| 0 <= j < |sep| - d && sep[d..][j] != sep[..|sep| - d][j];
    assert s[d + j] == sep[j];
    assert s[..|sep|][d + j] != sep[d + j];
  }

  lemma CharFreeNotContains(s: string, c: char)
    requires c !in s
    ensures !Contains(s, [c])
  {
    forall i: nat ensures !OccursAt(s, [c], i) {
      if i + 1 <= |s| {
        assert s[i..i + 1][0] == s[i];
      }
    }
  }

  /** An occurrence of an unbordered separator that is not inside `a` cannot start before `|a|`. */
  lemma {:induction false} SplitAtFirstSeparator(a: string, sep: string, rest: string)
    requires |sep| > 0 && Unbordered(sep) && !Contains(a, sep)
    ensures Split(a + sep + rest, sep) == [a] + Split(rest, sep)
    decreases |a|
  {
    var s := a + sep + rest;
    if |a| == 0 {
      assert s == sep + rest;
      assert s[..|sep|] == sep;
      assert s[|sep|..] == rest;
    } else {
      if |a| >= |sep| {
        OccurrenceInsideMisses(a, sep, rest);
      } else {
        OccurrenceStraddlingMisses(a, sep, rest);
      }
      NotContainsSuffix(a, sep);
      SplitAtFirstSeparator(a[1..], sep, rest);
      assert s[1..] == a[1..] + sep + rest;
      assert [a[0]] + a[1..] == a;
    }
  }

  /** Python's `s.lstrip(c)` for a single character `c`. */
  function LStrip(s: string, c: char): (r: string)
    ensures |r| <= |s| && r == s[|s| - |r|..]
    ensures |r| == 0 || r[0] != c
    ensures forall i :: 0 <= i < |s| - |r| ==> s[i] == c
  {
    if |s| > 0 && s[0] == c then LStrip(s[1..], c) else s
  }

  /** Python's `s.rstrip(chars)`: trailing characters drawn from the set `chars` are removed. */
  function RStrip(s: string, chars: set<char>): (r: string)
    ensures |r| <= |s| && r == s[..|r|]
    ensures |r| == 0 || r[|r| - 1] !in chars
    ensures forall i :: |r| <= i < |s| ==> s[i] in chars
  {
    if |s| > 0 && s[|s| - 1] in chars then RStrip(s[..|s| - 1], chars) else s
  }

  /** Index of the first character of `s` in `chars`, or `|s|` when there is none
      (Python's `find`, with "not found" as the length instead of -1). */
  function IndexOfAny(s: string, chars: set<char>): (r: nat)
    ensures r <= |s|
    ensures forall j :: 0 <= j < r ==> s[j] !in chars
    ensures r < |s| ==> s[r] in chars
  {
    if |s| == 0 || s[0] in chars then 0 else 1 + IndexOfAny(s[1..], chars)
  }

  lemma {:induction false} IndexOfAnyAfterFree(a: string, b: string, chars: set<char>)
    requires forall j :: 0 <= j < |a| ==> a[j] !in chars
    ensures IndexOfAny(a + b, chars) == |a| + IndexOfAny(b, chars)
    decreases |a|
  {
    if |a| > 0 {
      IndexOfAnyAfterFree(a[1..], b, chars);
      assert (a + b)[1..] == a[1..] + b;
    } else {
      assert a + b == b;
    }
  }

  /** The part of `s` after the last `c` (Python's `s.rpartition(c)[2]`). */
  function AfterLast(s: string, c: char): (r: string)
    ensures |r| <= |s| && r == s[|s| - |r|..]
    ensures c !in r
    ensures |r| < |s| ==> s[|s| - |r| - 1] == c
  {
    if |s| == 0 then ""
    else if s[|s| - 1] == c then ""
    else AfterLast(s[..|s| - 1], c) + [s[|s| - 1]]
  }

  lemma {:induction false} AfterLastAbsent(s: string, c: char)
    requires c !in s
    ensures AfterLast(s, c) == s
    decreases |s|
  {
    if |s| > 0 {
      AfterLastAbsent(s[..|s| - 1], c);
      assert s == s[..|s| - 1] + [s[|s| - 1]];
    }
  }

  function LowerChar(c: char): char
  {
    if 'A' <= c <= 'Z' then (c as int - 'A' as int + 'a' as int) as char else c
  }

  /** Python's `s.lower()`, restricted to ASCII letters. */
  function Lower(s: string): (r: string)
    ensures |r| == |s|
    ensures forall i :: 0 <= i < |s| ==> r[i] == LowerChar(s[i])
  {
    seq(|s|, i requires 0 <= i < |s| => LowerChar(s[i]))
  }
}
