/** String primitives of the JavaScript runtime the application relies on:
    prefix and suffix tests, `trim()` and the `\s` regex class, ASCII case
    folding, `split` and the segment after the last separator. */
module Strings {

  predicate StartsWith(s: string, prefix: string)
  {
    |prefix| <= |s| && s[..|prefix|] == prefix
  }

  predicate EndsWith(s: string, suffix: string)
  {
    |suffix| <= |s| && s[|s| - |suffix|..] == suffix
  }

  /** ECMAScript WhiteSpace and LineTerminator code points: exactly what
      `String.prototype.trim` removes and what the regex class `\s` matches. */
  predicate IsWhitespace(c: char)
  {
    || c == ' ' || c == '\t' || c == '\n' || c == '\r'
    || c == '\U{000B}' || c == '\U{000C}' || c == '\U{00A0}' || c == '\U{1680}'
    || ('\U{2000}' <= c <= '\U{200A}')
    || c == '\U{2028}' || c == '\U{2029}' || c == '\U{202F}' || c == '\U{205F}'
    || c == '\U{3000}' || c == '\U{FEFF}'
  }

  predicate AllWhitespace(s: string)
  {
    forall i :: 0 <= i < |s| ==> IsWhitespace(s[i])
  }

  /** No whitespace at either end. */
  predicate Trimmed(s: string)
  {
    |s| == 0 || (!IsWhitespace(s[0]) && !IsWhitespace(s[|s| - 1]))
  }

  /** Removes the longest all-whitespace prefix (the regex `^\s*`). */
  function TrimStart(s: string): (r: string)
    ensures |r| <= |s| && r == s[|s| - |r|..]
    ensures AllWhitespace(s[..|s| - |r|])
    ensures |r| == 0 || !IsWhitespace(r[0])
  {
    if |s| > 0 && IsWhitespace(s[0]) then TrimStart(s[1..]) else s
  }

  /** Removes the longest all-whitespace suffix. */
  function TrimEnd(s: string): (r: string)
    ensures |r| <= |s| && r == s[..|r|]
    ensures AllWhitespace(s[|r|..])
    ensures |r| == 0 || !IsWhitespace(r[|r| - 1])
  {
    if |s| > 0 && IsWhitespace(s[|s| - 1]) then TrimEnd(s[..|s| - 1]) else s
  }

  /** `String.prototype.trim`: the result is the slice of the input left
      once whitespace is removed from both ends, and nothing else. */
  function Trim(s: string): (r: string)
    ensures Trimmed(r)
    // r is the slice of s after its leading whitespace, followed only by whitespace
    ensures var i := LeadingWhitespace(s);
            && i + |r| <= |s| && r == s[i..i + |r|]
            && AllWhitespace(s[..i]) && AllWhitespace(s[i + |r|..])
  {
    var a := TrimStart(s);
    var r := TrimEnd(a);
    SliceOfSuffix(s, LeadingWhitespace(s), |r|);
    r
  }

  /** A prefix of a suffix of `s` is a middle slice of `s`, and what follows it is a suffix of `s`. */
  lemma SliceOfSuffix(s: string, i: nat, n: nat)
    requires i + n <= |s|
    ensures s[i..][..n] == s[i..i + n]
    ensures s[i..][n..] == s[i + n..]
  {
  }

  /** How many whitespace characters open `s`. */
  function LeadingWhitespace(s: string): (n: nat)
    ensures n <= |s| && AllWhitespace(s[..n])
    ensures n == |s| || !IsWhitespace(s[n])
  {
    |s| - |TrimStart(s)|
  }

  lemma TrimStartSkipsWhitespace(c: char, s: string)
    requires IsWhitespace(c)
    ensures TrimStart([c] + s) == TrimStart(s)
  {
    assert ([c] + s)[1..] == s;
  }

  lemma TrimEndSkipsWhitespace(s: string, c: char)
    requires IsWhitespace(c)
    ensures TrimEnd(s + [c]) == TrimEnd(s)
  {
    assert (s + [c])[..|s|] == s;
  }

  /** A string already trimmed is left unchanged, so trimming is idempotent. */
  lemma {:induction false} TrimOfTrimmed(s: string)
    requires Trimmed(s)
    ensures Trim(s) == s
  {
    assert TrimStart(s) == s;
  }

  lemma TrimIdempotent(s: string)
    ensures Trim(Trim(s)) == Trim(s)
  {
    TrimOfTrimmed(Trim(s));
  }

  function LowerAscii(c: char): char
  {
    if 'A' <= c <= 'Z' then (c as int + 32) as char else c
  }

  /** `toLowerCase`, restricted to the ASCII letters. */
  function ToLowerAscii(s: string): (r: string)
    ensures |r| == |s|
    ensures forall i :: 0 <= i < |s| ==> r[i] == LowerAscii(s[i])
  {
    if |s| == 0 then "" else [LowerAscii(s[0])] + ToLowerAscii(s[1..])
  }

  /** `s.split(sep)` for a one-character separator: never empty, and an
      empty string splits into one empty part. */
  function Split(s: string, sep: char): (parts: seq<string>)
    ensures |parts| >= 1
  {
    if |s| == 0 then [""]
    else
      var rest := Split(s[1..], sep);
      if s[0] == sep then [""] + rest
      else [[s[0]] + rest[0]] + rest[1..]
  }

  /** The part of `s` after its last `sep`; all of `s` when `sep` does not occur. */
  function LastSegment(s: string, sep: char): (r: string)
    ensures EndsWith(s, r)
    ensures sep !in r
    ensures |r| < |s| ==> s[|s| - |r| - 1] == sep
  {
    if |s| == 0 || s[|s| - 1] == sep then ""
    else LastSegment(s[..|s| - 1], sep) + [s[|s| - 1]]
  }

  /** `Split(s, sep).pop()` is the segment after the last separator. */
  lemma {:induction false} LastOfSplit(s: string, sep: char)
    ensures var parts := Split(s, sep); parts[|parts| - 1] == LastSegment(s, sep)
  {
    if sep !in s {
      SplitWithoutSep(s, sep);
      NoSepLastSegment(s, sep);
    } else {
      assert |s| > 0;
      var rest := Split(s[1..], sep);
      if sep in s[1..] {
        LastOfSplit(s[1..], sep);
        SplitWithSep(s[1..], sep);
        LastSegmentDropsHead(s, sep);
      } else {
        // the only separator is the head
        assert s[0] == sep;
        SplitWithoutSep(s[1..], sep);
        NoSepLastSegment(s[1..], sep);
        LastSegmentDropsHead(s, sep);
      }
    }
  }

  /** The last segment of a non-empty string is that of its tail, unless the
      separator never occurs in the tail and the head is not the separator. */
  lemma {:induction false} LastSegmentDropsHead(s: string, sep: char)
    requires |s| > 0
    requires s[0] == sep || sep in s[1..]
    ensures LastSegment(s, sep) == LastSegment(s[1..], sep)
  {
    if s[|s| - 1] == sep {
    } else {
      var init := s[..|s| - 1];
      assert s[1..][..|s[1..]| - 1] == init[1..];
      if s[0] != sep {
        var k :| 0 <= k < |s[1..]| && s[1..][k] == sep;
        assert k < |s[1..]| - 1;
        assert init[1..][k] == sep;
      }
      LastSegmentDropsHead(init, sep);
    }
  }

  /** `f` is the text of `s` before its first `sep` (all of `s` when there is none). */
  predicate IsFirstSegment(s: string, sep: char, f: string)
  {
    sep !in f && StartsWith(s, f) && (|f| == |s| || s[|f|] == sep)
  }

  /** `s.split(sep)[0]` is the text before the first separator. */
  lemma {:induction false} FirstOfSplit(s: string, sep: char)
    ensures IsFirstSegment(s, sep, Split(s, sep)[0])
  {
    if |s| > 0 && s[0] != sep {
      FirstOfSplit(s[1..], sep);
      var f := Split(s[1..], sep)[0];
      assert Split(s, sep)[0] == [s[0]] + f;
      assert s[..|f| + 1] == [s[0]] + s[1..][..|f|];
    }
  }

  /** The first part of the split is the only prefix that stops at the first separator. */
  lemma {:induction false} FirstSegmentIsSplit(s: string, sep: char, f: string)
    ensures IsFirstSegment(s, sep, f) <==> f == Split(s, sep)[0]
  {
    FirstOfSplit(s, sep);
    if IsFirstSegment(s, sep, f) {
      FirstSegmentUnique(s, sep, f, Split(s, sep)[0]);
    }
  }

  lemma FirstSegmentUnique(s: string, sep: char, a: string, b: string)
    requires IsFirstSegment(s, sep, a) && IsFirstSegment(s, sep, b)
    ensures a == b
  {
    ShorterSegmentIsPrefix(s, sep, a, b);
    ShorterSegmentIsPrefix(s, sep, b, a);
    assert a == s[..|a|];
  }

  /** A first segment is no longer than any prefix of `s` free of `sep`. */
  lemma ShorterSegmentIsPrefix(s: string, sep: char, a: string, b: string)
    requires IsFirstSegment(s, sep, a) && sep !in b && StartsWith(s, b)
    ensures |b| <= |a|
  {
  }

  lemma {:induction false} SplitWithoutSep(s: string, sep: char)
    requires sep !in s
    ensures Split(s, sep) == [s]
  {
    if |s| > 0 {
      assert sep !in s[1..] by {
        forall k | 0 <= k < |s[1..]| ensures s[1..][k] != sep { assert s[1..][k] == s[k + 1]; }
      }
      SplitWithoutSep(s[1..], sep);
      assert s == [s[0]] + s[1..];
    }
  }

  lemma {:induction false} SplitWithSep(s: string, sep: char)
    requires sep in s
    ensures |Split(s, sep)| > 1
  {
    if s[0] != sep {
      assert sep in s[1..] by {
        var k :| 0 <= k < |s| && s[k] == sep;
        assert s[1..][k - 1] == sep;
      }
      SplitWithSep(s[1..], sep);
    }
  }

  lemma NoSepLastSegment(s: string, sep: char)
    requires sep !in s
    ensures LastSegment(s, sep) == s
  {
  }
}
