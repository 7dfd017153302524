/** Character and string helpers shared by the validators, the schemas and the
    task query: JavaScript's `trim`, ASCII case mapping, case-insensitive
    substring search and the binary (code-point) string order used for sorting. */
module Text {

  /** The characters JavaScript's `String.prototype.trim` and the `\s` class strip:
      WhiteSpace and LineTerminator of ECMA-262. */
  predicate IsSpace(c: char) {
    || c == ' ' || c == '\t' || c == '\n' || c == '\r' || c == '\U{B}' || c == '\U{C}'
    || c == '\U{A0}' || c == '\U{1680}' || ('\U{2000}' <= c <= '\U{200A}')
    || c == '\U{2028}' || c == '\U{2029}' || c == '\U{202F}' || c == '\U{205F}'
    || c == '\U{3000}' || c == '\U{FEFF}'
  }

  /** A string with no whitespace at either end. */
  predicate Trimmed(s: string) {
    s == [] || (!IsSpace(s[0]) && !IsSpace(s[|s| - 1]))
  }

  predicate AllSpace(s: string) {
    forall i :: 0 <= i < |s| ==> IsSpace(s[i])
  }

  /** The number of whitespace characters `s` starts with. */
  function LeadingSpaces(s: string): (n: nat)
    ensures n <= |s| && AllSpace(s[..n])
    ensures n < |s| ==> !IsSpace(s[n])
  {
    if s != [] && IsSpace(s[0]) then
      var n := 1 + LeadingSpaces(s[1..]);
      assert forall i :: 1 <= i < n ==> s[..n][i] == s[1..][..n - 1][i - 1];
      n
    else 0
  }

  /** The number of whitespace characters `s` ends with. */
  function TrailingSpaces(s: string): (n: nat)
    ensures n <= |s| && AllSpace(s[|s| - n..])
    ensures n < |s| ==> !IsSpace(s[|s| - n - 1])
  {
    if s != [] && IsSpace(s[|s| - 1]) then
      var m := TrailingSpaces(s[..|s| - 1]);
      SpaceSuffixGrows(s, m);
      m + 1
    else 0
  }

  /** A whitespace run at the end of `s` minus its last character grows by that
      character when it is whitespace. */
  lemma SpaceSuffixGrows(s: string, m: nat)
    requires s != [] && IsSpace(s[|s| - 1])
    requires m <= |s| - 1 && AllSpace(s[..|s| - 1][|s| - 1 - m..])
    ensures AllSpace(s[|s| - (m + 1)..])
  {
    var p := s[..|s| - 1];
    var q := p[|p| - m..];
    var t := s[|s| - (m + 1)..];
    forall i | 0 <= i < |t| ensures IsSpace(t[i]) {
      if i < m { assert t[i] == q[i]; }
    }
  }

  /** JavaScript's `s.trim()`: what lies between the leading and the trailing
      whitespace. */
  function Trim(s: string): (r: string)
    ensures Trimmed(r) && |r| <= |s|
    ensures Trimmed(s) ==> r == s
    ensures r == [] <==> AllSpace(s)
  {
    var a := LeadingSpaces(s);
    var r := s[a..][..|s| - a - TrailingSpaces(s[a..])];
    assert r == [] ==> AllSpace(s) by {
      if r == [] { AllSpaceJoin(s, a); }
    }
    r
  }

  /** Whitespace up to `a` followed by whitespace after it. */
  lemma AllSpaceJoin(s: string, a: nat)
    requires a <= |s| && AllSpace(s[..a]) && AllSpace(s[a..])
    ensures AllSpace(s)
  {
    forall i | 0 <= i < |s| ensures IsSpace(s[i]) {
      if i < a { assert s[i] == s[..a][i]; } else { assert s[i] == s[a..][i - a]; }
    }
  }

  /** `trim` removes whitespace at both ends and nothing else: the result is the
      slice of `s` from `a` to `b`, with only whitespace before and after it. */
  lemma TrimSpan(s: string) returns (a: nat, b: nat)
    ensures a <= b <= |s| && Trim(s) == s[a..b]
    ensures AllSpace(s[..a]) && AllSpace(s[b..])
  {
    a := LeadingSpaces(s);
    var n := TrailingSpaces(s[a..]);
    b := |s| - n;
    assert s[a..][|s| - a - n..] == s[b..];
  }

  lemma TrimIdempotent(s: string)
    ensures Trim(Trim(s)) == Trim(s)
  {
  }

  /** The number of UTF-16 code units of `s`: two for a character outside the Basic
      Multilingual Plane, one for any other. This is JavaScript's `length`, and what
      the document store's `minlength` / `maxlength` compare. */
  function Utf16Length(s: string): (r: nat)
    ensures |s| <= r <= 2 * |s|
  {
    if s == [] then 0 else (if s[0] as int >= 0x10000 then 2 else 1) + Utf16Length(s[1..])
  }

  /** A character every UTF-16 encoding writes as one code unit. */
  predicate InBmp(c: char) {
    (c as int) < 0x10000
  }

  lemma {:induction false} Utf16LengthOfBmp(s: string)
    requires forall i :: 0 <= i < |s| ==> InBmp(s[i])
    ensures Utf16Length(s) == |s|
  {
    if s != [] {
      Utf16LengthOfBmp(s[1..]);
    }
  }

  lemma {:induction false} Utf16LengthOfAstral(s: string)
    requires forall i :: 0 <= i < |s| ==> !InBmp(s[i])
    ensures Utf16Length(s) == 2 * |s|
  {
    if s != [] {
      Utf16LengthOfAstral(s[1..]);
    }
  }

  /** The variation selectors U+FE0E and U+FE0F, which validator.js's `isLength` does
      not count. */
  predicate IsVariationSelector(c: char) {
    c == '\U{FE0E}' || c == '\U{FE0F}'
  }

  /** validator.js's `isLength` count: the UTF-16 length less one per surrogate pair
      and one per variation selector, that is, the characters other than U+FE0E and
      U+FE0F. */
  function ValidatorLength(s: string): (r: nat)
    ensures r <= |s|
  {
    if s == [] then 0 else (if IsVariationSelector(s[0]) then 0 else 1) + ValidatorLength(s[1..])
  }

  lemma {:induction false} ValidatorLengthPlain(s: string)
    requires forall i :: 0 <= i < |s| ==> !IsVariationSelector(s[i])
    ensures ValidatorLength(s) == |s|
  {
    if s != [] {
      ValidatorLengthPlain(s[1..]);
    }
  }

  /** On text without characters outside the Basic Multilingual Plane and without
      variation selectors, the trimmed string measures the same both ways. */
  lemma NarrowTrimMeasures(s: string)
    requires forall i :: 0 <= i < |s| ==> InBmp(s[i]) && !IsVariationSelector(s[i])
    ensures Utf16Length(Trim(s)) == ValidatorLength(Trim(s)) == |Trim(s)|
  {
    var r := Trim(s);
    var a, b := TrimSpan(s);
    assert forall i :: 0 <= i < |r| ==> r[i] == s[a + i];
    Utf16LengthOfBmp(r);
    ValidatorLengthPlain(r);
  }

  /** ASCII case mapping; JavaScript's `toLowerCase`/`toUpperCase` restricted to A-Z and a-z. */
  function LowerChar(c: char): char {
    if 'A' <= c <= 'Z' then (c as int + 32) as char else c
  }

  function UpperChar(c: char): char {
    if 'a' <= c <= 'z' then (c as int - 32) as char else c
  }

  function Lower(s: string): (r: string)
    ensures |r| == |s| && forall i :: 0 <= i < |s| ==> r[i] == LowerChar(s[i])
  {
    seq(|s|, i requires 0 <= i < |s| => LowerChar(s[i]))
  }

  lemma LowerIdempotent(s: string)
    ensures Lower(Lower(s)) == Lower(s)
  {
  }

  /** Whitespace is unaffected by case mapping, so trimming and lower-casing commute. */
  lemma LowerTrimmed(s: string)
    requires Trimmed(s)
    ensures Trimmed(Lower(s))
  {
  }

  predicate IsPrefix(p: string, s: string) {
    |p| <= |s| && s[..|p|] == p
  }

  /** `n` occurs as a contiguous substring of `h`. */
  predicate Contains(h: string, n: string)
    decreases |h|
  {
    IsPrefix(n, h) || (h != [] && Contains(h[1..], n))
  }

  lemma {:induction false} ContainsAt(h: string, n: string, i: nat)
    requires i + |n| <= |h| && h[i..i + |n|] == n
    ensures Contains(h, n)
    decreases i
  {
    if i == 0 {
      assert IsPrefix(n, h);
    } else {
      assert h[1..][i - 1..i - 1 + |n|] == h[i..i + |n|];
      ContainsAt(h[1..], n, i - 1);
    }
  }

  lemma {:induction false} ContainsWitness(h: string, n: string) returns (i: nat)
    requires Contains(h, n)
    ensures i + |n| <= |h| && h[i..i + |n|] == n
    decreases |h|
  {
    if IsPrefix(n, h) {
      i := 0;
    } else {
      var j := ContainsWitness(h[1..], n);
      assert h[1..][j..j + |n|] == h[j + 1..j + 1 + |n|];
      i := j + 1;
    }
  }

  /** The case-insensitive substring match of a `$regex` with option `i` and no metacharacters. */
  predicate ContainsIgnoringCase(h: string, n: string) {
    Contains(Lower(h), Lower(n))
  }

  /** Binary string order (by code point), as MongoDB compares strings without a collation. */
  predicate LexLe(a: string, b: string)
    decreases |a|
  {
    a == [] || (b != [] && (a[0] < b[0] || (a[0] == b[0] && LexLe(a[1..], b[1..]))))
  }

  lemma {:induction false} LexLeTotal(a: string, b: string)
    ensures LexLe(a, b) || LexLe(b, a)
    decreases |a|
  {
    if a != [] && b != [] && a[0] == b[0] {
      LexLeTotal(a[1..], b[1..]);
    }
  }

  lemma {:induction false} LexLeTransitive(a: string, b: string, c: string)
    requires LexLe(a, b) && LexLe(b, c)
    ensures LexLe(a, c)
    decreases |a|
  {
    if a != [] && b != [] && c != [] && a[0] == b[0] && b[0] == c[0] {
      LexLeTransitive(a[1..], b[1..], c[1..]);
    }
  }

  lemma {:induction false} LexLeAntisymmetric(a: string, b: string)
    requires LexLe(a, b) && LexLe(b, a)
    ensures a == b
    decreases |a|
  {
    if a != [] {
      LexLeAntisymmetric(a[1..], b[1..]);
    }
  }

  // ----- split and join -----

  /** `s.split(sep)` for a one-character separator: the pieces between separators,
      empty ones included. */
  function Split(s: string, sep: char): (r: seq<string>)
    ensures |r| >= 1
    ensures forall k :: 0 <= k < |r| ==> sep !in r[k]
  {
    if s == [] then [""]
    else
      var rest := Split(s[1..], sep);
      if s[0] == sep then [""] + rest
      else [[s[0]] + rest[0]] + rest[1..]
  }

  /** `parts.join(sep)`. */
  function Join(parts: seq<string>, sep: char): string
    requires |parts| >= 1
  {
    if |parts| == 1 then parts[0] else parts[0] + [sep] + Join(parts[1..], sep)
  }

  /** Joining the pieces gives back the string. */
  lemma {:induction false} JoinSplit(s: string, sep: char)
    ensures Join(Split(s, sep), sep) == s
  {
    if s != [] {
      var rest := Split(s[1..], sep);
      JoinSplit(s[1..], sep);
      if s[0] == sep {
        assert ([""] + rest)[1..] == rest;
      } else {
        var r := [[s[0]] + rest[0]] + rest[1..];
        assert r[1..] == rest[1..];
        if |rest| > 1 {
          assert rest[1..][0] == rest[1];
          assert Join(rest, sep) == rest[0] + [sep] + Join(rest[1..], sep);
        }
      }
      assert s == [s[0]] + s[1..];
    }
  }

  /** Splitting pieces that hold no separator after joining them gives the pieces back. */
  lemma {:induction false} SplitJoin(parts: seq<string>, sep: char)
    requires |parts| >= 1 && forall k :: 0 <= k < |parts| ==> sep !in parts[k]
    ensures Split(Join(parts, sep), sep) == parts
  {
    if |parts| == 1 {
      SplitPiece(parts[0], [], sep);
    } else {
      SplitJoin(parts[1..], sep);
      SplitPiece(parts[0], [Join(parts[1..], sep)], sep);
      assert parts == [parts[0]] + parts[1..];
    }
  }

  /** Splitting a separator-free piece, then a separator and a tail (or nothing). */
  lemma {:induction false} SplitPiece(w: string, tail: seq<string>, sep: char)
    requires sep !in w && |tail| <= 1
    ensures |tail| == 0 ==> Split(w, sep) == [w]
    ensures |tail| == 1 ==> Split(w + [sep] + tail[0], sep) == [w] + Split(tail[0], sep)
  {
    if w == [] {
      if |tail| == 1 {
        assert (w + [sep] + tail[0]) == [sep] + tail[0];
        assert ([sep] + tail[0])[1..] == tail[0];
      }
    } else {
      assert w == [w[0]] + w[1..];
      SplitPiece(w[1..], tail, sep);
      if |tail| == 1 {
        var s := w + [sep] + tail[0];
        assert s[0] == w[0] && s[1..] == w[1..] + [sep] + tail[0];
      }
    }
  }
}
