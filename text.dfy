/**
 * Strings as sequences of characters, and the handful of string operations
 * the source relies on: trimming (with Java's and JavaScript's notions of
 * white space), ASCII case mapping, substring containment, prefix tests,
 * splitting at a separator, joining and decimal rendering of integers.
 */
module Text {

  /** Which language's trim() is meant: they disagree on what white space is. */
  datatype Flavour = Java | JavaScript

  /** Java's String.trim drops every leading and trailing char whose code is at most U+0020. */
  predicate IsJavaSpace(c: char) {
    c <= ' '
  }

  /** The white space and line terminators removed by String.prototype.trim in JavaScript. */
  predicate IsJsSpace(c: char) {
    if c < '\U{A0}' then c == ' ' || '\t' <= c <= '\r' else IsWideSpace(c)
  }

  /** The white space of JavaScript's trim beyond ASCII: no-break, Ogham, the U+2000 block, separators, BOM. */
  predicate IsWideSpace(c: char) {
    c == '\U{A0}' || c == '\U{1680}' || ('\U{2000}' <= c <= '\U{200A}')
    || c == '\U{2028}' || c == '\U{2029}' || c == '\U{202F}' || c == '\U{205F}'
    || c == '\U{3000}' || c == '\U{FEFF}'
  }

  predicate IsSpace(f: Flavour, c: char) {
    match f
    case Java => IsJavaSpace(c)
    case JavaScript => IsJsSpace(c)
  }

  /** Where the text starts once the white space from position i on is skipped. */
  function SpanStart(f: Flavour, s: string, i: nat): (r: nat)
    requires i <= |s|
    ensures i <= r <= |s|
    ensures forall k :: i <= k < r ==> IsSpace(f, s[k])
    ensures r < |s| ==> !IsSpace(f, s[r])
    decreases |s| - i
  {
    if i < |s| && IsSpace(f, s[i]) then SpanStart(f, s, i + 1) else i
  }

  /** Where the text ends once the white space before position j, down to i, is dropped. */
  function SpanEnd(f: Flavour, s: string, i: nat, j: nat): (r: nat)
    requires i <= j <= |s|
    ensures i <= r <= j
    ensures forall k :: r <= k < j ==> IsSpace(f, s[k])
    ensures r > i ==> !IsSpace(f, s[r - 1])
    decreases j
  {
    if j > i && IsSpace(f, s[j - 1]) then SpanEnd(f, s, i, j - 1) else j
  }

  /** s.trim() in the given language: the leading and trailing white space dropped. */
  function Trim(f: Flavour, s: string): string {
    var i := SpanStart(f, s, 0);
    s[i..SpanEnd(f, s, i, |s|)]
  }

  /** Either empty, or neither end is white space. */
  predicate IsTrimmed(f: Flavour, s: string) {
    s == [] || (!IsSpace(f, s[0]) && !IsSpace(f, s[|s| - 1]))
  }

  /** s.trim().isEmpty() in Java, !s.trim() in JavaScript. */
  predicate IsBlank(f: Flavour, s: string) {
    Trim(f, s) == []
  }

  /** Trim keeps a contiguous middle slice, is itself trimmed, and drops only white space. */
  lemma TrimSlice(f: Flavour, s: string) returns (i: nat, j: nat)
    ensures i <= j <= |s| && Trim(f, s) == s[i..j]
    ensures IsTrimmed(f, Trim(f, s))
    ensures forall k :: 0 <= k < i || j <= k < |s| ==> IsSpace(f, s[k])
  {
    i := SpanStart(f, s, 0);
    j := SpanEnd(f, s, i, |s|);
    var r := s[i..j];
    if r != [] {
      assert r[0] == s[i] && r[|r| - 1] == s[j - 1];
    }
  }

  /** The result of trim has no white space at either end. */
  lemma TrimIsTrimmed(f: Flavour, s: string)
    ensures IsTrimmed(f, Trim(f, s))
  {
    var _, _ := TrimSlice(f, s);
  }

  /** Position k of the slice s[i..j] is position i + k of s. */
  lemma SliceIndex(s: string, i: nat, j: nat, k: nat)
    requires i <= j <= |s| && k < j - i
    ensures s[i..j][k] == s[i + k]
  {
  }

  /** A string without white space at its ends is its own trim. */
  lemma {:induction false} TrimOfTrimmed(f: Flavour, s: string)
    requires IsTrimmed(f, s)
    ensures Trim(f, s) == s
  {
    if s != [] {
      assert SpanStart(f, s, 0) == 0;
      assert SpanEnd(f, s, 0, |s|) == |s|;
    }
  }

  /** Trimming twice is trimming once. */
  lemma TrimIdempotent(f: Flavour, s: string)
    ensures Trim(f, Trim(f, s)) == Trim(f, s)
  {
    var _, _ := TrimSlice(f, s);
    TrimOfTrimmed(f, Trim(f, s));
  }

  /** A string is blank exactly when every one of its characters is white space. */
  lemma BlankIffAllSpace(f: Flavour, s: string)
    ensures IsBlank(f, s) <==> forall k :: 0 <= k < |s| ==> IsSpace(f, s[k])
  {
    var i, j := TrimSlice(f, s);
    if !IsBlank(f, s) {
      assert !IsSpace(f, s[i]);
    }
  }

  /** Character-wise ASCII lower-casing; every other character is kept. */
  function LowerChar(c: char): char {
    if 'A' <= c <= 'Z' then (c as int + 32) as char else c
  }

  /** Character-wise ASCII upper-casing; every other character is kept. */
  function UpperChar(c: char): char {
    if 'a' <= c <= 'z' then (c as int - 32) as char else c
  }

  /** s.toLowerCase(), restricted to ASCII letters. */
  function Lower(s: string): (r: string)
    ensures |r| == |s| && forall k :: 0 <= k < |s| ==> r[k] == LowerChar(s[k])
  {
    seq(|s|, k requires 0 <= k < |s| => LowerChar(s[k]))
  }

  /** s.toUpperCase(), restricted to ASCII letters. */
  function Upper(s: string): (r: string)
    ensures |r| == |s| && forall k :: 0 <= k < |s| ==> r[k] == UpperChar(s[k])
  {
    seq(|s|, k requires 0 <= k < |s| => UpperChar(s[k]))
  }

  lemma LowerIdempotent(s: string)
    ensures Lower(Lower(s)) == Lower(s)
  {
  }

  /** Lower-casing does not turn a space into a letter or a letter into a space. */
  lemma LowerKeepsSpace(f: Flavour, c: char)
    ensures IsSpace(f, LowerChar(c)) == IsSpace(f, c)
  {
  }

  /** Lower-casing moves neither end of the trimmed span. */
  lemma {:induction false} LowerSpanStart(f: Flavour, s: string, i: nat)
    requires i <= |s|
    ensures SpanStart(f, Lower(s), i) == SpanStart(f, s, i)
    decreases |s| - i
  {
    if i < |s| {
      LowerKeepsSpace(f, s[i]);
      if IsSpace(f, s[i]) {
        LowerSpanStart(f, s, i + 1);
      }
    }
  }

  lemma {:induction false} LowerSpanEnd(f: Flavour, s: string, i: nat, j: nat)
    requires i <= j <= |s|
    ensures SpanEnd(f, Lower(s), i, j) == SpanEnd(f, s, i, j)
    decreases j
  {
    if j > i {
      LowerKeepsSpace(f, s[j - 1]);
      if IsSpace(f, s[j - 1]) {
        LowerSpanEnd(f, s, i, j - 1);
      }
    }
  }

  /** Lower-casing and trimming commute: the two orders give the same string. */
  lemma LowerTrimCommute(f: Flavour, s: string)
    ensures Trim(f, Lower(s)) == Lower(Trim(f, s))
  {
    var i := SpanStart(f, s, 0);
    LowerSpanStart(f, s, 0);
    LowerSpanEnd(f, s, i, |s|);
    LowerSlice(s, i, SpanEnd(f, s, i, |s|));
  }

  /** Lower-casing a slice is slicing the lower-cased string. */
  lemma LowerSlice(s: string, i: nat, j: nat)
    requires i <= j <= |s|
    ensures Lower(s)[i..j] == Lower(s[i..j])
  {
    assert forall k :: 0 <= k < j - i ==> Lower(s)[i..j][k] == Lower(s)[i + k];
  }

  /** Substring containment, s.includes(sub) / s.contains(sub). */
  predicate Contains(s: string, sub: string) {
    sub <= s || (s != [] && Contains(s[1..], sub))
  }

  /** Every string contains the empty string. */
  lemma ContainsEmpty(s: string)
    ensures Contains(s, [])
  {
  }

  /** sub occurs in s starting at position i. */
  predicate OccursAt(s: string, sub: string, i: int) {
    0 <= i <= |s| - |sub| && s[i..i + |sub|] == sub
  }

  /** Containment holds exactly when sub occurs at some position of s. */
  lemma {:induction false} ContainsAt(s: string, sub: string)
    ensures Contains(s, sub) <==> exists i :: OccursAt(s, sub, i)
  {
    if sub <= s {
      assert OccursAt(s, sub, 0);
    } else if s != [] {
      ContainsAt(s[1..], sub);
      forall i | 0 < i <= |s| - |sub| ensures OccursAt(s, sub, i) == OccursAt(s[1..], sub, i - 1) {
        assert s[1..][i - 1..i - 1 + |sub|] == s[i..i + |sub|];
      }
      assert OccursAt(s, sub, 0) ==> sub <= s;
      if Contains(s[1..], sub) {
        var i :| OccursAt(s[1..], sub, i);
        assert OccursAt(s, sub, i + 1);
      }
    }
  }

  /** Every character of a contained string occurs in the containing one. */
  lemma {:induction false} ContainsChars(s: string, sub: string)
    ensures Contains(s, sub) ==> forall k :: 0 <= k < |sub| ==> sub[k] in s
  {
    if Contains(s, sub) && !(sub <= s) {
      ContainsChars(s[1..], sub);
      forall k | 0 <= k < |sub| ensures sub[k] in s {
        var j :| 0 <= j < |s[1..]| && s[1..][j] == sub[k];
        assert s[j + 1] == sub[k];
      }
    } else if sub <= s {
      forall k | 0 <= k < |sub| ensures sub[k] in s {
        assert s[k] == sub[k];
      }
    }
  }

  /** s.startsWith(p). */
  predicate StartsWith(s: string, p: string) {
    p <= s
  }

  /** s.split(c)[0]: the part of s before the first occurrence of c, or all of s. */
  function BeforeFirst(s: string, c: char): (r: string)
    ensures r <= s && c !in r
    ensures |r| < |s| ==> s[|r|] == c
  {
    if s == [] || s[0] == c then [] else [s[0]] + BeforeFirst(s[1..], c)
  }

  /** Joins the parts with the separator between consecutive parts, as Array.join does. */
  function Join(parts: seq<string>, sep: string): string {
    if parts == [] then []
    else if |parts| == 1 then parts[0]
    else parts[0] + sep + Join(parts[1..], sep)
  }

  function DigitChar(d: nat): char
    requires d < 10
  {
    ('0' as int + d) as char
  }

  /** The decimal digits of n, without leading zeros. */
  function NatToString(n: nat): (r: string)
    ensures r != [] && forall k :: 0 <= k < |r| ==> '0' <= r[k] <= '9'
  {
    if n < 10 then [DigitChar(n)] else NatToString(n / 10) + [DigitChar(n % 10)]
  }

  /** String.valueOf(long) / Number.prototype.toString for integers. */
  function IntToString(n: int): string {
    if n < 0 then "-" + NatToString(-n) else NatToString(n)
  }
}
