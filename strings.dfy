/** Character classes, trimming, case mapping, substring search and the
    character ordering of strings, as the PHP and JavaScript code uses them. */
module Strings {

  /** The characters JavaScript's `String.prototype.trim` and the regular
      expression class `\s` treat as white space (WhiteSpace and LineTerminator). */
  predicate IsJsSpace(c: char) {
    || c == ' ' || c == '\t' || c == '\n' || c == '\r' || c == '\U{B}' || c == '\U{C}'
    || c == '\U{A0}' || c == '\U{1680}' || ('\U{2000}' <= c <= '\U{200A}')
    || c == '\U{2028}' || c == '\U{2029}' || c == '\U{202F}' || c == '\U{205F}'
    || c == '\U{3000}' || c == '\U{FEFF}'
  }

  /** The characters PHP's `trim` strips by default: " \t\n\r\0\x0B". */
  predicate IsPhpSpace(c: char) {
    c == ' ' || c == '\t' || c == '\n' || c == '\r' || c == '\0' || c == '\U{B}'
  }

  /** `s` without its leading run of `p`-characters. */
  function DropLeading(s: string, p: char -> bool): (r: string)
    ensures |r| <= |s| && r == s[|s| - |r|..]
    ensures r != [] ==> !p(r[0])
    ensures forall k :: 0 <= k < |s| - |r| ==> p(s[k])
  {
    if s != [] && p(s[0]) then DropLeading(s[1..], p) else s
  }

  /** `s` without its trailing run of `p`-characters. */
  function DropTrailing(s: string, p: char -> bool): (r: string)
    ensures |r| <= |s| && r == s[..|r|]
    ensures r != [] ==> !p(r[|r| - 1])
    ensures forall k :: |r| <= k < |s| ==> p(s[k])
  {
    if s != [] && p(s[|s| - 1]) then DropTrailing(s[..|s| - 1], p) else s
  }

  /** `s` with both runs of `p`-characters removed. */
  function TrimBy(s: string, p: char -> bool): string {
    DropTrailing(DropLeading(s, p), p)
  }

  /** JavaScript's `s.trim()`. */
  function JsTrim(s: string): string {
    TrimBy(s, IsJsSpace)
  }

  /** PHP's `trim($s)`. */
  function PhpTrim(s: string): string {
    TrimBy(s, IsPhpSpace)
  }

  /** A string made only of trimmable characters loses all of them. */
  lemma {:induction false} DropLeadingAll(s: string, p: char -> bool)
    requires forall k :: 0 <= k < |s| ==> p(s[k])
    ensures DropLeading(s, p) == []
  {
    if s != [] {
      assert forall k :: 0 <= k < |s[1..]| ==> p(s[1..][k]) by {
        forall k | 0 <= k < |s[1..]| ensures p(s[1..][k]) {
          assert s[1..][k] == s[k + 1];
        }
      }
      DropLeadingAll(s[1..], p);
    }
  }

  /** Trimming yields the empty string exactly when every character is trimmable. */
  lemma TrimEmptyIff(s: string, p: char -> bool)
    ensures TrimBy(s, p) == [] <==> forall k :: 0 <= k < |s| ==> p(s[k])
  {
    if forall k :: 0 <= k < |s| ==> p(s[k]) {
      DropLeadingAll(s, p);
    }
  }

  /** Trimming keeps a contiguous middle part that neither starts nor ends with
      a trimmable character, and everything it drops is trimmable. */
  lemma TrimShape(s: string, p: char -> bool)
    ensures var r := TrimBy(s, p);
      && |r| <= |s|
      && (r != [] ==> !p(r[0]) && !p(r[|r| - 1]))
      && exists i :: OccursAt(s, r, i)
  {
    var d := DropLeading(s, p);
    var r := DropTrailing(d, p);
    var i := |s| - |d|;
    assert r == s[i..i + |r|];
    assert OccursAt(s, r, i);
  }

  /** Trimming twice is trimming once. */
  lemma TrimIdempotent(s: string, p: char -> bool)
    ensures TrimBy(TrimBy(s, p), p) == TrimBy(s, p)
  {
    var r := TrimBy(s, p);
    assert DropLeading(r, p) == r;
    assert DropTrailing(r, p) == r;
  }

  /** ASCII lower-casing of one character. */
  function LowerChar(c: char): char {
    if 'A' <= c <= 'Z' then (c as int + 32) as char else c
  }

  /** ASCII upper-casing of one character. */
  function UpperChar(c: char): char {
    if 'a' <= c <= 'z' then (c as int - 32) as char else c
  }

  /** `s.toLowerCase()` on the ASCII letters. */
  function ToLower(s: string): (r: string)
    ensures |r| == |s|
    ensures forall k :: 0 <= k < |s| ==> r[k] == LowerChar(s[k])
  {
    seq(|s|, k requires 0 <= k < |s| => LowerChar(s[k]))
  }

  /** Lower-casing is idempotent, so a lowered stored email matches its own lowering. */
  lemma ToLowerIdempotent(s: string)
    ensures ToLower(ToLower(s)) == ToLower(s)
  {
  }

  /** PHP truthiness of a string: every string except "" and "0" is true. */
  predicate PhpTruthy(s: string) {
    s != "" && s != "0"
  }

  /** `t` is a prefix of `s`. */
  predicate IsPrefix(t: string, s: string) {
    |t| <= |s| && s[..|t|] == t
  }

  /** `t` occurs in `s` starting at index `i`. */
  ghost predicate OccursAt(s: string, t: string, i: int) {
    0 <= i && i + |t| <= |s| && s[i..i + |t|] == t
  }

  /** `t` is a substring of `s` (a SQL `LIKE '%t%'` without wildcards in `t`,
      JavaScript's `s.includes(t)`). */
  predicate Contains(s: string, t: string)
    decreases |s|
  {
    IsPrefix(t, s) || (s != [] && Contains(s[1..], t))
  }

  /** An occurrence at any position is found by the search. */
  lemma {:induction false} OccursAtContains(s: string, t: string, i: int)
    requires OccursAt(s, t, i)
    ensures Contains(s, t)
    decreases i
  {
    if i == 0 {
      assert IsPrefix(t, s);
    } else {
      assert s[1..][i - 1..i - 1 + |t|] == s[i..i + |t|];
      OccursAtContains(s[1..], t, i - 1);
    }
  }

  /** The search agrees with the positional definition of a substring. */
  lemma {:induction false} ContainsIff(s: string, t: string)
    ensures Contains(s, t) <==> exists i :: OccursAt(s, t, i)
    decreases |s|
  {
    if IsPrefix(t, s) {
      assert OccursAt(s, t, 0);
    } else if Contains(s, t) {
      ContainsIff(s[1..], t);
      var i :| OccursAt(s[1..], t, i);
      assert s[1..][i..i + |t|] == s[i + 1..i + 1 + |t|];
      assert OccursAt(s, t, i + 1);
    }
    forall i | OccursAt(s, t, i) ensures Contains(s, t) {
      OccursAtContains(s, t, i);
    }
  }

  /** The empty pattern occurs in every string. */
  lemma ContainsEmpty(s: string)
    ensures Contains(s, "")
  {
    assert IsPrefix("", s);
  }

  /** A pattern longer than the text never occurs in it. */
  lemma {:induction false} ContainsLength(s: string, t: string)
    requires Contains(s, t)
    ensures |t| <= |s|
    decreases |s|
  {
    if !IsPrefix(t, s) {
      ContainsLength(s[1..], t);
    }
  }

  /** `t` is a suffix of `s` (JavaScript's `s.endsWith(t)`). */
  predicate IsSuffix(t: string, s: string) {
    |t| <= |s| && s[|s| - |t|..] == t
  }

  /** Every suffix is a substring, so `includes` subsumes `endsWith`. */
  lemma SuffixContained(s: string, t: string)
    requires IsSuffix(t, s)
    ensures Contains(s, t)
  {
    assert OccursAt(s, t, |s| - |t|);
    OccursAtContains(s, t, |s| - |t|);
  }

  /** JavaScript's `a < b` on strings: lexicographic order of characters by
      code point, a proper prefix coming first. This agrees with JavaScript's
      order of UTF-16 code units except when a character above U+FFFF is
      compared with one from U+E000 to U+FFFF. */
  predicate Less(a: string, b: string) {
    if a == [] then b != []
    else if b == [] then false
    else if a[0] != b[0] then a[0] < b[0]
    else Less(a[1..], b[1..])
  }

  lemma {:induction false} LessIrreflexive(a: string)
    ensures !Less(a, a)
  {
    if a != [] {
      LessIrreflexive(a[1..]);
    }
  }

  /** At most one of `Less(a, b)` and `Less(b, a)` holds. */
  lemma {:induction false} LessAsymmetric(a: string, b: string)
    requires Less(a, b)
    ensures !Less(b, a)
  {
    if a != [] && b != [] && a[0] == b[0] {
      LessAsymmetric(a[1..], b[1..]);
    }
  }

  lemma {:induction false} LessTransitive(a: string, b: string, c: string)
    requires Less(a, b) && Less(b, c)
    ensures Less(a, c)
  {
    if a != [] && b != [] && c != [] && a[0] == b[0] == c[0] {
      LessTransitive(a[1..], b[1..], c[1..]);
    }
  }

  /** Any two distinct strings are ordered one way or the other. */
  lemma {:induction false} LessTotal(a: string, b: string)
    requires a != b
    ensures Less(a, b) || Less(b, a)
  {
    if a != [] && b != [] && a[0] == b[0] {
      assert a == [a[0]] + a[1..] && b == [b[0]] + b[1..];
      LessTotal(a[1..], b[1..]);
    }
  }
}
