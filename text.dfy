/**
 * The JavaScript string operations the handlers use on request fields:
 * truthiness, `trim()`, `toLowerCase()` and `replace(pattern, replacement)`
 * with a string pattern.
 */
module Text {
  import opened ApiErrors

  /**
   * The characters `String.prototype.trim` removes: the WhiteSpace of
   * section 12.2 of ECMA-262 (tab, vertical tab, form feed, the byte order
   * mark and every Unicode space separator, category Zs) and the
   * LineTerminators of section 12.3 (line feed, carriage return, line and
   * paragraph separator).
   */
  predicate IsJsWhitespace(c: char) {
    c == '\t' || c == '\U{000B}' || c == '\U{000C}' || c == '\U{FEFF}'
    || c == ' ' || c == '\U{00A0}' || c == '\U{1680}' || ('\U{2000}' <= c <= '\U{200A}')
    || c == '\U{202F}' || c == '\U{205F}' || c == '\U{3000}'
    || c == '\n' || c == '\r' || c == '\U{2028}' || c == '\U{2029}'
  }

  predicate AllWhitespace(s: string) {
    forall i :: 0 <= i < |s| ==> IsJsWhitespace(s[i])
  }

  function TrimStart(s: string): (r: string)
    ensures r != [] ==> !IsJsWhitespace(r[0])
  {
    if s != [] && IsJsWhitespace(s[0]) then TrimStart(s[1..]) else s
  }

  function TrimEnd(s: string): (r: string)
    ensures r != [] ==> !IsJsWhitespace(r[|r| - 1])
  {
    if s != [] && IsJsWhitespace(s[|s| - 1]) then TrimEnd(s[..|s| - 1]) else s
  }

  /** Trimming the start keeps a suffix. */
  lemma {:induction false} TrimStartIsSuffix(s: string)
    ensures |TrimStart(s)| <= |s| && TrimStart(s) == s[|s| - |TrimStart(s)|..]
  {
    if s != [] && IsJsWhitespace(s[0]) {
      TrimStartIsSuffix(s[1..]);
    }
  }

  /** Trimming the end keeps a prefix. */
  lemma {:induction false} TrimEndIsPrefix(s: string)
    ensures |TrimEnd(s)| <= |s| && TrimEnd(s) == s[..|TrimEnd(s)|]
  {
    if s != [] && IsJsWhitespace(s[|s| - 1]) {
      TrimEndIsPrefix(s[..|s| - 1]);
    }
  }

  /** Neither the first nor the last character is white space. */
  predicate IsTrimmed(s: string) {
    s != [] ==> !IsJsWhitespace(s[0]) && !IsJsWhitespace(s[|s| - 1])
  }

  /** `s.trim()`: `s` without its leading and trailing white space. */
  function Trim(s: string): (r: string)
    ensures IsTrimmed(r)
  {
    TrimEndIsPrefix(TrimStart(s));
    TrimEnd(TrimStart(s))
  }

  /** A trimmed string is left as it is by `trim()`, so trimming twice is trimming once. */
  lemma TrimmedIsFixedPoint(s: string)
    requires IsTrimmed(s)
    ensures Trim(s) == s
  {
    assert TrimStart(s) == s;
    assert TrimEnd(s) == s;
  }

  lemma {:induction false} TrimStartEmptyIffAllWhitespace(s: string)
    ensures TrimStart(s) == [] <==> AllWhitespace(s)
  {
    if s == [] {
    } else if IsJsWhitespace(s[0]) {
      var tail := s[1..];
      TrimStartEmptyIffAllWhitespace(tail);
      assert TrimStart(s) == TrimStart(tail);
      if AllWhitespace(tail) {
        forall i | 0 <= i < |s| ensures IsJsWhitespace(s[i]) {
          if i > 0 { assert s[i] == tail[i - 1]; }
        }
      }
      if AllWhitespace(s) {
        forall i | 0 <= i < |tail| ensures IsJsWhitespace(tail[i]) {
          assert tail[i] == s[i + 1];
        }
      }
    } else {
      assert TrimStart(s) == s;
    }
  }

  /** A trimmed string is empty exactly when every character of the original is white space. */
  lemma TrimEmptyIffAllWhitespace(s: string)
    ensures Trim(s) == [] <==> AllWhitespace(s)
  {
    var t := TrimStart(s);
    TrimStartEmptyIffAllWhitespace(s);
    if t != [] {
      // TrimEnd keeps a prefix that ends in a non-blank character, and t[0] is one.
      var u := TrimEnd(t);
      if u == [] {
        TrimEndOfNonBlankHead(t);
      }
    }
  }

  lemma {:induction false} TrimEndOfNonBlankHead(t: string)
    requires t != [] && !IsJsWhitespace(t[0])
    ensures TrimEnd(t) != []
  {
    if IsJsWhitespace(t[|t| - 1]) {
      assert |t| > 1;
      TrimEndOfNonBlankHead(t[..|t| - 1]);
    }
  }

  /** JavaScript truthiness of a string field: present and not the empty string. */
  predicate Truthy(field: Option<string>) {
    field.Some? && field.value != ""
  }

  /** `field?.trim() === ""`: an absent field is NOT blank under optional chaining. */
  predicate BlankAfterTrim(field: Option<string>) {
    field.Some? && Trim(field.value) == ""
  }

  /** `!field || field.trim() === ""`: the field is absent, empty or only white space. */
  predicate MissingText(field: Option<string>) {
    !Truthy(field) || Trim(field.value) == ""
  }

  lemma MissingTextIffAbsentOrWhitespace(field: Option<string>)
    ensures MissingText(field) <==> field.None? || AllWhitespace(field.value)
    ensures BlankAfterTrim(field) <==> field.Some? && AllWhitespace(field.value)
  {
    if field.Some? {
      TrimEmptyIffAllWhitespace(field.value);
    }
  }

  function LowerChar(c: char): char {
    if 'A' <= c <= 'Z' then (c as int - 'A' as int + 'a' as int) as char else c
  }

  predicate IsLowerCase(s: string) {
    forall i :: 0 <= i < |s| ==> !('A' <= s[i] <= 'Z')
  }

  /** `s.toLowerCase()` on the Basic Latin letters. */
  function ToLower(s: string): (r: string)
    ensures |r| == |s| && IsLowerCase(r)
    ensures forall i :: 0 <= i < |s| && !('A' <= s[i] <= 'Z') ==> r[i] == s[i]
  {
    seq(|s|, i requires 0 <= i < |s| => LowerChar(s[i]))
  }

  /** A string without upper-case letters is left as it is by `toLowerCase()`. */
  lemma LowerCaseIsFixedPoint(s: string)
    requires IsLowerCase(s)
    ensures ToLower(s) == s
  {
    var r := ToLower(s);
    forall i | 0 <= i < |s| ensures r[i] == s[i] {
    }
  }

  /** Every slice of a lower-case string is lower-case. */
  lemma SliceKeepsLowerCase(s: string, i: nat, j: nat)
    requires IsLowerCase(s) && i <= j <= |s|
    ensures IsLowerCase(s[i..j])
  {
    var t := s[i..j];
    forall k | 0 <= k < |t| ensures !('A' <= t[k] <= 'Z') {
      assert t[k] == s[i + k];
    }
  }

  /** Trimming keeps a lower-case string lower-case. */
  lemma TrimKeepsLowerCase(s: string)
    requires IsLowerCase(s)
    ensures IsLowerCase(Trim(s))
  {
    var t := TrimStart(s);
    TrimStartIsSuffix(s);
    SliceKeepsLowerCase(s, |s| - |t|, |s|);
    assert s[|s| - |t|..|s|] == t;
    TrimEndIsPrefix(t);
    SliceKeepsLowerCase(t, 0, |TrimEnd(t)|);
    assert t[0..|TrimEnd(t)|] == TrimEnd(t);
  }

  /** `pattern` occurs in `s` starting at index `k`. */
  predicate OccursAt(s: string, pattern: string, k: nat) {
    k + |pattern| <= |s| && s[k..k + |pattern|] == pattern
  }

  /** The first index at which `pattern` occurs in `s`, searching from `from`. */
  function IndexOfFrom(s: string, pattern: string, from: nat): (r: Option<nat>)
    requires from <= |s|
    ensures r.Some? ==> from <= r.value && OccursAt(s, pattern, r.value)
    ensures r.Some? ==> forall k :: from <= k < r.value ==> !OccursAt(s, pattern, k)
    ensures r.None? ==> forall k :: from <= k ==> !OccursAt(s, pattern, k)
    decreases |s| - from
  {
    if from + |pattern| > |s| then None
    else if OccursAt(s, pattern, from) then Some(from)
    else IndexOfFrom(s, pattern, from + 1)
  }

  /** `s.replace(pattern, replacement)` with a string pattern: only the FIRST occurrence is replaced, wherever it is. */
  function ReplaceFirst(s: string, pattern: string, replacement: string): (r: string)
  {
    match IndexOfFrom(s, pattern, 0)
    case None => s
    case Some(i) => s[..i] + replacement + s[i + |pattern|..]
  }

  /** When `s` starts with the pattern, replacing it by "" strips exactly that prefix. */
  lemma ReplaceFirstStripsPrefix(pattern: string, rest: string)
    ensures ReplaceFirst(pattern + rest, pattern, "") == rest
  {
    var s := pattern + rest;
    assert OccursAt(s, pattern, 0);
    assert s[|pattern|..] == rest;
  }

  /** A string in which the pattern does not occur is left as it is. */
  lemma ReplaceFirstWithoutOccurrence(s: string, pattern: string, replacement: string)
    requires forall k: nat :: !OccursAt(s, pattern, k)
    ensures ReplaceFirst(s, pattern, replacement) == s
  {
  }
}
