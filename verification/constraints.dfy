/** The Jakarta Bean Validation built-in constraints the stock request uses,
    as Hibernate Validator evaluates them: `@NotBlank`, `@Pattern`, `@NotNull`
    and `@Min`.  A nullable value is an `Option`; `None` is `null`. */
module Constraints {
  import opened Wrappers
  import opened Regex

  /** `String.trim()` counts every character at or below U+0020 as space. */
  predicate IsTrimmable(c: char) {
    c <= ' '
  }

  /** Drops the leading trimmable characters: the result is the suffix of `s`
      that starts at its first non-trimmable character. */
  function TrimStart(s: string): (r: string)
    ensures |r| <= |s| && r == s[|s| - |r|..]
    ensures forall k :: 0 <= k < |s| - |r| ==> IsTrimmable(s[k])
    ensures r == [] || !IsTrimmable(r[0])
  {
    if |s| > 0 && IsTrimmable(s[0]) then TrimStart(s[1..]) else s
  }

  /** Drops the trailing trimmable characters: the result is the prefix of `s`
      that ends at its last non-trimmable character. */
  function TrimEnd(s: string): (r: string)
    ensures |r| <= |s| && r == s[..|r|]
    ensures forall k :: |r| <= k < |s| ==> IsTrimmable(s[k])
    ensures r == [] || !IsTrimmable(r[|r| - 1])
  {
    if |s| > 0 && IsTrimmable(s[|s| - 1]) then TrimEnd(s[..|s| - 1]) else s
  }

  /** `t` is `s` with `i` trimmable characters dropped in front and only
      trimmable characters dropped behind. */
  predicate TrimmedAt(s: string, t: string, i: int) {
    && 0 <= i <= |s| - |t|
    && t == s[i..i + |t|]
    && (forall k :: 0 <= k < i ==> IsTrimmable(s[k]))
    && (forall k :: i + |t| <= k < |s| ==> IsTrimmable(s[k]))
  }

  /** `String.trim()`: a factor of `s` that neither starts nor ends with a
      trimmable character, obtained by dropping trimmable characters only
      (`TrimIsFactor`). */
  function Trim(s: string): (t: string)
    ensures |t| <= |s|
    ensures t == [] || (!IsTrimmable(t[0]) && !IsTrimmable(t[|t| - 1]))
  {
    TrimEnd(TrimStart(s))
  }

  /** What `trim()` leaves is a factor of the input that neither starts nor
      ends with a trimmable character, and only trimmable characters are
      dropped around it. */
  lemma TrimIsFactor(s: string)
    ensures exists i :: TrimmedAt(s, Trim(s), i)
    ensures Trim(s) == [] || (!IsTrimmable(Trim(s)[0]) && !IsTrimmable(Trim(s)[|Trim(s)| - 1]))
  {
    var a := TrimStart(s);
    var e := TrimEnd(a);
    var i := |s| - |a|;
    assert e == s[i..i + |e|];
    assert forall k :: i + |e| <= k < |s| ==> IsTrimmable(s[k]) by {
      forall k | i + |e| <= k < |s|
        ensures IsTrimmable(s[k])
      {
        assert a[k - i] == s[k];
      }
    }
    assert e == Trim(s);
    assert TrimmedAt(s, e, i);
  }

  /** A string trims to nothing exactly when every character of it is trimmable. */
  lemma TrimEmptyIff(s: string)
    ensures |Trim(s)| == 0 <==> forall k :: 0 <= k < |s| ==> IsTrimmable(s[k])
  {
    var a := TrimStart(s);
    if |Trim(s)| == 0 {
      // the suffix left by TrimStart would have to start with a character TrimEnd keeps
      assert |a| == 0;
    }
  }

  /** `@NotBlank`: not null, and something is left after `trim()`. */
  predicate NotBlank(v: Option<string>) {
    v.Some? && |Trim(v.value)| > 0
  }

  /** `@Pattern`: null is valid; otherwise the whole value must match. */
  predicate PatternValid(v: Option<string>, r: Regex) {
    v.None? || Matches(r, v.value)
  }

  /** `@NotNull` */
  predicate NotNull<T>(v: Option<T>) {
    v.Some?
  }

  /** `@Min(min)`: null is valid; otherwise the value is at least `min` (inclusive). */
  predicate MinValid(v: Option<real>, min: int) {
    v.None? || v.value >= min as real
  }

  /** A blank value is null or made of trimmable characters only. */
  lemma NotBlankIff(v: Option<string>)
    ensures !NotBlank(v) <==> v.None? || forall k :: 0 <= k < |v.value| ==> IsTrimmable(v.value[k])
  {
    if v.Some? {
      TrimEmptyIff(v.value);
    }
  }
}
