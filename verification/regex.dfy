/** The fragment of `java.util.regex` that the request constraints use:
    bracketed character classes built from ranges and the `\d` and `\s`
    escapes, concatenation, the counted repetition `{n}` and `+`.

    `Matches(r, s)` is the whole-input match of `Matcher.matches()`.  Under
    a whole-input match the anchors `^` (first) and `$` (last) always hold,
    so they have no node here.  Without the `UNICODE_CHARACTER_CLASS` flag
    Java reads `\d` as `[0-9]` and `\s` as `[ \t\n\x0B\f\r]`. */
module Regex {

  /** One member of a bracketed class: a range `a-z`, or `\d`, or `\s`. */
  datatype ClassItem = Range(lo: char, hi: char) | DigitEscape | SpaceEscape

  datatype Regex =
    | CharClass(items: seq<ClassItem>)   // [ ... ] or a lone escape
    | Concat(left: Regex, right: Regex)  // left right
    | Repeat(body: Regex, count: nat)    // body{count}
    | Plus(body: Regex)                  // body+

  predicate IsAsciiDigit(c: char) {
    '0' <= c <= '9'
  }

  predicate IsAsciiLetter(c: char) {
    'A' <= c <= 'Z' || 'a' <= c <= 'z'
  }

  /** Java's `\s`: space, tab, line feed, vertical tab, form feed, carriage return. */
  predicate IsRegexSpace(c: char) {
    c == ' ' || c == '\t' || c == '\n' || c == '\r' || c as int == 0x0B || c as int == 0x0C
  }

  predicate ItemMatches(item: ClassItem, c: char) {
    match item
    case Range(lo, hi) => lo <= c <= hi
    case DigitEscape => IsAsciiDigit(c)
    case SpaceEscape => IsRegexSpace(c)
  }

  predicate InClass(items: seq<ClassItem>, c: char) {
    exists k :: 0 <= k < |items| && ItemMatches(items[k], c)
  }

  /** A size that shrinks on every sub-expression, `Repeat(b, n - 1)` included. */
  function Size(r: Regex): nat {
    match r
    case CharClass(_) => 1
    case Concat(a, b) => Size(a) + Size(b) + 1
    case Repeat(b, n) => Size(b) + n + 1
    case Plus(b) => Size(b) + 1
  }

  /** Whole-input match: `s` is in the language of `r`. */
  predicate Matches(r: Regex, s: string)
    decreases Size(r), |s|
  {
    match r
    case CharClass(items) =>
      |s| == 1 && InClass(items, s[0])
    case Concat(a, b) =>
      exists i :: 0 <= i <= |s| && Matches(a, s[..i]) && Matches(b, s[i..])
    case Repeat(b, n) =>
      if n == 0 then |s| == 0
      else exists i :: 0 <= i <= |s| && Matches(b, s[..i]) && Matches(Repeat(b, n - 1), s[i..])
    case Plus(b) =>
      // one piece, or a non-empty first piece followed by one or more pieces
      || Matches(b, s)
      || exists i :: 0 < i < |s| && Matches(b, s[..i]) && Matches(Plus(b), s[i..])
  }

  /** `[A-Za-z]{3}\d` */
  const SymbolPattern: Regex :=
    Concat(Repeat(CharClass([Range('A', 'Z'), Range('a', 'z')]), 3), CharClass([DigitEscape]))

  /** `^[a-zA-Z\d\s]+$` without its (redundant) anchors */
  const CompanyNameClass: seq<ClassItem> := [Range('a', 'z'), Range('A', 'Z'), DigitEscape, SpaceEscape]
  const CompanyNamePattern: Regex := Plus(CharClass(CompanyNameClass))

  /** Character-level reading of the symbol pattern. */
  predicate IsTickerShaped(s: string) {
    |s| == 4 && IsAsciiLetter(s[0]) && IsAsciiLetter(s[1]) && IsAsciiLetter(s[2]) && IsAsciiDigit(s[3])
  }

  /** Character-level reading of the company-name class. */
  predicate IsNameChar(c: char) {
    IsAsciiLetter(c) || IsAsciiDigit(c) || IsRegexSpace(c)
  }

  /** `class{n}` matches exactly the strings of length n made of class members. */
  lemma {:induction false} RepeatClassMatches(items: seq<ClassItem>, n: nat, s: string)
    ensures Matches(Repeat(CharClass(items), n), s)
        <==> |s| == n && forall k :: 0 <= k < |s| ==> InClass(items, s[k])
    decreases n
  {
    var r := Repeat(CharClass(items), n);
    if n == 0 {
    } else {
      if Matches(r, s) {
        var i :| 0 <= i <= |s| && Matches(CharClass(items), s[..i]) && Matches(Repeat(CharClass(items), n - 1), s[i..]);
        RepeatClassMatches(items, n - 1, s[i..]);
        assert i == 1;
        forall k | 0 <= k < |s| ensures InClass(items, s[k]) {
          if k == 0 {
            assert s[..i][0] == s[k];
          } else {
            assert s[i..][k - 1] == s[k];
          }
        }
      }
      if |s| == n && forall k :: 0 <= k < |s| ==> InClass(items, s[k]) {
        RepeatClassMatches(items, n - 1, s[1..]);
        assert forall k :: 0 <= k < |s[1..]| ==> s[1..][k] == s[k + 1];
        assert Matches(CharClass(items), s[..1]);
      }
    }
  }

  /** `class+` matches exactly the non-empty strings made of class members. */
  lemma {:induction false} PlusClassMatches(items: seq<ClassItem>, s: string)
    ensures Matches(Plus(CharClass(items)), s)
        <==> |s| > 0 && forall k :: 0 <= k < |s| ==> InClass(items, s[k])
    decreases |s|
  {
    var c := CharClass(items);
    if Matches(Plus(c), s) {
      if !Matches(c, s) {
        var i :| 0 < i < |s| && Matches(c, s[..i]) && Matches(Plus(c), s[i..]);
        PlusClassMatches(items, s[i..]);
        assert i == 1;
        forall k | 0 <= k < |s| ensures InClass(items, s[k]) {
          if k == 0 {
            assert s[..i][0] == s[k];
          } else {
            assert s[i..][k - 1] == s[k];
          }
        }
      }
    }
    if |s| > 0 && forall k :: 0 <= k < |s| ==> InClass(items, s[k]) {
      if |s| > 1 {
        PlusClassMatches(items, s[1..]);
        assert forall k :: 0 <= k < |s[1..]| ==> s[1..][k] == s[k + 1];
        assert Matches(c, s[..1]);
      }
    }
  }

  /** `[A-Za-z]{3}\d` accepts exactly three ASCII letters followed by one ASCII digit. */
  lemma SymbolPatternMatches(s: string)
    ensures Matches(SymbolPattern, s) <==> IsTickerShaped(s)
  {
    var letters := [Range('A', 'Z'), Range('a', 'z')];
    var digit := [DigitEscape];
    assert forall c :: InClass(letters, c) <==> IsAsciiLetter(c) by {
      forall c ensures InClass(letters, c) <==> IsAsciiLetter(c) {
        if IsAsciiLetter(c) {
          if 'A' <= c <= 'Z' { assert ItemMatches(letters[0], c); } else { assert ItemMatches(letters[1], c); }
        }
      }
    }
    assert forall c :: InClass(digit, c) <==> IsAsciiDigit(c) by {
      forall c ensures InClass(digit, c) <==> IsAsciiDigit(c) {
        if IsAsciiDigit(c) { assert ItemMatches(digit[0], c); }
      }
    }
    if Matches(SymbolPattern, s) {
      var i :| 0 <= i <= |s| && Matches(Repeat(CharClass(letters), 3), s[..i]) && Matches(CharClass(digit), s[i..]);
      RepeatClassMatches(letters, 3, s[..i]);
      assert i == 3;
      assert s[..i][0] == s[0] && s[..i][1] == s[1] && s[..i][2] == s[2];
      assert s[i..][0] == s[3];
    }
    if IsTickerShaped(s) {
      RepeatClassMatches(letters, 3, s[..3]);
      assert InClass(letters, s[..3][0]) && InClass(letters, s[..3][1]) && InClass(letters, s[..3][2]);
      assert Matches(Repeat(CharClass(letters), 3), s[..3]);
      assert s[3..][0] == s[3];
      assert Matches(CharClass(digit), s[3..]);
    }
  }

  /** `^[a-zA-Z\d\s]+$` accepts exactly the non-empty strings of ASCII letters, digits and `\s` spaces. */
  lemma CompanyNamePatternMatches(s: string)
    ensures Matches(CompanyNamePattern, s) <==> |s| > 0 && forall k :: 0 <= k < |s| ==> IsNameChar(s[k])
  {
    assert forall c :: InClass(CompanyNameClass, c) <==> IsNameChar(c) by {
      forall c ensures InClass(CompanyNameClass, c) <==> IsNameChar(c) {
        if IsNameChar(c) {
          if 'a' <= c <= 'z' { assert ItemMatches(CompanyNameClass[0], c); }
          else if 'A' <= c <= 'Z' { assert ItemMatches(CompanyNameClass[1], c); }
          else if IsAsciiDigit(c) { assert ItemMatches(CompanyNameClass[2], c); }
          else { assert ItemMatches(CompanyNameClass[3], c); }
        }
      }
    }
    PlusClassMatches(CompanyNameClass, s);
  }
}
