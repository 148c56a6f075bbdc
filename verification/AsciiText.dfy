/** The string operations the filters use, on ASCII text. */
module AsciiText {
  /** Characters Python's `str.strip` removes. */
  predicate IsWhitespace(c: char) {
    c == ' ' || '\t' <= c <= '\r' || '\U{1c}' <= c <= '\U{1f}'
  }

  /** Characters SQL's `TRIM` removes. */
  predicate IsBlank(c: char) { c == ' ' }

  function StripLeft(s: string, drop: char -> bool): string {
    if s != [] && drop(s[0]) then StripLeft(s[1..], drop) else s
  }

  function StripRight(s: string, drop: char -> bool): string {
    if s != [] && drop(s[|s| - 1]) then StripRight(s[..|s| - 1], drop) else s
  }

  function Strip(s: string): string { StripRight(StripLeft(s, IsWhitespace), IsWhitespace) }

  function Trim(s: string): string { StripRight(StripLeft(s, IsBlank), IsBlank) }

  function LowerChar(c: char): char { if 'A' <= c <= 'Z' then c - 'A' + 'a' else c }

  function UpperChar(c: char): char { if 'a' <= c <= 'z' then c - 'a' + 'A' else c }

  function Lower(s: string): (r: string)
    ensures |r| == |s| && forall i :: 0 <= i < |s| ==> r[i] == LowerChar(s[i])
  {
    seq(|s|, i requires 0 <= i < |s| => LowerChar(s[i]))
  }

  function Upper(s: string): (r: string)
    ensures |r| == |s| && forall i :: 0 <= i < |s| ==> r[i] == UpperChar(s[i])
  {
    seq(|s|, i requires 0 <= i < |s| => UpperChar(s[i]))
  }

  lemma {:induction false} UpperStripLeft(s: string)
    ensures StripLeft(Upper(s), IsWhitespace) == Upper(StripLeft(s, IsWhitespace))
  {
    if s != [] && IsWhitespace(s[0]) {
      assert Upper(s)[1..] == Upper(s[1..]);
      UpperStripLeft(s[1..]);
    }
  }

  lemma {:induction false} UpperStripRight(s: string)
    ensures StripRight(Upper(s), IsWhitespace) == Upper(StripRight(s, IsWhitespace))
  {
    if s != [] && IsWhitespace(s[|s| - 1]) {
      assert Upper(s)[..|s| - 1] == Upper(s[..|s| - 1]);
      UpperStripRight(s[..|s| - 1]);
    }
  }

  /** Upper-casing and stripping commute, so their order in the code does not matter. */
  lemma StripOfUpper(s: string)
    ensures Strip(Upper(s)) == Upper(Strip(s))
  {
    UpperStripLeft(s);
    UpperStripRight(StripLeft(s, IsWhitespace));
  }

  lemma {:induction false} StrippedLeft(s: string, drop: char -> bool)
    ensures var r := StripLeft(s, drop); r == [] || !drop(r[0])
  {
    if s != [] && drop(s[0]) { StrippedLeft(s[1..], drop); }
  }

  lemma {:induction false} StrippedRight(s: string, drop: char -> bool)
    ensures var r := StripRight(s, drop); r <= s && (r == [] || !drop(r[|r| - 1]))
  {
    if s != [] && drop(s[|s| - 1]) { StrippedRight(s[..|s| - 1], drop); }
  }

  /** Stripped text carries no blanks at its ends. */
  lemma TrimOfStrip(s: string)
    ensures Trim(Strip(s)) == Strip(s)
  {
    StrippedLeft(s, IsWhitespace);
    StrippedRight(StripLeft(s, IsWhitespace), IsWhitespace);
  }

  lemma LowerOfLower(s: string)
    ensures Lower(Lower(s)) == Lower(s)
  {
  }

  /** `q in s`. */
  ghost predicate Contains(s: string, q: string) {
    exists i :: 0 <= i <= |s| && q <= s[i..]
  }

  /** Executable form of `Contains`. */
  predicate HasSubstring(s: string, q: string) {
    q <= s || (s != [] && HasSubstring(s[1..], q))
  }

  lemma {:induction false} HasSubstringIsContains(s: string, q: string)
    ensures HasSubstring(s, q) <==> Contains(s, q)
  {
    if s != [] {
      HasSubstringIsContains(s[1..], q);
      if Contains(s[1..], q) {
        var i :| 0 <= i <= |s[1..]| && q <= s[1..][i..];
        assert s[1..][i..] == s[i + 1..];
      }
      if Contains(s, q) && !(q <= s) {
        var i :| 0 <= i <= |s| && q <= s[i..];
        assert s[0..] == s;
        assert s[1..][i - 1..] == s[i..];
      }
      if q <= s { assert s[0..] == s; }
    } else {
      assert s[0..] == s;
    }
  }

  predicate IsDigit(c: char) { '0' <= c <= '9' }

  /** `str.isdigit()`. */
  predicate AllDigits(s: string) { s != [] && forall c <- s :: IsDigit(c) }

  function ToInt(s: string): nat
    requires forall c <- s :: IsDigit(c)
  {
    if s == [] then 0
    else
      assert s[|s| - 1] in s && IsDigit(s[|s| - 1]);
      ToInt(s[..|s| - 1]) * 10 + (s[|s| - 1] - '0') as nat
  }

  /** `s.split(sep)`. */
  function Split(s: string, sep: char): (parts: seq<string>)
    ensures parts != []
  {
    if s == [] then [[]]
    else
      var rest := Split(s[1..], sep);
      if s[0] == sep then [[]] + rest else [[s[0]] + rest[0]] + rest[1..]
  }
}
