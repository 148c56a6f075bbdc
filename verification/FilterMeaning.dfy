/**
 What a filter text selects, in terms of the text a client types: case and surrounding whitespace do not
 matter, numbers are decimal, and a comma list is any of its numbers.
 */
module FilterMeaning {
  import opened Wrappers
  import opened LogEntries
  import opened AsciiText
  import opened LogFilters

  // ---------------------------------------------------------------- letters

  const CAPITALS := "ABCDEFGHIJKLMNOPQRSTUVWXYZ"
  const SMALLS := "abcdefghijklmnopqrstuvwxyz"

  predicate Pair(c: char, d: char) { exists i :: 0 <= i < 26 && c == CAPITALS[i] && d == SMALLS[i] }

  /** The same letter, capital or small, or the same character. */
  predicate SameLetter(c: char, d: char) { c == d || Pair(c, d) || Pair(d, c) }

  predicate SameLetters(s: string, t: string) {
    |s| == |t| && forall i :: 0 <= i < |s| ==> SameLetter(s[i], t[i])
  }

  lemma LettersAt(i: nat)
    requires i < 26
    ensures CAPITALS[i] == 'A' + i as char && SMALLS[i] == 'a' + i as char
  {
  }

  lemma PairIs(c: char, d: char)
    ensures Pair(c, d) <==> 'A' <= c <= 'Z' && 'a' <= d <= 'z' && c as int + 32 == d as int
  {
    if i :| 0 <= i < 26 && c == CAPITALS[i] && d == SMALLS[i] { LettersAt(i); }
    if 'A' <= c <= 'Z' && c as int + 32 == d as int { LettersAt(c as int - 65); }
  }

  lemma CaseOfChar(c: char, d: char)
    ensures LowerChar(c) == LowerChar(d) <==> SameLetter(c, d)
    ensures UpperChar(c) == UpperChar(d) <==> SameLetter(c, d)
  {
    PairIs(c, d);
    PairIs(d, c);
  }

  /** Texts are equal in lower case, and in upper case, exactly when they have the same letters. */
  lemma CaseMeans(s: string, t: string)
    ensures Lower(s) == Lower(t) <==> SameLetters(s, t)
    ensures Upper(s) == Upper(t) <==> SameLetters(s, t)
  {
    forall i | 0 <= i < |s| && i < |t|
      ensures LowerChar(s[i]) == LowerChar(t[i]) <==> SameLetter(s[i], t[i])
      ensures UpperChar(s[i]) == UpperChar(t[i]) <==> SameLetter(s[i], t[i])
    {
      CaseOfChar(s[i], t[i]);
    }
    if Lower(s) == Lower(t) {
      assert forall i :: 0 <= i < |s| ==> Lower(s)[i] == Lower(t)[i];
    }
    if Upper(s) == Upper(t) {
      assert forall i :: 0 <= i < |s| ==> Upper(s)[i] == Upper(t)[i];
    }
  }

  lemma CaseOfLetter(c: char)
    ensures SameLetter(c, LowerChar(c)) && LowerChar(c) !in CAPITALS
    ensures SameLetter(c, UpperChar(c)) && UpperChar(c) !in SMALLS
  {
    CaseOfChar(c, LowerChar(c));
    CaseOfChar(c, UpperChar(c));
    forall i | 0 <= i < 26 ensures LowerChar(c) != CAPITALS[i] && UpperChar(c) != SMALLS[i] { LettersAt(i); }
  }

  /** Lower case has the same letters and no capitals, upper case the same letters and no small ones. */
  lemma CaseIs(s: string)
    ensures SameLetters(s, Lower(s)) && forall c <- Lower(s) :: c !in CAPITALS
    ensures SameLetters(s, Upper(s)) && forall c <- Upper(s) :: c !in SMALLS
  {
    forall i | 0 <= i < |s|
      ensures SameLetter(s[i], Lower(s)[i]) && Lower(s)[i] !in CAPITALS
      ensures SameLetter(s[i], Upper(s)[i]) && Upper(s)[i] !in SMALLS
    {
      CaseOfLetter(s[i]);
    }
  }

  // ---------------------------------------------------------------- whitespace, lists, numbers

  predicate Blank(s: string) { forall c <- s :: c in " \t\n\r\U{0b}\U{0c}\U{1c}\U{1d}\U{1e}\U{1f}" }

  lemma BlankIsWhitespace(c: char)
    ensures IsWhitespace(c) <==> Blank([c])
  {
    assert Blank([c]) <==> c in " \t\n\r\U{0b}\U{0c}\U{1c}\U{1d}\U{1e}\U{1f}";
  }

  lemma {:induction false} StripLeftDrops(pad: string, s: string)
    requires Blank(pad) && (s == [] || !Blank([s[0]]))
    ensures StripLeft(pad + s, IsWhitespace) == s
  {
    if pad == [] {
      assert pad + s == s;
      if s != [] { BlankIsWhitespace(s[0]); }
    } else {
      BlankIsWhitespace(pad[0]);
      assert (pad + s)[1..] == pad[1..] + s;
      assert pad[0] in pad && forall c <- pad[1..] :: c in pad;
      StripLeftDrops(pad[1..], s);
    }
  }

  lemma {:induction false} StripRightDrops(s: string, pad: string)
    requires Blank(pad) && (s == [] || !Blank([s[|s| - 1]]))
    ensures StripRight(s + pad, IsWhitespace) == s
  {
    if pad == [] {
      assert s + pad == s;
      if s != [] { BlankIsWhitespace(s[|s| - 1]); }
    } else {
      var front, last := pad[..|pad| - 1], pad[|pad| - 1];
      BlankIsWhitespace(last);
      assert (s + pad)[..|s + pad| - 1] == s + front;
      assert last in pad && forall c <- front :: c in pad;
      StripRightDrops(s, front);
    }
  }

  /** Stripping removes the whitespace before and after a text that has none at its ends. */
  lemma StripMeans(before: string, t: string, after: string)
    requires Blank(before) && Blank(after) && (t == [] || (!Blank([t[0]]) && !Blank([t[|t| - 1]])))
    ensures Strip(before + t + after) == t
  {
    if t == [] {
      var pad := before + after;
      assert before + t + after == pad + [];
      StripLeftDrops(pad, []);
    } else {
      assert before + t + after == before + (t + after);
      StripLeftDrops(before, t + after);
      StripRightDrops(t, after);
    }
  }

  /** The pieces with commas between them. */
  function Joined(pieces: seq<string>): string
    requires pieces != []
  {
    if |pieces| == 1 then pieces[0] else pieces[0] + "," + Joined(pieces[1..])
  }

  lemma {:induction false} SplitPiece(p: string, rest: string)
    requires ',' !in p
    ensures Split(p, ',') == [p]
    ensures Split(p + "," + rest, ',') == [p] + Split(rest, ',')
  {
    if p == [] {
      assert (p + "," + rest)[1..] == rest;
    } else {
      assert p[0] in p && forall c <- p[1..] :: c in p;
      SplitPiece(p[1..], rest);
      assert (p + "," + rest)[1..] == p[1..] + "," + rest;
      assert [p[0]] + p[1..] == p;
    }
  }

  /** Splitting at commas gives back the pieces that were joined. */
  lemma {:induction false} SplitMeans(pieces: seq<string>)
    requires pieces != [] && forall p <- pieces :: ',' !in p
    ensures Split(Joined(pieces), ',') == pieces
  {
    assert pieces[0] in pieces;
    if |pieces| == 1 {
      SplitPiece(pieces[0], "");
    } else {
      assert forall p <- pieces[1..] :: p in pieces;
      SplitMeans(pieces[1..]);
      SplitPiece(pieces[0], Joined(pieces[1..]));
    }
  }

  const DIGITS := "0123456789"

  predicate Digits(t: string) { forall c <- t :: IsDigit(c) }

  /** A decimal numeral. */
  predicate Numeral(t: string) { t != "" && forall c <- t :: c in DIGITS }

  lemma DigitsAre(c: char)
    ensures IsDigit(c) <==> c in DIGITS
    ensures IsDigit(c) ==> DIGITS[c as int - '0' as int] == c
  {
  }

  function PowerOfTen(n: nat): nat { if n == 0 then 1 else 10 * PowerOfTen(n - 1) }

  /** Its value: the digits, each by its place in `DIGITS`, weighted by their positions. */
  function Value(t: string): nat
    requires Digits(t)
  {
    if t == "" then 0 else
      assert t[0] in t;
      (t[0] as int - '0' as int) * PowerOfTen(|t| - 1) + Value(t[1..])
  }

  lemma Tenfold(a: int, b: int)
    ensures a * (10 * b) == 10 * (a * b)
  {
  }

  lemma {:induction false} ValueOfLonger(t: string, d: char)
    requires Digits(t) && IsDigit(d)
    ensures Digits(t + [d]) && Value(t + [d]) == 10 * Value(t) + (d as int - '0' as int)
  {
    if t == "" {
      assert (t + [d])[1..] == "";
    } else {
      var rest := t[1..];
      assert t[0] in t && forall c <- rest :: c in t;
      ValueOfLonger(rest, d);
      assert (t + [d])[1..] == rest + [d];
      Tenfold(t[0] as int - '0' as int, PowerOfTen(|rest|));
    }
  }

  /** Numbers are read as decimal. */
  lemma {:induction false} ToIntMeans(t: string)
    requires Digits(t)
    ensures ToInt(t) == Value(t)
  {
    if t != "" {
      var front, last := t[..|t| - 1], t[|t| - 1];
      assert last in t && forall c <- front :: c in t;
      ToIntMeans(front);
      ValueOfLonger(front, last);
      assert t == front + [last];
    }
  }

  lemma NumeralMeans(t: string)
    ensures AllDigits(t) <==> Numeral(t)
    ensures Numeral(t) ==> Digits(t) && ToInt(t) == Value(t)
  {
    forall c | c in t ensures IsDigit(c) <==> c in DIGITS { DigitsAre(c); }
    if Numeral(t) { ToIntMeans(t); }
  }

  // ---------------------------------------------------------------- the filters

  predicate Between(s: Status, low: int, high: int) { s.Code? && low <= s.code <= high }

  /** The status is the value of this numeral. */
  predicate Names(t: string, s: Status) { Numeral(t) && Digits(t) && s == Code(Value(t)) }

  /** A class of statuses, any number of a comma list, or one number; anything else accepts every entry. */
  predicate AcceptsStatus(s: Status, text: string) {
    var t := Lower(Strip(text));
    if t == "2xx" then Between(s, 200, 299)
    else if t == "3xx" then Between(s, 300, 399)
    else if t == "4xx" then Between(s, 400, 499)
    else if t == "5xx" then Between(s, 500, 599)
    else if ',' in t then ListAccepts(Split(t, ','), s)
    else Numeral(t) ==> Names(t, s)
  }

  lemma {:induction false} ListedCodesMeans(parts: seq<string>, s: Status)
    ensures s.Code? && s.code in ListedCodes(parts) <==> exists p <- parts :: Names(Strip(p), s)
    ensures ListedCodes(parts) != [] <==> exists p <- parts :: Numeral(Strip(p))
  {
    if parts != [] {
      ListedCodesMeans(parts[1..], s);
      NumeralMeans(Strip(parts[0]));
      assert forall p :: p in parts <==> p == parts[0] || p in parts[1..];
    }
  }

  /** The comma-list branch. */
  predicate ListAccepts(pieces: seq<string>, s: Status) {
    (exists p <- pieces :: Numeral(Strip(p))) ==> exists p <- pieces :: Names(Strip(p), s)
  }

  lemma ListFilterMeans(pieces: seq<string>, codes: set<int>, e: Entry)
    requires codes == set c | c in ListedCodes(pieces)
    ensures codes == {} || (StatusInt(e).Some? && StatusInt(e).value in codes) <==> ListAccepts(pieces, e.status)
  {
    ListedCodesMeans(pieces, e.status);
    if ListedCodes(pieces) != [] { assert ListedCodes(pieces)[0] in codes; }
  }

  /** What the code makes of the trimmed text in small letters. */
  lemma StatusTextMeans(e: Entry, raw: string, t: string)
    requires raw != "" && Strip(raw) != "" && t == Lower(Strip(raw))
    ensures StatusMatches(e, Some(raw))
            <==> match ClassRange(t)
                 case Some((low, high)) => e.status.Code? && low <= e.status.code < high
                 case None =>
                   if ',' in t then ListAccepts(Split(t, ','), e.status)
                   else AllDigits(t) ==> e.status == Code(ToInt(t))
  {
    if ClassRange(t).None? && ',' in t {
      var codes := set c | c in ListedCodes(Split(t, ','));
      ListFilterMeans(Split(t, ','), codes, e);
    }
  }

  lemma StatusFilterMeans(e: Entry, text: string)
    ensures StatusMatches(e, Some(text)) <==> text == "" || Strip(text) == "" || AcceptsStatus(e.status, text)
  {
    if text != "" && Strip(text) != "" {
      NumeralMeans(Lower(Strip(text)));
      StatusTextMeans(e, text, Lower(Strip(text)));
    }
  }

  /** A field as text: nothing for an absent one, "None" for a null. */
  function Shown(f: Field): string {
    match f
    case Missing => ""
    case Null => "None"
    case Text(value) => value
  }

  predicate OccursAt(s: string, t: string, i: nat) { i + |t| <= |s| && SameLetters(s[i..i + |t|], t) }

  /** The text occurs in the other, whatever the case of its letters. */
  predicate Mentions(s: string, t: string) { exists i :: 0 <= i <= |s| && OccursAt(s, t, i) }

  lemma OccursMeans(s: string, t: string, i: nat)
    requires i <= |s|
    ensures Lower(t) <= Lower(s)[i..] <==> OccursAt(s, t, i)
  {
    if i + |t| <= |s| {
      var window := s[i..i + |t|];
      assert Lower(s)[i..][..|t|] == Lower(window);
      CaseMeans(window, t);
    }
  }

  lemma MentionsMeans(s: string, t: string)
    ensures HasSubstring(Lower(s), Lower(t)) <==> Mentions(s, t)
  {
    HasSubstringIsContains(Lower(s), Lower(t));
    if Mentions(s, t) {
      var i :| 0 <= i <= |s| && OccursAt(s, t, i);
      OccursMeans(s, t, i);
    }
    if Contains(Lower(s), Lower(t)) {
      var i :| 0 <= i <= |Lower(s)| && Lower(t) <= Lower(s)[i..];
      OccursMeans(s, t, i);
    }
  }

  /** A filter that is not given, or empty, accepts every entry. */
  predicate Unset(filter: Option<string>) { filter == None || filter == Some("") }

  /** What the four filters accept. */
  predicate Accepts(e: Entry, f: Filters) {
    (Unset(f.level) || SameLetters(Shown(e.level), Strip(f.level.value)))
    && (Unset(f.instanceId) || Shown(e.instanceId) == f.instanceId.value)
    && (Unset(f.search) || Strip(f.search.value) == ""
        || Mentions(Shown(e.message), Strip(f.search.value)) || Mentions(Shown(e.logger), Strip(f.search.value))
        || Mentions(Shown(e.path), Strip(f.search.value)))
    && (Unset(f.statusCode) || Strip(f.statusCode.value) == "" || AcceptsStatus(e.status, f.statusCode.value))
  }

  lemma FiltersMean(e: Entry, f: Filters)
    ensures EntryMatchesFilters(e, f) <==> Accepts(e, f)
  {
    if !Unset(f.level) {
      StripOfUpper(f.level.value);
      CaseMeans(Shown(e.level), Strip(f.level.value));
    }
    if !Unset(f.search) {
      MentionsMeans(Shown(e.message), Strip(f.search.value));
      MentionsMeans(Shown(e.logger), Strip(f.search.value));
      MentionsMeans(Shown(e.path), Strip(f.search.value));
    }
    if !Unset(f.statusCode) { StatusFilterMeans(e, f.statusCode.value); }
  }
}
