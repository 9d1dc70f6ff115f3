/** String helpers that the screens and the repository rely on: blank checks,
    trimming, case-insensitive comparison and search, decimal rendering, and
    the split/join pair used to build the account name.
    Kotlin's Unicode rules for whitespace and case are replaced by their ASCII
    subset throughout. */
module Text {

  datatype Option<+T> = None | Some(value: T) {
    /** Kotlin's `x ?: default`. */
    function GetOr(default: T): T {
      if Some? then value else default
    }
  }

  // ---------------------------------------------------------------------------
  // Whitespace, blankness, trimming

  /** Char.isWhitespace on ASCII: space, tab to carriage return, and the four
      information separators. */
  predicate IsWhitespace(c: char) {
    c == ' ' || ('\t' <= c <= '\r') || ('\U{1C}' <= c <= '\U{1F}')
  }

  /** CharSequence.isBlank: empty, or whitespace only. */
  predicate IsBlank(s: string) {
    forall i :: 0 <= i < |s| ==> IsWhitespace(s[i])
  }

  /** The number of whitespace characters `trim` drops at the front. */
  function LeadingSpace(s: string): (n: nat)
    ensures n <= |s|
    ensures IsBlank(s[..n])
    ensures n < |s| ==> !IsWhitespace(s[n])
  {
    if s == [] || !IsWhitespace(s[0]) then 0 else 1 + LeadingSpace(s[1..])
  }

  /** The number of whitespace characters `trim` drops at the back. */
  function TrailingSpace(s: string): (n: nat)
    ensures n <= |s|
    ensures IsBlank(s[|s| - n..])
    ensures n < |s| ==> !IsWhitespace(s[|s| - n - 1])
  {
    if s == [] || !IsWhitespace(s[|s| - 1]) then 0 else 1 + TrailingSpace(s[..|s| - 1])
  }

  /** String.trim: the slice left once leading and trailing whitespace is cut. */
  function Trim(s: string): (r: string)
    ensures |r| <= |s|
    ensures LeadingSpace(s) + |r| <= |s| && r == s[LeadingSpace(s)..LeadingSpace(s) + |r|]
    ensures IsBlank(s[..LeadingSpace(s)]) && IsBlank(s[LeadingSpace(s) + |r|..])
    ensures r == [] || (!IsWhitespace(r[0]) && !IsWhitespace(r[|r| - 1]))
    ensures r == [] <==> IsBlank(s)
  {
    var a := LeadingSpace(s);
    var t := s[a..];
    var r := t[..|t| - TrailingSpace(t)];
    assert r == [] ==> s == s[..a] + t[|t| - TrailingSpace(t)..];
    r
  }

  // ---------------------------------------------------------------------------
  // ASCII case

  predicate IsLower(c: char) { 'a' <= c <= 'z' }

  /** Char.uppercaseChar on ASCII. */
  function ToUpper(c: char): char {
    if IsLower(c) then (c as int - 32) as char else c
  }

  /** Two characters are equal ignoring case when their upper-case forms agree. */
  predicate CharEqualsIgnoreCase(a: char, b: char) {
    ToUpper(a) == ToUpper(b)
  }

  /** String.equals(other, ignoreCase = true). */
  predicate EqualsIgnoreCase(a: string, b: string) {
    |a| == |b| && forall i :: 0 <= i < |a| ==> CharEqualsIgnoreCase(a[i], b[i])
  }

  // ---------------------------------------------------------------------------
  // Substring search

  /** regionMatches: p occurs in s at offset k, optionally ignoring case. */
  predicate MatchesAt(s: string, k: int, p: string, ignoreCase: bool) {
    0 <= k && k + |p| <= |s| &&
    if ignoreCase then EqualsIgnoreCase(s[k..k + |p|], p) else s[k..k + |p|] == p
  }

  /** Whether p occurs in s at some offset from `from` on. */
  function OccursFrom(s: string, p: string, ignoreCase: bool, from: nat): (r: bool)
    ensures r <==> exists k :: from <= k && MatchesAt(s, k, p, ignoreCase)
    decreases |s| - from
  {
    if from + |p| > |s| then
      assert forall k :: from <= k ==> !MatchesAt(s, k, p, ignoreCase);
      false
    else MatchesAt(s, from, p, ignoreCase) || OccursFrom(s, p, ignoreCase, from + 1)
  }

  /** CharSequence.contains(other, ignoreCase). */
  predicate Contains(s: string, p: string, ignoreCase: bool) {
    OccursFrom(s, p, ignoreCase, 0)
  }

  /** String.startsWith(prefix), case-sensitive. */
  predicate StartsWith(s: string, p: string) {
    MatchesAt(s, 0, p, false)
  }

  // ---------------------------------------------------------------------------
  // Characters: first occurrence, replacement

  /** Index of the first occurrence of c in s, or |s| when there is none. */
  function IndexOf(s: string, c: char): (i: nat)
    ensures i <= |s|
    ensures i < |s| <==> c in s
    ensures i < |s| ==> s[i] == c
    ensures c !in s[..i]
  {
    if s == [] then 0
    else if s[0] == c then 0
    else
      var j := IndexOf(s[1..], c);
      assert s[..1 + j] == [s[0]] + s[1..][..j];
      1 + j
  }

  /** String.substringBefore(delimiter): the text before the first delimiter,
      or the whole string when it has none. */
  function SubstringBefore(s: string, c: char): (r: string)
    ensures c !in r
    ensures |r| <= |s| && r == s[..|r|]
    ensures c in s ==> |r| < |s| && s[|r|] == c
    ensures c !in s ==> r == s
  {
    s[..IndexOf(s, c)]
  }

  /** String.replace(oldChar, newChar). */
  function ReplaceChar(s: string, old_: char, new_: char): (r: string)
    ensures |r| == |s|
    ensures forall i :: 0 <= i < |s| ==> r[i] == (if s[i] == old_ then new_ else s[i])
  {
    if s == [] then [] else [if s[0] == old_ then new_ else s[0]] + ReplaceChar(s[1..], old_, new_)
  }

  // ---------------------------------------------------------------------------
  // Split and join on one character

  /** String.split(sep) with a single-character delimiter: always at least
      one piece; consecutive delimiters give empty pieces. */
  function Split(s: string, sep: char): (ws: seq<string>)
    ensures |ws| >= 1
    ensures forall i :: 0 <= i < |ws| ==> sep !in ws[i]
    decreases |s|
  {
    var i := IndexOf(s, sep);
    if i == |s| then [s] else [s[..i]] + Split(s[i + 1..], sep)
  }

  /** joinToString(separator) over pieces. */
  function Join(ws: seq<string>, sep: char): string {
    if |ws| == 0 then []
    else if |ws| == 1 then ws[0]
    else ws[0] + [sep] + Join(ws[1..], sep)
  }

  /** Joining the pieces of a split with the same delimiter gives back the
      original string. */
  lemma {:induction false} JoinSplit(s: string, sep: char)
    ensures Join(Split(s, sep), sep) == s
    decreases |s|
  {
    var i := IndexOf(s, sep);
    if i < |s| {
      var a, rest := s[..i], s[i + 1..];
      var ws := Split(rest, sep);
      assert Split(s, sep) == [a] + ws;
      JoinSplit(rest, sep);
      assert ([a] + ws)[1..] == ws;
      assert Join([a] + ws, sep) == a + [sep] + rest;
      assert s == a + [sep] + rest;
    }
  }

  lemma ConcatAssoc(a: string, b: string, c: string)
    ensures (a + b) + c == a + (b + c)
  {
  }

  /** A piece free of the separator, then the separator: the split starts
      with that piece and goes on with the split of the rest. */
  lemma SplitAfterPiece(a: string, sep: char, rest: string)
    requires sep !in a
    ensures Split(a + [sep] + rest, sep) == [a] + Split(rest, sep)
  {
    var s := a + [sep] + rest;
    var i := IndexOf(s, sep);
    assert s[|a|] == sep;
    assert s[..|a|] == a;
    assert s[i + 1..] == rest;
  }

  /** The pieces, each followed by the separator. */
  function Terminated(ws: seq<string>, sep: char): string {
    if ws == [] then [] else ws[0] + [sep] + Terminated(ws[1..], sep)
  }

  lemma SplitEmpty(sep: char)
    ensures Split([], sep) == [""]
  {
    assert IndexOf([], sep) == 0;
  }

  /** One more piece in front of a terminated sequence. */
  lemma SplitTerminatedStep(first: string, later: seq<string>, sep: char)
    requires sep !in first
    requires Split(Terminated(later, sep), sep) == later + [""]
    ensures Split(Terminated([first] + later, sep), sep) == [first] + later + [""]
  {
    var rest := Terminated(later, sep);
    assert ([first] + later)[1..] == later;
    assert Terminated([first] + later, sep) == first + [sep] + rest;
    SplitAfterPiece(first, sep, rest);
  }

  /** Splitting pieces that each end with the separator gives the pieces back,
      then an empty last piece. */
  lemma {:induction false} SplitTerminated(ws: seq<string>, sep: char)
    requires forall i :: 0 <= i < |ws| ==> sep !in ws[i]
    ensures Split(Terminated(ws, sep), sep) == ws + [""]
  {
    if ws == [] {
      SplitEmpty(sep);
    } else {
      var later := ws[1..];
      forall i | 0 <= i < |later| ensures sep !in later[i] {
        assert later[i] == ws[i + 1];
      }
      SplitTerminated(later, sep);
      SplitTerminatedStep(ws[0], later, sep);
      assert [ws[0]] + later == ws;
    }
  }

  /** A character absent from every piece and different from the separator is
      absent from the joined string. */
  lemma {:induction false} JoinAvoids(ws: seq<string>, sep: char, c: char)
    requires c != sep
    requires forall i :: 0 <= i < |ws| ==> c !in ws[i]
    ensures c !in Join(ws, sep)
  {
    if |ws| > 1 {
      JoinAvoids(ws[1..], sep, c);
    }
  }

  // ---------------------------------------------------------------------------
  // Decimal rendering of naturals

  function DigitChar(d: nat): (c: char)
    requires d < 10
    ensures '0' <= c <= '9' && c as int - '0' as int == d
  {
    ('0' as int + d) as char
  }

  predicate IsDigits(s: string) {
    forall i :: 0 <= i < |s| ==> '0' <= s[i] <= '9'
  }

  /** The value of a string of decimal digits. */
  function DigitsValue(s: string): nat
    requires IsDigits(s)
  {
    if s == [] then 0 else 10 * DigitsValue(s[..|s| - 1]) + (s[|s| - 1] as int - '0' as int)
  }

  /** Int.toString for a natural: its decimal digits, without leading zeros. */
  function NatToString(n: nat): (r: string)
    ensures |r| >= 1 && IsDigits(r)
    ensures |r| > 1 ==> r[0] != '0'
  {
    if n < 10 then [DigitChar(n)] else NatToString(n / 10) + [DigitChar(n % 10)]
  }

  /** Reading back the rendered digits gives the number. */
  lemma {:induction false} NatToStringRoundTrip(n: nat)
    ensures DigitsValue(NatToString(n)) == n
  {
    if n >= 10 {
      NatToStringRoundTrip(n / 10);
      var r := NatToString(n);
      assert r[..|r| - 1] == NatToString(n / 10);
    }
  }
}
