/**
 * The handful of Python `str` operations the core relies on, defined on
 * `seq<char>`: `isspace`/`strip`, `in`, `find`, `split(sep)`, `sep.join`,
 * `replace`, ASCII `upper`/`lower` and `str(int)`.
 */
module Strings {
  import opened Wrappers

  // ---------------------------------------------------------------- whitespace

  /** Python's `str.isspace()` on one character (the Unicode whitespace set). */
  predicate IsSpace(c: char) {
    c == ' ' || ('\t' <= c <= '\r') || ('\U{1c}' <= c <= '\U{1f}')
    || c == '\U{85}' || c == '\U{a0}' || c == '\U{1680}'
    || ('\U{2000}' <= c <= '\U{200a}') || c == '\U{2028}' || c == '\U{2029}'
    || c == '\U{202f}' || c == '\U{205f}' || c == '\U{3000}'
  }

  /** Number of whitespace characters at the start of `s`. */
  function LeadingSpace(s: string): (n: nat)
    ensures n <= |s|
    ensures forall i :: 0 <= i < n ==> IsSpace(s[i])
    ensures n < |s| ==> !IsSpace(s[n])
  {
    if s != [] && IsSpace(s[0]) then 1 + LeadingSpace(s[1..]) else 0
  }

  /** Number of whitespace characters at the end of `s`. */
  function TrailingSpace(s: string): (n: nat)
    ensures n <= |s|
    ensures forall i :: |s| - n <= i < |s| ==> IsSpace(s[i])
    ensures n < |s| ==> !IsSpace(s[|s| - 1 - n])
  {
    if s != [] && IsSpace(s[|s| - 1]) then 1 + TrailingSpace(s[..|s| - 1]) else 0
  }

  /** Python's `s.strip()`: the slice of `s` between its leading and trailing whitespace. */
  function Strip(s: string): (r: string)
    ensures LeadingSpace(s) + |r| <= |s|
    ensures r == s[LeadingSpace(s)..LeadingSpace(s) + |r|]
    ensures r == [] || (!IsSpace(r[0]) && !IsSpace(r[|r| - 1]))
    ensures r == [] <==> forall i :: 0 <= i < |s| ==> IsSpace(s[i])
  {
    var lead := LeadingSpace(s);
    if lead == |s| then ""
    else
      var trail := TrailingSpace(s);
      assert !IsSpace(s[lead]);
      assert lead < |s| - trail;
      s[lead..|s| - trail]
  }

  /** Python's `len(s.strip()) == 0`. */
  predicate IsBlank(s: string) {
    Strip(s) == ""
  }

  // ---------------------------------------------------------------- search

  /** `p` occurs in `s` starting at index `i`. */
  predicate OccursAt(s: string, p: string, i: int) {
    0 <= i && i + |p| <= |s| && s[i..i + |p|] == p
  }

  /** Python's `p in s`. */
  predicate Contains(s: string, p: string) {
    exists i | 0 <= i <= |s| - |p| :: OccursAt(s, p, i)
  }

  lemma OccursInPrefix(s: string, p: string, n: nat, i: int)
    requires n <= |s| && OccursAt(s[..n], p, i)
    ensures OccursAt(s, p, i)
  {
    assert s[..n][i..i + |p|] == s[i..i + |p|];
  }

  lemma OccursInSuffix(s: string, p: string, n: nat, i: int)
    requires n <= |s| && OccursAt(s[n..], p, i)
    ensures OccursAt(s, p, n + i)
  {
    assert s[n..][i..i + |p|] == s[n + i..n + i + |p|];
  }

  /** A slice of a string in which `p` does not occur does not contain `p` either. */
  lemma SliceAvoids(s: string, p: string, a: nat, b: nat)
    requires a <= b <= |s| && !Contains(s, p)
    ensures !Contains(s[a..b], p)
  {
    if Contains(s[a..b], p) {
      var i :| OccursAt(s[a..b], p, i);
      assert s[a..][..b - a] == s[a..b];
      OccursInPrefix(s[a..], p, b - a, i);
      OccursInSuffix(s, p, a, i);
    }
  }

  /** Python's `s.find(p)`, with `None` for -1: the first index at which `p` occurs. */
  function IndexOf(s: string, p: string): (r: Option<nat>)
    ensures r.Some? ==> OccursAt(s, p, r.value)
    ensures r.Some? ==> forall j :: 0 <= j < r.value ==> !OccursAt(s, p, j)
    ensures r.None? <==> !Contains(s, p)
    decreases |s|
  {
    if |s| < |p| then None
    else if s[..|p|] == p then Some(0)
    else
      var rest := IndexOf(s[1..], p);
      ShiftOccurrence(s, p);
      match rest
      case None => None
      case Some(i) => Some(i + 1)
  }

  /** When `p` is not a prefix of `s`, its occurrences in `s` are those in `s[1..]`, shifted by one. */
  lemma ShiftOccurrence(s: string, p: string)
    requires |p| <= |s| && s[..|p|] != p
    ensures !OccursAt(s, p, 0)
    ensures forall j :: j >= 1 ==> (OccursAt(s, p, j) <==> OccursAt(s[1..], p, j - 1))
    ensures Contains(s, p) <==> Contains(s[1..], p)
  {
    assert s[0..|p|] == s[..|p|];
    forall j | j >= 1 ensures OccursAt(s, p, j) <==> OccursAt(s[1..], p, j - 1) {
      if j + |p| <= |s| {
        assert s[1..][j - 1..j - 1 + |p|] == s[j..j + |p|];
      }
    }
    if Contains(s, p) {
      var i :| 0 <= i <= |s| - |p| && OccursAt(s, p, i);
      assert OccursAt(s[1..], p, i - 1);
    }
    if Contains(s[1..], p) {
      var i :| 0 <= i <= |s| - 1 - |p| && OccursAt(s[1..], p, i);
      assert OccursAt(s, p, i + 1);
    }
  }

  // ---------------------------------------------------------------- split, join, replace

  /** Python's `s.split(sep)` for a non-empty separator. */
  function Split(s: string, sep: string): (parts: seq<string>)
    requires sep != []
    ensures |parts| >= 1
    decreases |s|
  {
    match IndexOf(s, sep)
    case None => [s]
    case Some(i) => [s[..i]] + Split(s[i + |sep|..], sep)
  }

  /** No piece of a split contains the separator. */
  lemma {:induction false} SplitPartsAvoid(s: string, sep: string)
    requires sep != []
    ensures forall k :: 0 <= k < |Split(s, sep)| ==> !Contains(Split(s, sep)[k], sep)
    decreases |s|
  {
    match IndexOf(s, sep)
    case None =>
    case Some(i) =>
      var rest := s[i + |sep|..];
      PrefixBeforeFirst(s, sep, i);
      SplitPartsAvoid(rest, sep);
      var parts := Split(s, sep);
      assert parts == [s[..i]] + Split(rest, sep);
      forall k | 0 <= k < |parts|
        ensures !Contains(parts[k], sep)
      {
        if k > 0 {
          assert parts[k] == Split(rest, sep)[k - 1];
        }
      }
  }

  lemma PrefixBeforeFirst(s: string, p: string, i: nat)
    requires p != [] && IndexOf(s, p) == Some(i)
    ensures !Contains(s[..i], p)
  {
    if Contains(s[..i], p) {
      var j :| OccursAt(s[..i], p, j);
      OccursInPrefix(s, p, i, j);
    }
  }

  /** A string without the separator is not split at all. */
  lemma SplitNone(s: string, sep: string)
    requires sep != [] && !Contains(s, sep)
    ensures Split(s, sep) == [s]
  {
  }

  /** Splitting `a + sep + rest` on a one-character separator absent from `a`
      cuts exactly after `a`. */
  lemma SplitAfter(a: string, sep: string, rest: string)
    requires |sep| == 1 && !Contains(a, sep)
    ensures Split(a + sep + rest, sep) == [a] + Split(rest, sep)
  {
    var s := a + sep + rest;
    assert s[|a|..|a| + 1] == sep;
    assert OccursAt(s, sep, |a|);
    var i := IndexOf(s, sep).value;
    if i < |a| {
      assert s[i..i + 1] == a[i..i + 1];
      assert OccursAt(a, sep, i);
    }
    assert s[..|a|] == a;
    assert s[|a| + 1..] == rest;
  }

  /** Splitting three separator-free words glued with a one-character separator gives them back. */
  lemma SplitThree(a: string, b: string, c: string, sep: string)
    requires |sep| == 1 && !Contains(a, sep) && !Contains(b, sep) && !Contains(c, sep)
    ensures Split(a + sep + b + sep + c, sep) == [a, b, c]
  {
    var bc := b + sep + c;
    assert a + sep + b + sep + c == a + sep + bc;
    calc {
      Split(a + sep + bc, sep);
    == { SplitAfter(a, sep, bc); }
      [a] + Split(bc, sep);
    == { SplitAfter(b, sep, c); SplitNone(c, sep); }
      [a] + ([b] + [c]);
    ==
      [a, b, c];
    }
  }

  /** Splitting two separator-free words glued with a one-character separator gives them back. */
  lemma SplitTwo(a: string, b: string, sep: string)
    requires |sep| == 1 && !Contains(a, sep) && !Contains(b, sep)
    ensures Split(a + sep + b, sep) == [a, b]
  {
    SplitNone(b, sep);
    SplitAfter(a, sep, b);
  }

  /** Python's `sep.join(parts)`. */
  function Join(parts: seq<string>, sep: string): string {
    if |parts| == 0 then ""
    else if |parts| == 1 then parts[0]
    else parts[0] + sep + Join(parts[1..], sep)
  }

  lemma JoinCons(a: string, parts: seq<string>, sep: string)
    requires parts != []
    ensures Join([a] + parts, sep) == a + sep + Join(parts, sep)
  {
    assert ([a] + parts)[1..] == parts;
  }

  lemma JoinShapes(parts: seq<string>, sep: string)
    ensures |parts| == 2 ==> Join(parts, sep) == parts[0] + sep + parts[1]
    ensures |parts| == 3 ==> Join(parts, sep) == parts[0] + sep + parts[1] + sep + parts[2]
  {
    if |parts| == 3 {
      assert parts[1..][1..] == [parts[2]];
    }
  }

  /** Splitting and joining with the same separator gives back the original string. */
  lemma {:induction false} JoinSplit(s: string, sep: string)
    requires sep != []
    ensures Join(Split(s, sep), sep) == s
    decreases |s|
  {
    var found := IndexOf(s, sep);
    if found.Some? {
      var i := found.value;
      var rest := s[i + |sep|..];
      var parts := Split(rest, sep);
      JoinSplit(rest, sep);
      assert Split(s, sep) == [s[..i]] + parts;
      JoinCons(s[..i], parts, sep);
      assert s[i..i + |sep|] == sep;
      assert s == s[..i] + s[i..i + |sep|] + rest;
    }
  }

  /** Python's `s.replace(pat, value)` for a non-empty pattern: the text is scanned from the
      left, each occurrence met is replaced, and the scan resumes right after it. */
  function Replace(s: string, pat: string, value: string): string
    requires pat != []
    decreases |s|
  {
    if |s| < |pat| then s
    else if s[..|pat|] == pat then value + Replace(s[|pat|..], pat, value)
    else [s[0]] + Replace(s[1..], pat, value)
  }

  /** Splitting the join of pieces none of which holds the separator's first character
      gives the pieces back. */
  lemma {:induction false} SplitJoinPlain(pieces: seq<string>, sep: string)
    requires sep != [] && pieces != []
    requires forall i :: 0 <= i < |pieces| ==> sep[0] !in pieces[i]
    ensures Split(Join(pieces, sep), sep) == pieces
    decreases |pieces|
  {
    if |pieces| == 1 {
      AbsentFirstChar(pieces[0], sep);
      SplitNone(pieces[0], sep);
    } else {
      var rest := pieces[1..];
      SplitJoinPlain(rest, sep);
      SplitAfterPlain(pieces[0], sep, Join(rest, sep));
      assert pieces == [pieces[0]] + rest;
    }
  }

  /** A character in none of the pieces and not in the separator is not in their join. */
  lemma {:induction false} JoinAvoidsChar(pieces: seq<string>, sep: string, c: char)
    requires c !in sep
    requires forall i :: 0 <= i < |pieces| ==> c !in pieces[i]
    ensures c !in Join(pieces, sep)
    decreases |pieces|
  {
    if |pieces| > 1 {
      JoinAvoidsChar(pieces[1..], sep, c);
    }
  }

  /** A string without the pattern is left as it is. */
  lemma ReplaceAbsent(s: string, pat: string, value: string)
    requires pat != [] && !Contains(s, pat)
    ensures Replace(s, pat, value) == s
  {
    assert s + [] == s;
    ReplaceKeep(s, [], pat, value);
  }

  /** Text in which no occurrence of the pattern starts is kept as it is, and the scan goes on
      in what follows it. */
  lemma {:induction false} ReplaceKeep(a: string, rest: string, pat: string, value: string)
    requires pat != []
    requires forall i :: 0 <= i < |a| ==> !OccursAt(a + rest, pat, i)
    ensures Replace(a + rest, pat, value) == a + Replace(rest, pat, value)
    decreases |a|
  {
    if a == [] {
      assert a + rest == rest;
    } else {
      ReplaceNoStart(a + rest, pat, value);
      assert (a + rest)[1..] == a[1..] + rest;
      DropNoStart(a, rest, pat);
      ReplaceKeep(a[1..], rest, pat, value);
      assert a == [a[0]] + a[1..];
    }
  }

  /** Where the pattern does not start, the first character is kept. */
  lemma ReplaceNoStart(s: string, pat: string, value: string)
    requires pat != [] && s != [] && !OccursAt(s, pat, 0)
    ensures Replace(s, pat, value) == [s[0]] + Replace(s[1..], pat, value)
  {
    if |s| < |pat| {
      assert Replace(s[1..], pat, value) == s[1..];
      assert s == [s[0]] + s[1..];
    } else {
      assert s[..|pat|] != pat;
    }
  }

  /** No occurrence starting in `a` means none starting in `a[1..]` either. */
  lemma DropNoStart(a: string, rest: string, pat: string)
    requires a != []
    requires forall i :: 0 <= i < |a| ==> !OccursAt(a + rest, pat, i)
    ensures forall i :: 0 <= i < |a| - 1 ==> !OccursAt(a[1..] + rest, pat, i)
  {
    var s := a + rest;
    assert s == [s[0]] + (a[1..] + rest);
    forall i | 0 <= i < |a| - 1
      ensures !OccursAt(a[1..] + rest, pat, i)
    {
      OccursBehind([s[0]], a[1..] + rest, pat, i);
    }
  }

  /** An occurrence of the pattern before which none starts is the first one replaced. */
  lemma ReplaceAt(a: string, pat: string, rest: string, value: string)
    requires pat != []
    requires forall i :: 0 <= i < |a| ==> !OccursAt(a + pat + rest, pat, i)
    ensures Replace(a + pat + rest, pat, value) == a + value + Replace(rest, pat, value)
  {
    assert a + pat + rest == a + (pat + rest);
    ReplaceKeep(a, pat + rest, pat, value);
    assert (pat + rest)[..|pat|] == pat;
    assert (pat + rest)[|pat|..] == rest;
  }

  /** The scan agrees with cutting at the occurrences and gluing the pieces back with the value. */
  lemma {:induction false} ReplaceSplitJoin(s: string, pat: string, value: string)
    requires pat != []
    ensures Replace(s, pat, value) == Join(Split(s, pat), value)
    decreases |s|
  {
    match IndexOf(s, pat)
    case None =>
      ReplaceAbsent(s, pat, value);
    case Some(i) =>
      var before, after := s[..i], s[i + |pat|..];
      assert s == before + pat + after;
      forall j | 0 <= j < |before|
        ensures !OccursAt(before + pat + after, pat, j)
      {
      }
      ReplaceAt(before, pat, after, value);
      ReplaceSplitJoin(after, pat, value);
      JoinCons(before, Split(after, pat), value);
  }

  /** A pattern cannot occur in a string that lacks its first character. */
  lemma AbsentFirstChar(s: string, pat: string)
    requires pat != [] && pat[0] !in s
    ensures !Contains(s, pat)
  {
  }

  /** Splitting text that lacks the separator's first character, followed by the separator,
      cuts exactly after that text. */
  lemma SplitAfterPlain(a: string, sep: string, rest: string)
    requires sep != [] && sep[0] !in a
    ensures Split(a + sep + rest, sep) == [a] + Split(rest, sep)
  {
    var s := a + sep + rest;
    assert s[|a|..|a| + |sep|] == sep;
    assert OccursAt(s, sep, |a|);
    assert s[..|a|] == a;
    assert s[|a| + |sep|..] == rest;
  }

  /** An occurrence in `rest` is one in `a + rest`, shifted by `|a|`. */
  lemma OccursBehind(a: string, rest: string, pat: string, j: nat)
    ensures OccursAt(a + rest, pat, |a| + j) <==> OccursAt(rest, pat, j)
  {
    if |a| + j + |pat| <= |a + rest| {
      assert (a + rest)[|a| + j..|a| + j + |pat|] == rest[j..j + |pat|];
    }
  }

  /** The text before the first occurrence of `p`, or all of `s` when there is none. */
  function UpTo(s: string, p: string): (r: string)
    ensures !Contains(s, p) ==> r == s
  {
    match IndexOf(s, p)
    case None => s
    case Some(i) => s[..i]
  }

  /** The text after the first occurrence of `p`. */
  function After(s: string, p: string): string
    requires Contains(s, p)
  {
    s[IndexOf(s, p).value + |p|..]
  }

  /** The first piece of a split is the text before the first separator; when the separator
      occurs, the second piece is the text between its first and second occurrence. */
  lemma SplitHead(s: string, sep: string)
    requires sep != []
    ensures Split(s, sep)[0] == UpTo(s, sep)
    ensures Contains(s, sep) ==> |Split(s, sep)| >= 2 && Split(s, sep)[1] == UpTo(After(s, sep), sep)
  {
    if Contains(s, sep) {
      var rest := After(s, sep);
      assert Split(s, sep) == [UpTo(s, sep)] + Split(rest, sep);
      if Contains(rest, sep) {
        assert Split(rest, sep) == [UpTo(rest, sep)] + Split(After(rest, sep), sep);
      } else {
        SplitNone(rest, sep);
      }
    }
  }

  /** Two strings free of `p` stay free of it when glued, if the second opens with a character
      that `p` does not have. */
  lemma GlueAvoids(a: string, b: string, p: string)
    requires p != [] && !Contains(a, p) && !Contains(b, p)
    requires b != [] && b[0] !in p
    ensures !Contains(a + b, p)
  {
    var s := a + b;
    forall i | 0 <= i <= |s| - |p|
      ensures !OccursAt(s, p, i)
    {
      if i < |a| && |a| < i + |p| {
        assert s[i..i + |p|][|a| - i] == b[0];
      } else if i + |p| <= |a| {
        assert s[i..i + |p|] == a[i..i + |p|];
        assert !OccursAt(a, p, i);
      } else {
        assert s[|a|..] == b;
        assert s[i..i + |p|] == b[i - |a|..i - |a| + |p|];
        assert !OccursAt(b, p, i - |a|);
      }
    }
  }

  /** A string free of `p` stays free of it behind a prefix lacking `p`'s first character. */
  lemma BehindPlainAvoids(a: string, b: string, p: string)
    requires p != [] && p[0] !in a && !Contains(b, p)
    ensures !Contains(a + b, p)
  {
    var s := a + b;
    forall i | 0 <= i <= |s| - |p|
      ensures !OccursAt(s, p, i)
    {
      if i < |a| {
        assert s[i..i + |p|][0] == a[i];
      } else {
        assert s[|a|..] == b;
        assert s[i..i + |p|] == b[i - |a|..i - |a| + |p|];
        assert !OccursAt(b, p, i - |a|);
      }
    }
  }

  /** Stripping cannot introduce a substring. */
  lemma StripAvoids(s: string, p: string)
    requires !Contains(s, p)
    ensures !Contains(Strip(s), p)
  {
    SliceAvoids(s, p, LeadingSpace(s), LeadingSpace(s) + |Strip(s)|);
  }

  /** A string with a visible last character is not blank. */
  lemma VisibleNotBlank(s: string)
    requires s != [] && !IsSpace(s[|s| - 1])
    ensures !IsBlank(s)
  {
  }

  // ---------------------------------------------------------------- case mapping

  function UpperChar(c: char): char {
    if 'a' <= c <= 'z' then (c as int - 32) as char else c
  }

  function LowerChar(c: char): char {
    if 'A' <= c <= 'Z' then (c as int + 32) as char else c
  }

  /** Python's `s.upper()`, restricted to the ASCII letters. */
  function Upper(s: string): (r: string)
    ensures |r| == |s| && forall i :: 0 <= i < |s| ==> r[i] == UpperChar(s[i])
  {
    if s == [] then [] else [UpperChar(s[0])] + Upper(s[1..])
  }

  /** Python's `s.lower()`, restricted to the ASCII letters. */
  function Lower(s: string): (r: string)
    ensures |r| == |s| && forall i :: 0 <= i < |s| ==> r[i] == LowerChar(s[i])
  {
    if s == [] then [] else [LowerChar(s[0])] + Lower(s[1..])
  }

  /** Only capital ASCII letters. */
  predicate AllCapitals(s: string) {
    forall i :: 0 <= i < |s| ==> 'A' <= s[i] <= 'Z'
  }

  lemma UpperOfCapitals(s: string)
    requires AllCapitals(s)
    ensures Upper(s) == s
  {
  }

  /** Lower-casing a word of capitals and upper-casing it again gives it back. */
  lemma UpperLowerCapitals(s: string)
    requires AllCapitals(s)
    ensures Upper(Lower(s)) == s
  {
  }

  lemma CapitalsAvoid(s: string, sep: string)
    requires AllCapitals(s) && |sep| == 1 && !('A' <= sep[0] <= 'Z')
    ensures !Contains(s, sep)
  {
  }

  /** Upper-casing commutes with gluing words by an underscore. */
  lemma UpperGlue(a: string, b: string)
    ensures Upper(a + "_" + b) == Upper(a) + "_" + Upper(b)
  {
  }

  // ---------------------------------------------------------------- numbers

  function DigitChar(d: nat): char
    requires d < 10
  {
    "0123456789"[d]
  }

  function NatToString(n: nat): (r: string)
    ensures r != [] && forall i :: 0 <= i < |r| ==> '0' <= r[i] <= '9'
  {
    if n < 10 then [DigitChar(n)] else NatToString(n / 10) + [DigitChar(n % 10)]
  }

  /** Python's `str(n)` for an integer. */
  function IntToString(n: int): (r: string)
    ensures r != []
  {
    if n < 0 then "-" + NatToString(-n) else NatToString(n)
  }
}
