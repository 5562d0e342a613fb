/**
  The string helpers of the older JavaScript front end: splitN, a split at the
  first n matches of a regular expression, and lTrim, which drops a leading run
  of listed characters and keeps the rest of the first line.

  The regular expressions splitN is given are all of two shapes: a literal
  string (/ / and /\n{2}/) or a greedy run of at least so many characters of
  one class (/\s{2,}/ and /\n{2,}/).  A Pattern names one of the two.
*/
module JsUtil {
  import opened Wrappers
  import opened Text

  datatype Pattern = Literal(text: string) | Run(inClass: char -> bool, min: nat)

  /** Every match is at least one character long. */
  predicate WellFormed(p: Pattern) {
    match p
    case Literal(t) => t != []
    case Run(_, min) => min >= 1
  }

  /** Length of the match of p that starts at position i of s, if one does. */
  function MatchAt(p: Pattern, s: string, i: nat): (r: Option<nat>)
    requires i <= |s|
    ensures r.Some? ==> i + r.value <= |s|
    ensures r.Some? && WellFormed(p) ==> r.value >= 1
  {
    match p
    case Literal(t) => if i + |t| <= |s| && s[i..i + |t|] == t then Some(|t|) else None
    case Run(inClass, min) =>
      var n := LeadingCount(inClass, s[i..]);
      if n >= min then Some(n) else None
  }

  /** The leftmost position at or after from where p matches: String.prototype.search. */
  function Search(p: Pattern, s: string, from: nat): (r: Option<nat>)
    requires from <= |s|
    ensures r.Some? ==> from <= r.value <= |s| && MatchAt(p, s, r.value).Some?
    ensures r.Some? ==> forall j :: from <= j < r.value ==> MatchAt(p, s, j).None?
    ensures r.None? ==> forall j :: from <= j <= |s| ==> MatchAt(p, s, j).None?
    decreases |s| - from
  {
    if MatchAt(p, s, from).Some? then Some(from)
    else if from == |s| then None
    else Search(p, s, from + 1)
  }

  /** R.test(pat, s). */
  predicate Test(p: Pattern, s: string) {
    Search(p, s, 0).Some?
  }

  /** Where the first match starts (lSplit's end) and where it ends (matchOffset, rSplit's start). */
  function FirstCut(p: Pattern, s: string): (r: (nat, nat))
    requires Test(p, s)
    ensures r.0 <= r.1 <= |s|
    ensures WellFormed(p) ==> r.0 < r.1
  {
    var i := Search(p, s, 0).value;
    (i, i + MatchAt(p, s, i).value)
  }

  /**
    splitN(pat, n, s): while a match remains and n > 0, cut off the text before
    the first match (lSplit), drop the match (rSplit) and split the rest n - 1
    more times; otherwise the whole string is the last piece (baseCase).
  */
  function SplitN(p: Pattern, n: int, s: string): (r: seq<string>)
    ensures 1 <= |r| <= (if n > 0 then n else 0) + 1
    decreases if n > 0 then n else 0
  {
    if Test(p, s) && n > 0 then
      var (i, j) := FirstCut(p, s);
      [s[..i]] + SplitN(p, n - 1, s[j..])
    else [s]
  }

  /** Number of successive matches splitting at every match would cut at. */
  function MatchCount(p: Pattern, s: string): nat
    requires WellFormed(p)
    decreases |s|
  {
    if Test(p, s) then MatchCount(p, s[FirstCut(p, s).1..]) + 1 else 0
  }

  function Min(a: int, b: int): int {
    if a <= b then a else b
  }

  /** Without a match, or with n <= 0, splitN gives the string alone. */
  lemma SplitNBase(p: Pattern, n: int, s: string)
    requires !Test(p, s) || n <= 0
    ensures SplitN(p, n, s) == [s]
  {
  }

  /**
    splitN cuts at min(n, number of matches) places: at every match when there
    are fewer than n, at exactly n otherwise.
  */
  lemma {:induction false} SplitNCount(p: Pattern, n: int, s: string)
    requires WellFormed(p)
    ensures |SplitN(p, n, s)| == 1 + Min(if n > 0 then n else 0, MatchCount(p, s))
    decreases if n > 0 then n else 0
  {
    if Test(p, s) && n > 0 {
      var j := FirstCut(p, s).1;
      SplitNCount(p, n - 1, s[j..]);
      assert |SplitN(p, n, s)| == 1 + |SplitN(p, n - 1, s[j..])|;
      assert MatchCount(p, s) == MatchCount(p, s[j..]) + 1;
    } else {
      SplitNBase(p, n, s);
    }
  }

  /** A prefix has at most the leading run of the whole. */
  lemma LeadingCountPrefix(p: char -> bool, a: string, b: string)
    requires a <= b
    ensures LeadingCount(p, a) <= LeadingCount(p, b)
  {
  }

  /** A match inside a prefix of s is a match in s. */
  lemma MatchInPrefix(p: Pattern, s: string, k: nat, j: nat)
    requires j <= k <= |s| && MatchAt(p, s[..k], j).Some?
    ensures MatchAt(p, s, j).Some?
  {
    match p
    case Literal(t) =>
      assert j + |t| <= k;
      assert s[..k][..j + |t|] == s[..j + |t|];
      assert s[..k][j..j + |t|] == s[j..j + |t|];
    case Run(inClass, min) =>
      assert s[..k][j..] <= s[j..];
      LeadingCountPrefix(inClass, s[..k][j..], s[j..]);
  }

  /** The text before the first match holds no match. */
  lemma BeforeFirstMatch(p: Pattern, s: string)
    requires WellFormed(p) && Test(p, s)
    ensures !Test(p, s[..Search(p, s, 0).value])
  {
    var i := Search(p, s, 0).value;
    var pre := s[..i];
    if Test(p, pre) {
      var j := Search(p, pre, 0).value;
      MatchInPrefix(p, s, i, j);
    }
  }

  /** Every piece but the last is text before a match, so holds no match. */
  lemma {:induction false} SplitNPieces(p: Pattern, n: int, s: string)
    requires WellFormed(p)
    ensures forall k :: 0 <= k < |SplitN(p, n, s)| - 1 ==> !Test(p, SplitN(p, n, s)[k])
    decreases if n > 0 then n else 0
  {
    if Test(p, s) && n > 0 {
      var (i, j) := FirstCut(p, s);
      var rest := s[j..];
      var r := SplitN(p, n, s);
      assert r == [s[..i]] + SplitN(p, n - 1, rest);
      BeforeFirstMatch(p, s);
      SplitNPieces(p, n - 1, rest);
      forall k | 0 <= k < |r| - 1 ensures !Test(p, r[k]) {
        if k > 0 {
          assert r[k] == SplitN(p, n - 1, rest)[k - 1];
        }
      }
    }
  }

  /** The text around a literal match is the text before it, the literal and the text after it. */
  lemma LiteralCut(t: string, s: string, i: nat)
    requires i <= |s| && MatchAt(Literal(t), s, i).Some?
    ensures i + |t| <= |s| && s == s[..i] + t + s[i + |t|..]
  {
    assert s[i..i + |t|] == t;
    assert s == s[..i] + s[i..i + |t|] + s[i + |t|..];
  }

  /** For a literal separator, joining the pieces with it gives the string back. */
  lemma {:induction false} SplitNJoin(t: string, n: int, s: string)
    ensures Join(SplitN(Literal(t), n, s), t) == s
    decreases if n > 0 then n else 0
  {
    var p := Literal(t);
    if Test(p, s) && n > 0 {
      var (i, j) := FirstCut(p, s);
      var rest := s[j..];
      SplitNJoin(t, n - 1, rest);
      LiteralCut(t, s, i);
      assert SplitN(p, n, s) == [s[..i]] + SplitN(p, n - 1, rest);
      JoinCons(s[..i], SplitN(p, n - 1, rest), t);
    }
  }

  /** String.prototype.split(pat) with no limit: splitN with more cuts allowed than there can be matches. */
  function Split(p: Pattern, s: string): seq<string> {
    SplitN(p, |s|, s)
  }

  /** Matches of a well-formed pattern do not overlap, so there are at most |s| of them. */
  lemma {:induction false} MatchCountBound(p: Pattern, s: string)
    requires WellFormed(p)
    ensures MatchCount(p, s) <= |s|
    decreases |s|
  {
    if Test(p, s) {
      MatchCountBound(p, s[FirstCut(p, s).1..]);
    }
  }

  /** split cuts at every match. */
  lemma SplitEveryMatch(p: Pattern, s: string)
    requires WellFormed(p)
    ensures |Split(p, s)| == MatchCount(p, s) + 1
  {
    SplitNCount(p, |s|, s);
    MatchCountBound(p, s);
  }

  /** A search starts at k when nothing matches before k and something does at k. */
  lemma {:induction false} SearchFinds(p: Pattern, s: string, from: nat, k: nat)
    requires from <= k <= |s| && MatchAt(p, s, k).Some?
    requires forall j :: from <= j < k ==> MatchAt(p, s, j).None?
    ensures Search(p, s, from) == Some(k)
    decreases k - from
  {
    if from < k {
      SearchFinds(p, s, from + 1, k);
    }
  }

  /** Searching for a one-character literal is finding the character. */
  lemma SearchChar(c: char, s: string)
    ensures Search(Literal([c]), s, 0) == FindChar(s, c)
  {
    var p := Literal([c]);
    forall j | 0 <= j < |s| ensures MatchAt(p, s, j).Some? <==> s[j] == c {
      assert s[j..j + 1] == [s[j]];
    }
    var f := FindChar(s, c);
    if f.Some? {
      forall j | 0 <= j < f.value ensures MatchAt(p, s, j).None? {
        assert s[..f.value][j] == s[j];
      }
      SearchFinds(p, s, 0, f.value);
    }
  }

  /** splitN on a one-character literal is Python's split(c, n). */
  lemma {:induction false} SplitNChar(c: char, n: nat, s: string)
    ensures SplitN(Literal([c]), n, s) == SplitChar(s, c, n)
    decreases n
  {
    SearchChar(c, s);
    var f := FindChar(s, c);
    if n > 0 && f.Some? {
      var i := f.value;
      assert FirstCut(Literal([c]), s) == (i, i + 1);
      SplitNChar(c, n - 1, s[i + 1..]);
      SplitCharStep(s, c, n, i);
    }
  }

  /** applyIfTruthy(f): f applied to a truthy argument, a falsy one returned as it is. */
  function ApplyIfTruthy<T>(truthy: T -> bool, f: T -> T, x: T): T {
    if truthy(x) then f(x) else x
  }

  /** The characters String.prototype.match's `.` runs over: up to the first line terminator. */
  function FirstLine(s: string): (r: string)
    ensures r <= s && forall i :: 0 <= i < |r| ==> !JsLineTerminator(r[i])
    ensures |r| < |s| ==> JsLineTerminator(s[|r|])
  {
    s[..LeadingCount(c => !JsLineTerminator(c), s)]
  }

  /**
    lTrim(chars)(s): the empty string (the only falsy string) unchanged;
    otherwise group 1 of ^[chars]*(.*), the rest of the first line after the
    longest leading run of listed characters.
  */
  function LTrim(chars: string, s: string): (r: string)
    ensures s == [] ==> r == []
    ensures s != [] ==> exists k ::
      && 0 <= k <= |s| && (forall i :: 0 <= i < k ==> s[i] in chars) && (k < |s| ==> s[k] !in chars)
      && r <= s[k..] && (forall i :: 0 <= i < |r| ==> !JsLineTerminator(r[i]))
      && (k + |r| < |s| ==> JsLineTerminator(s[k + |r|]))
  {
    ApplyIfTruthy((x: string) => x != [], (x: string) => FirstLine(x[LeadingCount(c => c in chars, x)..]), s)
  }

  /** The text of the splitN examples cut at its first space. */
  lemma ExampleCut(s: string)
    requires s == "foo bar baz"
    ensures FindChar(s, ' ') == Some(3) && s[..3] == "foo" && s[4..] == "bar baz"
  {
    assert s == "foo" + (" " + "bar baz");
    FindCharAfter("foo", " " + "bar baz", ' ');
  }

  /** The splitN examples: one split of "foo bar baz" on a space gives two pieces. */
  lemma SplitNExample(s: string)
    requires s == "foo bar baz"
    ensures SplitN(Literal(" "), 1, s) == ["foo", "bar baz"]
  {
    ExampleCut(s);
    SplitNChar(' ', 1, s);
    SplitCharStep(s, ' ', 1, 3);
  }

  /** The rest of the example text splits at its one space. */
  lemma ExampleRestSplit(rest: string, n: nat)
    requires rest == "bar baz" && n >= 1
    ensures SplitChar(rest, ' ', n) == ["bar", "baz"]
  {
    assert rest == "bar" + (" " + "baz");
    FindCharAfter("bar", " " + "baz", ' ');
    assert rest[..3] == "bar" && rest[4..] == "baz";
    SplitCharStep(rest, ' ', n, 3);
    assert ' ' !in "baz";
  }

  /** The splitN examples: 47 allowed splits of "foo bar baz" on a space give three pieces. */
  lemma SplitNFewerExample(s: string)
    requires s == "foo bar baz"
    ensures |SplitN(Literal(" "), 47, s)| == 3
  {
    ExampleCut(s);
    SplitNChar(' ', 47, s);
    SplitCharStep(s, ' ', 47, 3);
    ExampleRestSplit(s[4..], 46);
  }
}
