/**
  String helpers shared by the JavaScript and Python parts: character classes,
  trimming, splitting on a character, joining, the lexicographic order that
  JavaScript's and Python's string comparison use, and decimal text.
*/
module Text {
  import opened Wrappers

  /** JavaScript's \s and the characters String.prototype.trim removes (by code point). */
  predicate JsSpace(c: char) {
    var n := c as int;
    (9 <= n <= 13) || n == 32 || n == 0xA0 || n == 0x1680 || (0x2000 <= n <= 0x200A)
    || n == 0x2028 || n == 0x2029 || n == 0x202F || n == 0x205F || n == 0x3000 || n == 0xFEFF
  }

  /** The characters JavaScript's '.' does not match. */
  predicate JsLineTerminator(c: char) {
    var n := c as int;
    n == 10 || n == 13 || n == 0x2028 || n == 0x2029
  }

  /** Python's str.isspace(), used by str.strip() and by re's \s (by code point). */
  predicate PySpace(c: char) {
    var n := c as int;
    (9 <= n <= 13) || (0x1C <= n <= 0x20) || n == 0x85 || n == 0xA0 || n == 0x1680
    || (0x2000 <= n <= 0x200A) || n == 0x2028 || n == 0x2029 || n == 0x202F || n == 0x205F
    || n == 0x3000
  }

  /** Python 2's whitespace for byte strings: str.isspace(), str.strip() and re's \s. */
  predicate AsciiSpace(c: char) {
    var n := c as int;
    n == 32 || (9 <= n <= 13)
  }

  predicate IsDigit(c: char) {
    '0' <= c <= '9'
  }

  predicate AllDigits(s: string) {
    forall i :: 0 <= i < |s| ==> IsDigit(s[i])
  }

  /** Number of leading characters satisfying p. */
  function LeadingCount(p: char -> bool, s: string): (n: nat)
    ensures n <= |s|
    ensures forall i :: 0 <= i < n ==> p(s[i])
    ensures n < |s| ==> !p(s[n])
  {
    if s == [] || !p(s[0]) then 0 else 1 + LeadingCount(p, s[1..])
  }

  /** Number of trailing characters satisfying p. */
  function TrailingCount(p: char -> bool, s: string): (n: nat)
    ensures n <= |s|
    ensures forall i :: |s| - n <= i < |s| ==> p(s[i])
    ensures n < |s| ==> !p(s[|s| - n - 1])
  {
    if s == [] || !p(s[|s| - 1]) then 0 else 1 + TrailingCount(p, s[..|s| - 1])
  }

  /** Removes the leading and trailing characters satisfying p. */
  function StripBy(p: char -> bool, s: string): (r: string)
    ensures |r| <= |s|
    ensures r == [] || (!p(r[0]) && !p(r[|r| - 1]))
    ensures s == [] || (!p(s[0]) && !p(s[|s| - 1])) ==> r == s
  {
    var l := LeadingCount(p, s);
    var t := TrailingCount(p, s[l..]);
    s[l..|s| - t]
  }

  /** Removes the leading characters satisfying p. */
  function LStripBy(p: char -> bool, s: string): (r: string)
    ensures r == [] || !p(r[0])
    ensures exists i :: 0 <= i <= |s| && r == s[i..] && forall k :: 0 <= k < i ==> p(s[k])
  {
    s[LeadingCount(p, s)..]
  }

  /** Removes the trailing characters satisfying p. */
  function RStripBy(p: char -> bool, s: string): (r: string)
    ensures r == [] || !p(r[|r| - 1])
    ensures r <= s && forall k :: |r| <= k < |s| ==> p(s[k])
  {
    s[..|s| - TrailingCount(p, s)]
  }

  /** Two character classes that agree on every character of s strip it alike. */
  lemma {:induction false} LeadingCountAgree(p: char -> bool, q: char -> bool, s: string)
    requires forall i :: 0 <= i < |s| ==> p(s[i]) == q(s[i])
    ensures LeadingCount(p, s) == LeadingCount(q, s)
  {
    if s != [] {
      LeadingCountAgree(p, q, s[1..]);
    }
  }

  lemma {:induction false} TrailingCountAgree(p: char -> bool, q: char -> bool, s: string)
    requires forall i :: 0 <= i < |s| ==> p(s[i]) == q(s[i])
    ensures TrailingCount(p, s) == TrailingCount(q, s)
  {
    if s != [] {
      TrailingCountAgree(p, q, s[..|s| - 1]);
    }
  }

  lemma StripByAgree(p: char -> bool, q: char -> bool, s: string)
    requires forall i :: 0 <= i < |s| ==> p(s[i]) == q(s[i])
    ensures StripBy(p, s) == StripBy(q, s) && RStripBy(p, s) == RStripBy(q, s)
  {
    LeadingCountAgree(p, q, s);
    TrailingCountAgree(p, q, s);
    var l := LeadingCount(p, s);
    TrailingCountAgree(p, q, s[l..]);
  }

  /** JavaScript's String.prototype.trim (R.trim). */
  function JsTrim(s: string): string {
    StripBy(JsSpace, s)
  }

  /** Python's str.strip() with no argument. */
  function PyStrip(s: string): string {
    StripBy(PySpace, s)
  }

  /** Python's str.strip(chars). */
  function StripChars(s: string, chars: set<char>): string {
    StripBy(c => c in chars, s)
  }

  /** Python's str.rstrip() with no argument. */
  function PyRStrip(s: string): string {
    RStripBy(PySpace, s)
  }

  /** Python's str.lstrip(chars). */
  function LStripChars(s: string, chars: set<char>): string {
    LStripBy(c => c in chars, s)
  }

  /** A string made only of whitespace strips to nothing. */
  lemma StripAllSpace(s: string)
    requires forall i :: 0 <= i < |s| ==> PySpace(s[i])
    ensures PyStrip(s) == []
  {
  }

  /** Python's str.replace(c, '') for a single character. */
  function RemoveChar(s: string, c: char): (r: string)
    ensures c !in r
    ensures forall x :: x in r ==> x in s
  {
    if s == [] then [] else (if s[0] == c then [] else [s[0]]) + RemoveChar(s[1..], c)
  }

  predicate StartsWith(s: string, prefix: string) {
    |prefix| <= |s| && s[..|prefix|] == prefix
  }

  /** Index of the first occurrence of c, if any. */
  function FindChar(s: string, c: char): (r: Option<nat>)
    ensures r.None? ==> c !in s
    ensures r.Some? ==> r.value < |s| && s[r.value] == c && c !in s[..r.value]
  {
    if s == [] then None
    else if s[0] == c then Some(0)
    else match FindChar(s[1..], c)
      case None => None
      case Some(i) => assert s[1..][..i] == s[1..i + 1]; Some(i + 1)
  }

  /** Python's s.split(c, maxsplit): at most maxsplit cuts, from the left. */
  function SplitChar(s: string, c: char, maxsplit: nat): (r: seq<string>)
    decreases maxsplit
    ensures 1 <= |r| <= maxsplit + 1
    ensures forall i :: 0 <= i < |r| - 1 ==> c !in r[i]
  {
    if maxsplit == 0 then [s]
    else match FindChar(s, c)
      case None => [s]
      case Some(i) => [s[..i]] + SplitChar(s[i + 1..], c, maxsplit - 1)
  }

  /** Python's s.split(c) with no limit; len(s) + 1 bounds the number of pieces. */
  function SplitAll(s: string, c: char): seq<string> {
    SplitChar(s, c, |s|)
  }

  /** sep.join(pieces) */
  function Join(pieces: seq<string>, sep: string): string {
    if pieces == [] then []
    else if |pieces| == 1 then pieces[0]
    else pieces[0] + sep + Join(pieces[1..], sep)
  }

  /** Joining a piece in front of a non-empty list. */
  lemma JoinCons(x: string, rest: seq<string>, sep: string)
    requires rest != []
    ensures Join([x] + rest, sep) == x + sep + Join(rest, sep)
  {
    assert ([x] + rest)[1..] == rest;
  }

  /** One cut of SplitChar, at the first c. */
  lemma SplitCharStep(s: string, c: char, maxsplit: nat, i: nat)
    requires maxsplit > 0 && FindChar(s, c) == Some(i)
    ensures i < |s| && s == s[..i] + [c] + s[i + 1..]
    ensures SplitChar(s, c, maxsplit) == [s[..i]] + SplitChar(s[i + 1..], c, maxsplit - 1)
  {
  }

  /** Joining the piece before a cut with the pieces after it restores the string. */
  lemma JoinAtCut(s: string, c: char, i: nat, rest: seq<string>)
    requires i < |s| && s[i] == c && rest != [] && Join(rest, [c]) == s[i + 1..]
    ensures Join([s[..i]] + rest, [c]) == s
  {
    JoinCons(s[..i], rest, [c]);
    assert s == s[..i] + [c] + s[i + 1..];
  }

  /** The join for s follows from the join for what lies after its first c. */
  lemma JoinCut(s: string, c: char, maxsplit: nat, i: nat)
    requires maxsplit > 0 && FindChar(s, c) == Some(i)
    requires Join(SplitChar(s[i + 1..], c, maxsplit - 1), [c]) == s[i + 1..]
    ensures Join(SplitChar(s, c, maxsplit), [c]) == s
  {
    SplitCharStep(s, c, maxsplit, i);
    JoinAtCut(s, c, i, SplitChar(s[i + 1..], c, maxsplit - 1));
  }

  /** Splitting on a character and joining with it gives the string back. */
  lemma {:induction false} SplitCharJoin(s: string, c: char, maxsplit: nat)
    ensures Join(SplitChar(s, c, maxsplit), [c]) == s
    decreases maxsplit
  {
    var f := FindChar(s, c);
    if maxsplit > 0 && f.Some? {
      var i := f.value;
      SplitCharJoin(s[i + 1..], c, maxsplit - 1);
      JoinCut(s, c, maxsplit, i);
    } else {
      assert SplitChar(s, c, maxsplit) == [s];
    }
  }

  function Least(a: nat, b: nat): nat {
    if a < b then a else b
  }

  /** Number of occurrences of c, the count that decides how many pieces split gives. */
  function CountChar(s: string, c: char): (n: nat)
    ensures n <= |s|
  {
    if s == [] then 0 else (if s[0] == c then 1 else 0) + CountChar(s[1..], c)
  }

  lemma {:induction false} CountCharAppend(a: string, b: string, c: char)
    ensures CountChar(a + b, c) == CountChar(a, c) + CountChar(b, c)
  {
    if a == [] {
      assert a + b == b;
    } else {
      assert (a + b)[1..] == a[1..] + b;
      CountCharAppend(a[1..], b, c);
    }
  }

  /** s.split(c, maxsplit) has one piece more than the cuts it can make. */
  lemma {:induction false} SplitCharCount(s: string, c: char, maxsplit: nat)
    ensures |SplitChar(s, c, maxsplit)| == Least(CountChar(s, c), maxsplit) + 1
    decreases maxsplit
  {
    var f := FindChar(s, c);
    if maxsplit > 0 && f.Some? {
      var i := f.value;
      SplitCharCount(s[i + 1..], c, maxsplit - 1);
      CountCut(s, c, maxsplit, i);
    } else {
      assert SplitChar(s, c, maxsplit) == [s];
      if f.None? {
        CountCharZero(s, c);
      }
    }
  }

  /** No occurrence is counted exactly when there is none. */
  lemma {:induction false} CountCharZero(s: string, c: char)
    ensures CountChar(s, c) == 0 <==> c !in s
  {
    if s != [] {
      CountCharZero(s[1..], c);
      assert s == [s[0]] + s[1..];
    }
  }

  /** The count for s follows from the count for what lies after its first c. */
  lemma CountCut(s: string, c: char, maxsplit: nat, i: nat)
    requires maxsplit > 0 && FindChar(s, c) == Some(i)
    requires |SplitChar(s[i + 1..], c, maxsplit - 1)| == Least(CountChar(s[i + 1..], c), maxsplit - 1) + 1
    ensures |SplitChar(s, c, maxsplit)| == Least(CountChar(s, c), maxsplit) + 1
  {
    SplitCharStep(s, c, maxsplit, i);
    CountAtCut(s, c, i);
  }

  /** The occurrences of c are the one at the first cut and those after it. */
  lemma CountAtCut(s: string, c: char, i: nat)
    requires i < |s| && s[i] == c && c !in s[..i]
    ensures CountChar(s, c) == 1 + CountChar(s[i + 1..], c)
  {
    assert s == s[..i] + ([c] + s[i + 1..]);
    CountCharAppend(s[..i], [c] + s[i + 1..], c);
    CountCharZero(s[..i], c);
    assert ([c] + s[i + 1..])[1..] == s[i + 1..];
  }

  /** Cutting at a c that nothing before it matches. */
  lemma SplitAtFirst(a: string, b: string, c: char, maxsplit: nat)
    requires c !in a && maxsplit > 0
    ensures SplitChar(a + [c] + b, c, maxsplit) == [a] + SplitChar(b, c, maxsplit - 1)
  {
    var s := a + [c] + b;
    FindCharAfter(a, [c] + b, c);
    assert s == a + ([c] + b);
    assert s[..|a|] == a && s[|a| + 1..] == b;
  }

  /** With no c there is nothing to cut. */
  lemma SplitNone(s: string, c: char, maxsplit: nat)
    requires c !in s
    ensures SplitChar(s, c, maxsplit) == [s]
  {
  }

  /** Plain spaces are whitespace to str.strip(). */
  lemma BlanksAreSpace(s: string)
    requires forall i :: 0 <= i < |s| ==> s[i] == ' '
    ensures forall i :: 0 <= i < |s| ==> PySpace(s[i])
  {
    assert PySpace(' ');
  }

  /** A stripped, non-empty text keeps its ends: stripping what surrounds it with whitespace gives it back. */
  lemma {:induction false} StripPadded(p: char -> bool, pre: string, a: string, post: string)
    requires forall i :: 0 <= i < |pre| ==> p(pre[i])
    requires forall i :: 0 <= i < |post| ==> p(post[i])
    requires a != [] && !p(a[0]) && !p(a[|a| - 1])
    ensures StripBy(p, pre + a + post) == a
  {
    var s := pre + a + post;
    LeadingPrefix(p, pre, a + post);
    assert s == pre + (a + post);
    var l := LeadingCount(p, s);
    assert l == |pre|;
    assert s[l..] == a + post;
    TrailingSuffix(p, a, post);
    assert s[l..|s| - |post|] == (a + post)[..|a|];
  }

  lemma {:induction false} LeadingPrefix(p: char -> bool, pre: string, rest: string)
    requires forall i :: 0 <= i < |pre| ==> p(pre[i])
    requires rest != [] && !p(rest[0])
    ensures LeadingCount(p, pre + rest) == |pre|
  {
    if pre != [] {
      assert (pre + rest)[1..] == pre[1..] + rest;
      LeadingPrefix(p, pre[1..], rest);
    }
  }

  lemma {:induction false} TrailingSuffix(p: char -> bool, a: string, post: string)
    requires forall i :: 0 <= i < |post| ==> p(post[i])
    requires a != [] && !p(a[|a| - 1])
    ensures TrailingCount(p, a + post) == |post|
  {
    if post != [] {
      var s := a + post;
      assert s[..|s| - 1] == a + post[..|post| - 1];
      TrailingSuffix(p, a, post[..|post| - 1]);
    }
  }

  /** The strict lexicographic order of JavaScript's and Python's string comparison. */
  predicate LexLess(a: string, b: string) {
    if a == [] then b != []
    else if b == [] then false
    else a[0] < b[0] || (a[0] == b[0] && LexLess(a[1..], b[1..]))
  }

  lemma {:induction false} LexLessIrreflexive(a: string)
    ensures !LexLess(a, a)
  {
    if a != [] {
      LexLessIrreflexive(a[1..]);
    }
  }

  lemma {:induction false} LexLessTransitive(a: string, b: string, c: string)
    requires LexLess(a, b) && LexLess(b, c)
    ensures LexLess(a, c)
  {
    if a != [] && b != [] && c != [] && a[0] == b[0] && b[0] == c[0] {
      LexLessTransitive(a[1..], b[1..], c[1..]);
    }
  }

  lemma {:induction false} LexLessTotal(a: string, b: string)
    ensures a == b || LexLess(a, b) || LexLess(b, a)
  {
    if a != [] && b != [] && a[0] == b[0] {
      LexLessTotal(a[1..], b[1..]);
      if a[1..] == b[1..] {
        assert a == [a[0]] + a[1..] && b == [b[0]] + b[1..];
      }
    }
  }

  lemma {:induction false} LexLessAsymmetric(a: string, b: string)
    requires LexLess(a, b)
    ensures !LexLess(b, a)
  {
    if a != [] && b != [] && a[0] == b[0] {
      LexLessAsymmetric(a[1..], b[1..]);
    }
  }

  /** A finite non-empty set of strings has a least element. */
  lemma {:induction false} LeastExists(s: set<string>)
    requires s != {}
    ensures exists m :: m in s && forall y :: y in s ==> !LexLess(y, m)
    decreases |s|
  {
    var x :| x in s;
    var rest := s - {x};
    if rest == {} {
      assert s == {x};
      LexLessIrreflexive(x);
    } else {
      LeastExists(rest);
      var m :| m in rest && forall y :: y in rest ==> !LexLess(y, m);
      if LexLess(x, m) {
        forall y | y in s
          ensures !LexLess(y, x)
        {
          if y == x {
            LexLessIrreflexive(x);
          } else if LexLess(y, x) {
            LexLessTransitive(y, x, m);
          }
        }
      } else {
        assert forall y :: y in s ==> !LexLess(y, m);
      }
    }
  }

  /** The least string of a non-empty set. */
  function LeastOf(s: set<string>): (m: string)
    requires s != {}
    ensures m in s
    ensures forall y :: y in s && y != m ==> LexLess(m, y)
  {
    LeastExists(s);
    LexLessTotalAll();
    var m :| m in s && forall y :: y in s ==> !LexLess(y, m);
    m
  }

  /** Python's sorted() of a set of strings: strictly increasing, exactly the set. */
  function SortedSet(s: set<string>): (r: seq<string>)
    ensures |r| == |s|
    ensures forall x :: x in r <==> x in s
    ensures forall i, j :: 0 <= i < j < |r| ==> LexLess(r[i], r[j])
    decreases |s|
  {
    if s == {} then []
    else
      var m := LeastOf(s);
      var rest := SortedSet(s - {m});
      assert forall y :: y in rest ==> LexLess(m, y);
      [m] + rest
  }

  lemma LexLessTotalAll()
    ensures forall a, b :: a == b || LexLess(a, b) || LexLess(b, a)
  {
    forall a, b
      ensures a == b || LexLess(a, b) || LexLess(b, a)
    {
      LexLessTotal(a, b);
    }
  }

  /** The value of a string of decimal digits. */
  function DigitsValue(ds: string): nat
    requires AllDigits(ds)
  {
    if ds == [] then 0 else DigitsValue(ds[..|ds| - 1]) * 10 + (ds[|ds| - 1] as int - '0' as int)
  }

  function Pow10(n: nat): (r: nat)
    ensures r >= 1
  {
    if n == 0 then 1 else 10 * Pow10(n - 1)
  }

  /** Value of the unsigned text `whole[.frac]`. */
  function UnsignedValue(whole: string, frac: string): real
    requires AllDigits(whole) && AllDigits(frac)
  {
    DigitsValue(whole) as real + DigitsValue(frac) as real / Pow10(|frac|) as real
  }

  /** Unsigned decimal text: digits with an optional fractional part, one digit at least. */
  function ParseUnsigned(body: string): Option<real> {
    var dot := FindChar(body, '.');
    var whole := if dot.Some? then body[..dot.value] else body;
    var frac := if dot.Some? then body[dot.value + 1..] else "";
    if AllDigits(whole) && AllDigits(frac) && |whole| + |frac| > 0
    then Some(UnsignedValue(whole, frac))
    else None
  }

  /**
    Decimal text as the source's Decimal constructors read it, restricted to an
    optional sign followed by unsigned decimal text.  None stands for the
    constructor's error.
  */
  function ParseDecimal(s: string): (r: Option<real>)
    ensures r.Some? ==> s != []
  {
    if |s| > 0 && (s[0] == '-' || s[0] == '+') then
      Negate(ParseUnsigned(s[1..]), s[0] == '-')
    else ParseUnsigned(s)
  }

  function Negate(v: Option<real>, negative: bool): Option<real> {
    if v.Some? && negative then Some(-v.value) else v
  }

  /** Text of a decimal with a plain integer part and fractional digits. */
  function DecimalText(negative: bool, whole: string, frac: string): string {
    (if negative then "-" else "") + UnsignedText(whole, frac)
  }

  function UnsignedText(whole: string, frac: string): string {
    whole + (if frac == [] then "" else "." + frac)
  }

  lemma ParseUnsignedText(whole: string, frac: string)
    requires AllDigits(whole) && AllDigits(frac) && whole != []
    ensures ParseUnsigned(UnsignedText(whole, frac)) == Some(UnsignedValue(whole, frac))
  {
    var body := UnsignedText(whole, frac);
    if frac == [] {
      assert body == whole;
      assert FindChar(body, '.').None?;
      assert DigitsValue("") as real / Pow10(0) as real == 0.0;
    } else {
      assert '.' !in whole;
      FindCharAfter(whole, "." + frac, '.');
      assert body[..|whole|] == whole && body[|whole| + 1..] == frac;
    }
  }

  /** Rendering a decimal and reading it back gives its value. */
  lemma ParseDecimalText(negative: bool, whole: string, frac: string)
    requires AllDigits(whole) && AllDigits(frac) && whole != []
    ensures ParseDecimal(DecimalText(negative, whole, frac)) == Some(SignedValue(negative, whole, frac))
  {
    var body := UnsignedText(whole, frac);
    var v := UnsignedValue(whole, frac);
    var t := DecimalText(negative, whole, frac);
    assert ParseUnsigned(body) == Some(v) by { ParseUnsignedText(whole, frac); }
    assert ParseDecimal(t) == Negate(ParseUnsigned(body), negative) by {
      assert t == (if negative then "-" else "") + body;
      assert body[0] == whole[0] && IsDigit(whole[0]);
      ParseSigned(negative, body);
    }
    NegateSome(v, negative);
    assert SignedValue(negative, whole, frac) == if negative then -v else v;
    assert ParseDecimal(t) == Some(SignedValue(negative, whole, frac));
  }

  /** Value of the text written by DecimalText. */
  function SignedValue(negative: bool, whole: string, frac: string): real
    requires AllDigits(whole) && AllDigits(frac)
  {
    if negative then -UnsignedValue(whole, frac) else UnsignedValue(whole, frac)
  }

  lemma NegateSome(v: real, negative: bool)
    ensures Negate(Some(v), negative) == Some(if negative then -v else v)
  {
  }

  /** A leading '-' negates what the unsigned text reads as; no sign leaves it. */
  lemma ParseSigned(negative: bool, body: string)
    requires body != [] && IsDigit(body[0])
    ensures ParseDecimal((if negative then "-" else "") + body) == Negate(ParseUnsigned(body), negative)
  {
    if negative {
      assert ("-" + body)[1..] == body;
    } else {
      assert "" + body == body;
    }
  }

  /** The first c in a + b is at |a| when a holds no c and b starts with c. */
  lemma FindCharAfter(a: string, b: string, c: char)
    requires c !in a && b != [] && b[0] == c
    ensures FindChar(a + b, c) == Some(|a|)
  {
    if a != [] {
      assert (a + b)[1..] == a[1..] + b;
      FindCharAfter(a[1..], b, c);
    }
  }

  /** Decimal text of a natural number. */
  function NatText(n: nat): (r: string)
    ensures r != [] && AllDigits(r)
  {
    if n < 10 then [('0' as int + n) as char] else NatText(n / 10) + [('0' as int + n % 10) as char]
  }

  /** Decimal text of n, left-padded with zeros to at least width digits. */
  function PadNat(n: nat, width: nat): (r: string)
    ensures |r| >= width && AllDigits(r)
  {
    var t := NatText(n);
    if |t| >= width then t else seq(width - |t|, _ => '0') + t
  }
}
