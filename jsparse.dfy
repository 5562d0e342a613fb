/**
  The ledger text parser of the older JavaScript front end.  A ledger file is
  cut at its first four blank lines; the fifth piece holds the transactions,
  one per chunk between runs of blank lines.  A transaction's first line holds
  its date token and description, every further line one posting: indentation,
  the account, a run of at least two whitespace characters, and the amount
  text in one of three forms (unit price, postfix commodity, prefix commodity).

  What the source does by throwing (a missing field read through R.nth and
  passed on, text Decimal.js refuses) is a Failure here.
*/
module JsParse {
  import opened Wrappers
  import opened Text
  import opened JsUtil

  datatype ParseError = TypeError | DecimalError(text: string)

  type Parsed<T> = Result<T, ParseError>

  const Space: Pattern := Literal(" ")
  const Newline: Pattern := Literal("\n")
  /** /\s{2,}/: the indentation before an account and the gap after it. */
  const Gap: Pattern := Run(JsSpace, 2)
  /** /\n{2}/ */
  const SectionBreak: Pattern := Literal("\n\n")
  /** /\n{2,}/ */
  const ChunkBreak: Pattern := Run(c => c == '\n', 2)

  /** R.split('\n') */
  function Lines(s: string): (r: seq<string>)
    ensures |r| >= 1
  {
    Split(Newline, s)
  }

  /** R.nth(i) on an array: undefined past the end. */
  function Nth(xs: seq<string>, i: nat): Option<string> {
    if i < |xs| then Some(xs[i]) else None
  }

  /** R.constructN(1, Decimal) */
  function DecimalOf(t: string): Parsed<real> {
    match ParseDecimal(t)
    case Some(v) => Success(v)
    case None => Failure(DecimalError(t))
  }

  /** Lists every element's result, or stops at the first failure: R.map over a throwing function. */
  function MapResult<T, U>(f: T -> Parsed<U>, xs: seq<T>): (r: Parsed<seq<U>>)
    ensures r.Success? <==> forall i :: 0 <= i < |xs| ==> f(xs[i]).Success?
    ensures r.Success? ==> |r.value| == |xs| && forall i :: 0 <= i < |xs| ==> r.value[i] == f(xs[i]).value
    ensures r.Failure? ==> exists i :: 0 <= i < |xs| && f(xs[i]).Failure? && r.error == f(xs[i]).error
                                      && forall j :: 0 <= j < i ==> f(xs[j]).Success?
  {
    if xs == [] then Success([])
    else match f(xs[0])
      case Failure(e) => Failure(e)
      case Success(y) =>
        match MapResult(f, xs[1..])
        case Failure(e) =>
          ghost var k :| 0 <= k < |xs[1..]| && f(xs[1..][k]).Failure? && e == f(xs[1..][k]).error
                         && forall j :: 0 <= j < k ==> f(xs[1..][j]).Success?;
          assert f(xs[k + 1]).Failure? && forall j :: 0 <= j < k + 1 ==> f(xs[j]).Success? by {
            forall j | 0 <= j < k + 1 ensures f(xs[j]).Success? {
              if j > 0 {
                assert xs[j] == xs[1..][j - 1];
              }
            }
          }
          Failure(e)
        case Success(ys) =>
          assert forall i :: 1 <= i < |xs| ==> xs[i] == xs[1..][i - 1];
          Success([y] + ys)
  }

  // ---- amounts ---------------------------------------------------------------

  datatype PrefixAmount = PrefixAmount(commodity: string, quantity: real)

  datatype ParsedAmount =
    | WithUnitPrice(quantity: real, commodity: Option<string>, unitPrice: PrefixAmount)
    | Postfix(quantity: real, commodity: Option<string>)
    | Prefix(amount: PrefixAmount)

  /** prefixCommodity: the first character is the commodity, the rest the quantity. */
  function PrefixCommodity(t: string): (r: Parsed<PrefixAmount>)
    ensures r.Success? ==> t != [] && r.value.commodity == [t[0]] && Some(r.value.quantity) == ParseDecimal(t[1..])
  {
    var q :- DecimalOf(if t == [] then "" else t[1..]);
    Success(PrefixAmount(if t == [] then "" else t[..1], q))
  }

  /** /^-?\d/ */
  predicate NumericStart(t: string) {
    (|t| >= 1 && IsDigit(t[0])) || (|t| >= 2 && t[0] == '-' && IsDigit(t[1]))
  }

  /** /^-?\d.*@/: a numeric start and an '@' later on the same line. */
  predicate UnitPriceForm(t: string) {
    NumericStart(t) && '@' in FirstLine(t[if t[0] == '-' then 2 else 1..])
  }

  /** withUnitPrice: quantity, commodity and, from the fourth word, the unit price. */
  function WithUnitPriceOf(t: string): Parsed<ParsedAmount> {
    var words := Split(Space, t);
    var q :- DecimalOf(words[0]);
    var up :- if |words| > 3 then PrefixCommodity(words[3]) else Failure(TypeError);
    Success(WithUnitPrice(q, Nth(words, 1), up))
  }

  /** postfixCommodity: quantity, then commodity. */
  function PostfixOf(t: string): Parsed<ParsedAmount> {
    var words := Split(Space, t);
    var q :- DecimalOf(words[0]);
    Success(Postfix(q, Nth(words, 1)))
  }

  /** amount: the first form whose test the text passes; no text gives undefined. */
  function AmountOf(text: Option<string>): (r: Parsed<Option<ParsedAmount>>)
    ensures (text == None || text == Some("")) ==> r == Success(None)
    ensures r.Success? && r.value.Some? ==> text.Some? && text.value != []
  {
    match text
    case None => Success(None)
    case Some(t) =>
      if UnitPriceForm(t) then
        var a :- WithUnitPriceOf(t);
        Success(Some(a))
      else if NumericStart(t) then
        var a :- PostfixOf(t);
        Success(Some(a))
      else if |t| > 0 then
        var a :- PrefixCommodity(t);
        Success(Some(Prefix(a)))
      else Success(None)
  }

  // ---- postings, transactions, the ledger --------------------------------------

  datatype JsPosting = JsPosting(account: string, amount: Option<ParsedAmount>)

  /** posting: split at most twice on /\s{2,}/; the second piece is the account, the third the amount. */
  function PostingOf(line: string): Parsed<JsPosting> {
    PostingOfPieces(SplitN(Gap, 2, line))
  }

  /** The posting built from the pieces of a line. */
  function PostingOfPieces(pieces: seq<string>): Parsed<JsPosting> {
    var account :- if |pieces| >= 2 then Success(JsTrim(pieces[1])) else Failure(TypeError);
    var amount :- AmountOf(Nth(pieces, 2));
    Success(JsPosting(account, amount))
  }

  datatype JsTransaction = JsTransaction(desc: string, date: string, postings: seq<JsPosting>)

  /** transaction: on the trimmed chunk, the date and description from the first line, one posting per further line. */
  function TransactionOf(chunk: string): Parsed<JsTransaction> {
    var t := JsTrim(chunk);
    var lines := Lines(t);
    var header := SplitN(Space, 1, lines[0]);
    var postings :- MapResult(PostingOf, lines[1..]);
    Success(JsTransaction(header[|header| - 1], header[0], postings))
  }

  /** ledger: the transactions of the fifth piece of a split at the first four blank lines. */
  function LedgerOf(s: string): Parsed<seq<JsTransaction>> {
    var pieces := SplitN(SectionBreak, 4, s);
    if |pieces| < 5 then Failure(TypeError)
    else MapResult(TransactionOf, Split(ChunkBreak, pieces[4]))
  }

  // ---- splitting on one character ----------------------------------------------

  /** Splitting on a literal one-character string is splitting on that character. */
  lemma SplitOneChar(c: char, s: string)
    ensures Split(Literal([c]), s) == SplitChar(s, c, |s|)
  {
    SplitNChar(c, |s|, s);
  }

  /** The first piece of a split on c is the text before the first c. */
  lemma SplitCharCons(a: string, c: char, b: string, n: nat)
    requires c !in a && n >= 1
    ensures SplitChar(a + [c] + b, c, n) == [a] + SplitChar(b, c, n - 1)
  {
    var s := a + [c] + b;
    FindCharAfter(a, [c] + b, c);
    assert s == a + ([c] + b);
    SplitCharStep(s, c, n, |a|);
    assert s[..|a|] == a && s[|a| + 1..] == b;
  }

  /** Text without c is a single piece. */
  lemma SplitCharNone(s: string, c: char, n: nat)
    requires c !in s
    ensures SplitChar(s, c, n) == [s]
  {
  }

  // ---- amounts round-trip ---------------------------------------------------------

  /** Decimal text holds only a sign, digits and a point. */
  lemma DecimalTextChars(negative: bool, whole: string, frac: string)
    requires AllDigits(whole) && AllDigits(frac) && whole != []
    ensures forall i :: 0 <= i < |DecimalText(negative, whole, frac)| ==>
      var x := DecimalText(negative, whole, frac)[i]; x == '-' || x == '.' || IsDigit(x)
    ensures NumericStart(DecimalText(negative, whole, frac))
  {
    var u := UnsignedText(whole, frac);
    assert forall i :: 0 <= i < |u| ==> u[i] == '.' || IsDigit(u[i]) by {
      forall i | 0 <= i < |u| ensures u[i] == '.' || IsDigit(u[i]) {
        if i >= |whole| && frac != [] {
          assert u[i] == ("." + frac)[i - |whole|];
        }
      }
    }
    assert u[0] == whole[0];
    if negative {
      assert DecimalText(negative, whole, frac) == "-" + u;
    } else {
      assert DecimalText(negative, whole, frac) == u;
    }
  }

  /** An '@' reached before any line terminator is on the first line. */
  lemma AtOnFirstLine(y: string, z: string)
    requires forall i :: 0 <= i < |y| ==> !JsLineTerminator(y[i])
    ensures '@' in FirstLine(y + "@" + z)
  {
    var x := y + "@" + z;
    assert x[|y|] == '@';
  }

  /** Joining two or more words puts the first word and a space before the join of the rest. */
  lemma JoinWordsCons(ws: seq<string>)
    requires |ws| >= 2
    ensures Join(ws, " ") == ws[0] + [' '] + Join(ws[1..], " ")
  {
    JoinCons(ws[0], ws[1..], " ");
    assert ws == [ws[0]] + ws[1..];
  }

  /** The split of joined words, one word at a time. */
  lemma SplitJoinedStep(ws: seq<string>, n: nat)
    requires |ws| >= 2 && n >= 1 && ' ' !in ws[0]
    requires SplitChar(Join(ws[1..], " "), ' ', n - 1) == ws[1..]
    ensures SplitChar(Join(ws, " "), ' ', n) == ws
  {
    JoinWordsCons(ws);
    SplitCharCons(ws[0], ' ', Join(ws[1..], " "), n);
    assert ws == [ws[0]] + ws[1..];
  }

  /** Space-free words joined by single spaces split back into those words. */
  lemma {:induction false} SplitJoinedWords(ws: seq<string>, n: nat)
    requires ws != [] && n >= |ws| - 1
    requires forall i :: 0 <= i < |ws| ==> ' ' !in ws[i]
    ensures SplitChar(Join(ws, " "), ' ', n) == ws
  {
    if |ws| == 1 {
      SplitCharNone(ws[0], ' ', n);
    } else {
      var tail := ws[1..];
      assert forall i :: 0 <= i < |tail| ==> ' ' !in tail[i] by {
        forall i | 0 <= i < |tail| ensures ' ' !in tail[i] { assert tail[i] == ws[i + 1]; }
      }
      SplitJoinedWords(tail, n - 1);
      SplitJoinedStep(ws, n);
    }
  }

  /** The words of text in which single spaces separate space-free words. */
  lemma Words1(a: string)
    requires ' ' !in a
    ensures Split(Space, a) == [a]
  {
    SplitOneChar(' ', a);
    SplitCharNone(a, ' ', |a|);
  }

  lemma Words2(a: string, b: string)
    requires ' ' !in a && ' ' !in b
    ensures Split(Space, a + " " + b) == [a, b]
  {
    var t := a + " " + b;
    assert Join([a, b], " ") == t;
    SplitJoinedWords([a, b], |t|);
    SplitOneChar(' ', t);
  }

  lemma Words4(a: string, b: string, c: string, d: string)
    requires ' ' !in a && ' ' !in b && ' ' !in c && ' ' !in d
    ensures Split(Space, a + " " + b + " " + c + " " + d) == [a, b, c, d]
  {
    var t := a + " " + b + " " + c + " " + d;
    var ws := [a, b, c, d];
    assert Join(ws, " ") == t by {
      assert ws[1..][1..][1..] == [d];
      assert Join(ws[1..][1..], " ") == c + " " + d;
      assert Join(ws[1..], " ") == b + " " + c + " " + d;
    }
    SplitJoinedWords(ws, |t|);
    SplitOneChar(' ', t);
  }

  /** The pieces PostfixOf and WithUnitPriceOf read, once the words are known. */
  lemma PostfixOfWords(t: string, q: string, commodity: Option<string>, v: real)
    requires Split(Space, t) == [q] + (if commodity.Some? then [commodity.value] else [])
    requires ParseDecimal(q) == Some(v)
    ensures PostfixOf(t) == Success(Postfix(v, commodity))
  {
  }

  lemma WithUnitPriceOfWords(t: string, q: string, commodity: string, price: string, v: real, pv: real)
    requires Split(Space, t) == [q, commodity, "@", price]
    requires ParseDecimal(q) == Some(v) && price != [] && ParseDecimal(price[1..]) == Some(pv)
    ensures WithUnitPriceOf(t) == Success(WithUnitPrice(v, Some(commodity), PrefixAmount([price[0]], pv)))
  {
    assert price[..1] == [price[0]];
  }

  /** The words of the postfix form. */
  lemma PostfixWords(q: string, commodity: Option<string>)
    requires ' ' !in q && (commodity.Some? ==> ' ' !in commodity.value)
    ensures Split(Space, q + (if commodity.Some? then " " + commodity.value else ""))
            == [q] + (if commodity.Some? then [commodity.value] else [])
  {
    if commodity.Some? {
      assert q + " " + commodity.value == q + (" " + commodity.value);
      Words2(q, commodity.value);
    } else {
      assert q + "" == q;
      Words1(q);
    }
  }

  /** Text starting with a quantity and holding no '@' takes the postfix form. */
  lemma PostfixForm(q: string, t: string)
    requires NumericStart(q) && q <= t && '@' !in t
    ensures NumericStart(t) && !UnitPriceForm(t)
  {
    assert t[0] == q[0] && (t[0] == '-' ==> t[1] == q[1]);
  }

  /**
    The postfix form: a quantity, optionally followed by a space and a
    commodity without spaces or '@', reads back as that quantity and commodity.
  */
  lemma PostfixRoundTrip(negative: bool, whole: string, frac: string, commodity: Option<string>)
    requires AllDigits(whole) && AllDigits(frac) && whole != []
    requires commodity.Some? ==> ' ' !in commodity.value && '@' !in commodity.value
    ensures AmountOf(Some(DecimalText(negative, whole, frac) + (if commodity.Some? then " " + commodity.value else "")))
            == Success(Some(Postfix(SignedValue(negative, whole, frac), commodity)))
  {
    var q := DecimalText(negative, whole, frac);
    var t := q + (if commodity.Some? then " " + commodity.value else "");
    DecimalTextChars(negative, whole, frac);
    assert ' ' !in q && '@' !in q;
    ParseDecimalText(negative, whole, frac);
    PostfixWords(q, commodity);
    PostfixOfWords(t, q, commodity, SignedValue(negative, whole, frac));
    PostfixForm(q, t);
  }

  /** The words of the unit-price form. */
  lemma UnitPriceWords(q: string, commodity: string, price: string)
    requires ' ' !in q && ' ' !in commodity && ' ' !in price
    ensures Split(Space, q + " " + commodity + " @ " + price) == [q, commodity, "@", price]
  {
    assert q + " " + commodity + " @ " + price == q + " " + commodity + " " + "@" + " " + price;
    Words4(q, commodity, "@", price);
  }

  /** Text with a leading quantity passes the /^-?\d.*@/ test once an '@' follows on the same line. */
  lemma UnitPriceFormOf(q: string, commodity: string, price: string)
    requires NumericStart(q) && forall i :: 0 <= i < |q| ==> !JsLineTerminator(q[i])
    requires forall i :: 0 <= i < |commodity| ==> !JsLineTerminator(commodity[i])
    ensures UnitPriceForm(q + " " + commodity + " @ " + price)
  {
    var t := q + " " + commodity + " @ " + price;
    var k := if q[0] == '-' then 2 else 1;
    var y := q[k..] + " " + commodity + " ";
    assert forall i :: 0 <= i < |y| ==> !JsLineTerminator(y[i]) by {
      forall i | 0 <= i < |y| ensures !JsLineTerminator(y[i]) {
        if i < |q| - k {
          assert y[i] == q[k + i];
        } else if |q| - k < i < |y| - 1 {
          assert y[i] == commodity[i - (|q| - k + 1)];
        }
      }
    }
    assert t[k..] == y + "@" + (" " + price);
    AtOnFirstLine(y, " " + price);
  }

  /**
    The unit-price form: quantity, commodity, '@' and a prefix-commodity unit
    price, separated by single spaces, reads back as those three parts.
  */
  lemma WithUnitPriceRoundTrip(negative: bool, whole: string, frac: string, commodity: string,
                               priceCommodity: char, priceNegative: bool, priceWhole: string, priceFrac: string)
    requires AllDigits(whole) && AllDigits(frac) && whole != []
    requires AllDigits(priceWhole) && AllDigits(priceFrac) && priceWhole != []
    requires ' ' !in commodity && forall i :: 0 <= i < |commodity| ==> !JsLineTerminator(commodity[i])
    requires priceCommodity != ' '
    ensures AmountOf(Some(DecimalText(negative, whole, frac) + " " + commodity + " @ "
                          + ([priceCommodity] + DecimalText(priceNegative, priceWhole, priceFrac))))
            == Success(Some(WithUnitPrice(SignedValue(negative, whole, frac), Some(commodity),
                                          PrefixAmount([priceCommodity], SignedValue(priceNegative, priceWhole, priceFrac)))))
  {
    var q := DecimalText(negative, whole, frac);
    var pq := DecimalText(priceNegative, priceWhole, priceFrac);
    var price := [priceCommodity] + pq;
    var t := q + " " + commodity + " @ " + price;
    DecimalTextChars(negative, whole, frac);
    DecimalTextChars(priceNegative, priceWhole, priceFrac);
    ParseDecimalText(negative, whole, frac);
    ParseDecimalText(priceNegative, priceWhole, priceFrac);
    assert ' ' !in price by {
      assert forall i :: 1 <= i < |price| ==> price[i] == pq[i - 1];
    }
    UnitPriceWords(q, commodity, price);
    assert price[1..] == pq;
    WithUnitPriceOfWords(t, q, commodity, price, SignedValue(negative, whole, frac), SignedValue(priceNegative, priceWhole, priceFrac));
    UnitPriceFormOf(q, commodity, price);
  }

  /** The prefix form: one non-numeric character, then the quantity. */
  lemma PrefixRoundTrip(commodity: char, negative: bool, whole: string, frac: string)
    requires AllDigits(whole) && AllDigits(frac) && whole != []
    requires !IsDigit(commodity) && commodity != '-'
    ensures AmountOf(Some([commodity] + DecimalText(negative, whole, frac)))
            == Success(Some(Prefix(PrefixAmount([commodity], SignedValue(negative, whole, frac)))))
  {
    var t := [commodity] + DecimalText(negative, whole, frac);
    ParseDecimalText(negative, whole, frac);
    assert t[1..] == DecimalText(negative, whole, frac) && t[..1] == [commodity];
    assert !NumericStart(t);
  }

  // ---- postings round-trip ---------------------------------------------------------

  /** A run of at least two whitespace characters: an indentation or the gap before an amount. */
  predicate Whites(g: string) {
    |g| >= 2 && forall i :: 0 <= i < |g| ==> JsSpace(g[i])
  }

  /** An account name as ledger writes it: no surrounding whitespace and no two whitespace characters in a row. */
  predicate AccountText(a: string) {
    a != [] && !JsSpace(a[0])
    && forall i :: 0 <= i < |a| && JsSpace(a[i]) ==> i + 1 < |a| && !JsSpace(a[i + 1])
  }

  /** The leading run is exactly k long when the first k characters satisfy p and the next one does not. */
  lemma LeadingCountExact(p: char -> bool, s: string, k: nat)
    requires k <= |s| && (forall i :: 0 <= i < k ==> p(s[i])) && (k < |s| ==> !p(s[k]))
    ensures LeadingCount(p, s) == k
  {
  }

  /** Inside an account name no two whitespace characters start. */
  lemma AccountHasNoGap(a: string, rest: string)
    requires AccountText(a)
    ensures forall j :: 0 <= j < |a| ==> MatchAt(Gap, a + rest, j).None?
  {
    var s := a + rest;
    forall j | 0 <= j < |a| ensures MatchAt(Gap, s, j).None? {
      if JsSpace(a[j]) {
        assert s[j..][0] == a[j] && s[j..][1] == a[j + 1];
        LeadingCountExact(JsSpace, s[j..], 1);
      } else {
        assert s[j..][0] == a[j];
        LeadingCountExact(JsSpace, s[j..], 0);
      }
    }
  }

  /** Where whitespace follows text holding no gap, splitN cuts there and drops the whitespace. */
  lemma GapCut(x: string, g: string, y: string, n: int)
    requires Whites(g) && (y == [] || !JsSpace(y[0])) && n >= 1
    requires forall j :: 0 <= j < |x| ==> MatchAt(Gap, x + g + y, j).None?
    ensures SplitN(Gap, n, x + g + y) == [x] + SplitN(Gap, n - 1, y)
  {
    var s := x + g + y;
    assert s[|x|..] == g + y;
    LeadingCountExact(JsSpace, g + y, |g|);
    assert MatchAt(Gap, s, |x|) == Some(|g|);
    SearchFinds(Gap, s, 0, |x|);
    assert FirstCut(Gap, s) == (|x|, |x| + |g|);
    assert s[..|x|] == x && s[|x| + |g|..] == y;
  }

  /** After the indentation: the account, then the amount text. */
  lemma AccountPieces(account: string, gap: string, amount: string)
    requires AccountText(account) && Whites(gap) && (amount == [] || !JsSpace(amount[0]))
    ensures account + gap + amount != [] && !JsSpace((account + gap + amount)[0])
    ensures SplitN(Gap, 1, account + gap + amount) == [account, amount]
  {
    AccountHasNoGap(account, gap + amount);
    assert account + (gap + amount) == account + gap + amount;
    GapCut(account, gap, amount, 1);
    SplitNBase(Gap, 0, amount);
  }

  /** Leading whitespace is cut off as an empty first piece. */
  lemma IndentCut(g: string, y: string, n: int)
    requires Whites(g) && (y == [] || !JsSpace(y[0])) && n >= 1
    ensures SplitN(Gap, n, g + y) == [""] + SplitN(Gap, n - 1, y)
  {
    assert "" + g + y == g + y;
    GapCut("", g, y, n);
  }

  /** An indented line whose rest is cut once into two pieces is cut twice into those after an empty one. */
  lemma IndentedPieces(indent: string, rest: string, x: string, y: string)
    requires Whites(indent) && rest != [] && !JsSpace(rest[0]) && SplitN(Gap, 1, rest) == [x, y]
    ensures SplitN(Gap, 2, indent + rest) == ["", x, y]
  {
    IndentCut(indent, rest, 2);
  }

  lemma Regroup(a: string, b: string, c: string, d: string)
    ensures a + b + c + d == a + (b + c + d)
  {
  }

  /** The pieces of an indented posting line with an amount. */
  lemma PostingPieces(indent: string, account: string, gap: string, amount: string)
    requires Whites(indent) && AccountText(account) && Whites(gap) && (amount == [] || !JsSpace(amount[0]))
    ensures SplitN(Gap, 2, indent + account + gap + amount) == ["", account, amount]
  {
    var rest := account + gap + amount;
    Regroup(indent, account, gap, amount);
    AccountPieces(account, gap, amount);
    IndentedPieces(indent, rest, account, amount);
  }

  /** A trimmed account name is itself. */
  lemma AccountTrimmed(a: string)
    requires AccountText(a)
    ensures JsTrim(a) == a
  {
    assert !JsSpace(a[|a| - 1]);
  }

  /**
    A posting line written as indentation, the account, a gap and the amount
    text parses to that account and to what the amount text parses to.
  */
  lemma PostingRoundTrip(indent: string, account: string, gap: string, amount: string)
    requires Whites(indent) && AccountText(account) && Whites(gap) && (amount == [] || !JsSpace(amount[0]))
    ensures PostingOf(indent + account + gap + amount).Success? <==> AmountOf(Some(amount)).Success?
    ensures PostingOf(indent + account + gap + amount).Success? ==>
              PostingOf(indent + account + gap + amount).value == JsPosting(account, AmountOf(Some(amount)).value)
  {
    var line := indent + account + gap + amount;
    PostingPieces(indent, account, gap, amount);
    AccountTrimmed(account);
    assert PostingOf(line) == PostingOfPieces(["", account, amount]);
  }

  /** An account name alone holds no gap. */
  lemma AccountAlone(account: string)
    requires AccountText(account)
    ensures SplitN(Gap, 1, account) == [account]
  {
    AccountHasNoGap(account, "");
    assert account + "" == account;
    assert MatchAt(Gap, account, |account|).None?;
    assert !Test(Gap, account);
    SplitNBase(Gap, 1, account);
  }

  /** A posting line with no amount text parses to the account and no amount. */
  lemma PostingNoAmountRoundTrip(indent: string, account: string)
    requires Whites(indent) && AccountText(account)
    ensures PostingOf(indent + account) == Success(JsPosting(account, None))
  {
    assert SplitN(Gap, 2, indent + account) == [""] + SplitN(Gap, 1, account) by {
      IndentCut(indent, account, 2);
    }
    assert SplitN(Gap, 1, account) == [account] by {
      AccountAlone(account);
    }
    AccountTrimmed(account);
  }

  // ---- transactions and the ledger ------------------------------------------------

  /** The first line of text is everything before its first newline. */
  lemma FirstLineOfLines(h: string, body: string)
    requires '\n' !in h && (body == [] || body[0] == '\n')
    ensures Lines(h + body)[0] == h
  {
    var t := h + body;
    SplitOneChar('\n', t);
    if body == [] {
      assert t == h;
      SplitCharNone(t, '\n', |t|);
    } else {
      assert t == h + ['\n'] + body[1..];
      SplitCharCons(h, '\n', body[1..], |t|);
    }
  }

  /** The header line splits once, at the space after the date token. */
  lemma HeaderPieces(date: string, desc: string)
    requires ' ' !in date
    ensures SplitN(Space, 1, date + " " + desc) == [date, desc]
  {
    SplitNChar(' ', 1, date + " " + desc);
    SplitCharCons(date, ' ', desc, 1);
  }

  /**
    The date is the token before the first space of the trimmed chunk's first
    line, the description the rest of that line.
  */
  lemma TransactionHeader(chunk: string, date: string, desc: string, body: string)
    requires JsTrim(chunk) == date + " " + desc + body
    requires ' ' !in date && '\n' !in date && '\n' !in desc && (body == [] || body[0] == '\n')
    ensures TransactionOf(chunk).Success? ==> TransactionOf(chunk).value.date == date && TransactionOf(chunk).value.desc == desc
  {
    assert '\n' !in date + " " + desc;
    FirstLineOfLines(date + " " + desc, body);
    HeaderPieces(date, desc);
  }

  /** One posting per line after the first line of the trimmed chunk; the chunk parses when every such line does. */
  lemma TransactionPostings(chunk: string)
    ensures var lines := Lines(JsTrim(chunk));
            && (TransactionOf(chunk).Success? <==> forall i :: 1 <= i < |lines| ==> PostingOf(lines[i]).Success?)
            && (TransactionOf(chunk).Success? ==>
                  |TransactionOf(chunk).value.postings| == |lines| - 1
                  && forall i :: 1 <= i < |lines| ==> TransactionOf(chunk).value.postings[i - 1] == PostingOf(lines[i]).value)
  {
    var lines := Lines(JsTrim(chunk));
    assert forall i :: 1 <= i < |lines| ==> lines[1..][i - 1] == lines[i];
  }

  /** No two newlines in a row, and no newline at the end: text a blank-line split leaves whole. */
  predicate NoBlankLine(h: string) {
    forall j :: 0 <= j < |h| && h[j] == '\n' ==> j + 1 < |h| && h[j + 1] != '\n'
  }

  /** Two newlines after a section without a blank line are where splitN on /\n{2}/ cuts. */
  lemma SectionCut(h: string, rest: string, n: int)
    requires NoBlankLine(h) && n >= 1
    ensures SplitN(SectionBreak, n, h + "\n\n" + rest) == [h] + SplitN(SectionBreak, n - 1, rest)
  {
    var s := h + "\n\n" + rest;
    forall j | 0 <= j < |h| ensures MatchAt(SectionBreak, s, j).None? {
      if j + 2 <= |s| {
        assert s[j..j + 2][0] == h[j];
        if h[j] == '\n' {
          assert s[j..j + 2][1] == h[j + 1];
        }
      }
    }
    assert s[|h|..|h| + 2] == "\n\n";
    SearchFinds(SectionBreak, s, 0, |h|);
    assert FirstCut(SectionBreak, s) == (|h|, |h| + 2);
    assert s[..|h|] == h && s[|h| + 2..] == rest;
  }

  /** Sections without blank lines, joined by blank lines, split back into those sections. */
  lemma {:induction false} SectionsSplit(heads: seq<string>, body: string)
    requires forall i :: 0 <= i < |heads| ==> NoBlankLine(heads[i])
    ensures SplitN(SectionBreak, |heads|, Join(heads + [body], "\n\n")) == heads + [body]
  {
    if heads == [] {
      assert [] + [body] == [body];
      SplitNBase(SectionBreak, 0, body);
    } else {
      var rest := heads[1..] + [body];
      assert heads + [body] == [heads[0]] + rest;
      JoinCons(heads[0], rest, "\n\n");
      SectionsSplit(heads[1..], body);
      SectionCut(heads[0], Join(rest, "\n\n"), |heads|);
    }
  }

  /**
    A ledger file of four sections without blank lines, then the transaction
    text, each set apart by a blank line, parses to one transaction per chunk
    of the transaction text.
  */
  lemma LedgerSections(heads: seq<string>, body: string)
    requires |heads| == 4 && forall i :: 0 <= i < 4 ==> NoBlankLine(heads[i])
    ensures LedgerOf(Join(heads + [body], "\n\n")) == MapResult(TransactionOf, Split(ChunkBreak, body))
  {
    SectionsSplit(heads, body);
  }

  /** With fewer than four blank lines splitN gives fewer than five pieces, and the fifth is missing. */
  lemma LedgerTooShort(s: string)
    requires MatchCount(SectionBreak, s) < 4
    ensures LedgerOf(s) == Failure(TypeError)
  {
    SplitNCount(SectionBreak, 4, s);
  }

  // ---- the parseTransaction example -------------------------------------------------

  /** No whitespace at all: a word of an account name, a date token, an amount. */
  predicate Spaceless(w: string) {
    forall i :: 0 <= i < |w| ==> !JsSpace(w[i])
  }

  /** Words joined by single spaces make an account name. */
  lemma {:induction false} AccountOfWords(w: string, rest: Option<string>)
    requires w != [] && Spaceless(w) && (rest.Some? ==> AccountText(rest.value))
    ensures AccountText(if rest.Some? then w + " " + rest.value else w)
  {
    if rest.Some? {
      var a := w + " " + rest.value;
      forall i | 0 <= i < |a| && JsSpace(a[i]) ensures i + 1 < |a| && !JsSpace(a[i + 1]) {
        if i == |w| {
          assert a[i + 1] == rest.value[0];
        } else {
          assert i > |w| && a[i] == rest.value[i - |w| - 1];
          assert i + 1 < |a| && a[i + 1] == rest.value[i - |w|];
        }
      }
    }
  }

  const ExampleDate := "2014/02/14"
  const ExampleDesc := "foo" + " " + "bar"
  const ExampleAccount1 := "Assets:Some" + " " + "Account:Sub-Account"
  const ExampleAccount2 := "Income:Some" + " " + ("Other" + " " + "Account")
  const ExampleAmountText := "$288.10558392"
  const ExampleHeader := ExampleDate + " " + ExampleDesc
  const ExampleLine1 := "  " + ExampleAccount1 + "    " + ExampleAmountText
  const ExampleLine2 := "  " + ExampleAccount2
  const ExampleBody := ExampleLine1 + "\n" + ExampleLine2
  const ExampleChunk := ExampleHeader + "\n" + ExampleBody

  lemma ExampleWords1()
    ensures Spaceless(ExampleDate) && Spaceless("foo") && Spaceless("bar") && Spaceless(ExampleAmountText)
  {
    forall i | 0 <= i < |ExampleDate| ensures !JsSpace(ExampleDate[i]) { assert ExampleDate[i] in ExampleDate; }
    forall i | 0 <= i < |ExampleAmountText| ensures !JsSpace(ExampleAmountText[i]) { assert ExampleAmountText[i] in ExampleAmountText; }
    forall i | 0 <= i < 3 ensures !JsSpace("foo"[i]) && !JsSpace("bar"[i]) { assert "foo"[i] in "foo" && "bar"[i] in "bar"; }
  }

  lemma ExampleWords2()
    ensures Spaceless("Assets:Some") && Spaceless("Account:Sub-Account")
  {
    var a, b := "Assets:Some", "Account:Sub-Account";
    forall i | 0 <= i < |a| ensures !JsSpace(a[i]) { assert a[i] in a; }
    forall i | 0 <= i < |b| ensures !JsSpace(b[i]) { assert b[i] in b; }
  }

  lemma ExampleWords3()
    ensures Spaceless("Income:Some") && Spaceless("Other") && Spaceless("Account")
  {
    var a, b, c := "Income:Some", "Other", "Account";
    forall i | 0 <= i < |a| ensures !JsSpace(a[i]) { assert a[i] in a; }
    forall i | 0 <= i < |b| ensures !JsSpace(b[i]) { assert b[i] in b; }
    forall i | 0 <= i < |c| ensures !JsSpace(c[i]) { assert c[i] in c; }
  }

  lemma ExampleAccounts()
    ensures AccountText(ExampleAccount1) && AccountText(ExampleAccount2)
  {
    ExampleWords2();
    ExampleWords3();
    AccountOfWords("Account:Sub-Account", None);
    AccountOfWords("Assets:Some", Some("Account:Sub-Account"));
    AccountOfWords("Account", None);
    AccountOfWords("Other", Some("Account"));
    AccountOfWords("Income:Some", Some("Other" + " " + "Account"));
  }

  /** A spaceless word has no newline. */
  lemma NoNewline(w: string)
    requires Spaceless(w)
    ensures '\n' !in w
  {
    forall i | 0 <= i < |w| ensures w[i] != '\n' {
      assert !JsSpace(w[i]);
    }
  }

  lemma ExampleTrim()
    ensures JsTrim(ExampleChunk) == ExampleChunk
  {
    assert ExampleChunk[0] == ExampleDate[0];
    assert ExampleChunk[|ExampleChunk| - 1] == ExampleAccount2[|ExampleAccount2| - 1];
  }

  /** None of the three example lines holds a newline. */
  lemma ExampleLineChars()
    ensures '\n' !in ExampleHeader && '\n' !in ExampleLine1 && '\n' !in ExampleLine2
  {
    ExampleWords1();
    ExampleWords2();
    ExampleWords3();
    NoNewline(ExampleDate);
    NoNewline(ExampleAmountText);
    NoNewline("Assets:Some");
    NoNewline("Account:Sub-Account");
    NoNewline("Income:Some");
    NoNewline("Other");
    NoNewline("Account");
    NoNewline("foo");
    NoNewline("bar");
  }

  lemma ExampleLines()
    ensures Lines(ExampleChunk) == [ExampleHeader, ExampleLine1, ExampleLine2]
  {
    var n := |ExampleChunk|;
    ExampleLineChars();
    SplitOneChar('\n', ExampleChunk);
    SplitCharNone(ExampleLine2, '\n', n - 2);
    SplitCharCons(ExampleLine1, '\n', ExampleLine2, n - 1);
    SplitCharCons(ExampleHeader, '\n', ExampleBody, n);
  }

  /** The digits of the example quantity. */
  lemma ExampleDigits()
    ensures DigitsValue("288") == 288 && DigitsValue("10558392") == 10558392
  {
    assert DigitsValue("2") == 2;
    assert "28"[..1] == "2";
    assert DigitsValue("28") == 28;
    assert "288"[..2] == "28";
    assert DigitsValue("1") == 1;
    assert "10"[..1] == "1";
    assert DigitsValue("10") == 10;
    assert "105"[..2] == "10";
    assert DigitsValue("105") == 105;
    assert "1055"[..3] == "105";
    assert DigitsValue("1055") == 1055;
    assert "10558"[..4] == "1055";
    assert DigitsValue("10558") == 10558;
    assert "105583"[..5] == "10558";
    assert DigitsValue("105583") == 105583;
    assert "1055839"[..6] == "105583";
    assert DigitsValue("1055839") == 1055839;
    assert "10558392"[..7] == "1055839";
  }

  lemma ExampleQuantity()
    ensures SignedValue(false, "288", "10558392") == 288.10558392
  {
    ExampleDigits();
    assert Pow10(8) == 100000000;
  }

  lemma ExampleAmount()
    ensures AmountOf(Some(ExampleAmountText)) == Success(Some(Prefix(PrefixAmount("$", 288.10558392))))
  {
    assert ExampleAmountText == ['$'] + DecimalText(false, "288", "10558392");
    PrefixRoundTrip('$', false, "288", "10558392");
    ExampleQuantity();
  }

  lemma ExamplePostings()
    ensures PostingOf(ExampleLine1) == Success(JsPosting(ExampleAccount1, Some(Prefix(PrefixAmount("$", 288.10558392)))))
    ensures PostingOf(ExampleLine2) == Success(JsPosting(ExampleAccount2, None))
  {
    ExampleAccounts();
    ExampleAmount();
    PostingRoundTrip("  ", ExampleAccount1, "    ", ExampleAmountText);
    PostingNoAmountRoundTrip("  ", ExampleAccount2);
  }

  /** MapResult over two elements that both succeed. */
  lemma MapResultPair<T, U>(f: T -> Parsed<U>, x: T, y: T)
    requires f(x).Success? && f(y).Success?
    ensures MapResult(f, [x, y]) == Success([f(x).value, f(y).value])
  {
    var r := MapResult(f, [x, y]);
    assert [x, y][0] == x && [x, y][1] == y;
    assert r.Success? && |r.value| == 2;
    assert r.value == [f(x).value, f(y).value];
  }

  /** A transaction from its trimmed chunk's lines, header pieces and postings. */
  lemma TransactionOfParts(chunk: string, lines: seq<string>, date: string, desc: string, ps: seq<JsPosting>)
    requires JsTrim(chunk) == chunk && Lines(chunk) == lines
    requires SplitN(Space, 1, lines[0]) == [date, desc] && MapResult(PostingOf, lines[1..]) == Success(ps)
    ensures TransactionOf(chunk) == Success(JsTransaction(desc, date, ps))
  {
  }

  /** The example's pieces spell the text of the parser's tests. */
  lemma ExampleText()
    ensures ExampleDesc == "foo bar"
    ensures ExampleAccount1 == "Assets:Some Account:Sub-Account"
    ensures ExampleAccount2 == "Income:Some Other Account"
  {
  }

  /**
    The transaction of the parser's tests: date token 2014/02/14, description
    "foo bar", the two accounts, and the quantity $288.10558392 of the first
    posting with none on the second.
  */
  lemma ExampleTransaction()
    ensures TransactionOf(ExampleChunk) == Success(JsTransaction(ExampleDesc, ExampleDate, [
              JsPosting(ExampleAccount1, Some(Prefix(PrefixAmount("$", 288.10558392)))),
              JsPosting(ExampleAccount2, None)]))
  {
    var lines := [ExampleHeader, ExampleLine1, ExampleLine2];
    ExampleTrim();
    ExampleLines();
    assert lines[1..] == [ExampleLine1, ExampleLine2];
    ExamplePostings();
    MapResultPair(PostingOf, ExampleLine1, ExampleLine2);
    ExampleWords1();
    HeaderPieces(ExampleDate, ExampleDesc);
    TransactionOfParts(ExampleChunk, lines, ExampleDate, ExampleDesc, [
      JsPosting(ExampleAccount1, Some(Prefix(PrefixAmount("$", 288.10558392)))),
      JsPosting(ExampleAccount2, None)]);
  }
}
