/**
  The bank and brokerage statement importers: each parser turns the rows of
  one institution's CSV export into transactions.  Rows arrive as lists of
  fields (the csv module's work is not modelled); dates come from the caller's
  strptime.
*/
module InputParsers {
  import opened Wrappers
  import opened Text
  import opened PyBase
  import Seqs
  import Sorting
  import Calendar
  import opened ImportModel

  type Row = seq<string>

  // ---------------------------------------------------------------- shared pieces

  /** datetime.strptime(parts[i], format). */
  function DateAt(parts: Row, i: nat, format: string, strptime: Strptime): (r: Result<PyDate, PyError>)
    ensures r.Success? <==> i < |parts| && strptime(parts[i], format).Some?
    ensures r.Success? ==> r.value == strptime(parts[i], format).value
  {
    var text :- Field(parts, i);
    match strptime(text, format)
    case None => Failure(ValueError(text))
    case Some(d) => Success(d)
  }

  /** Decimal(parts[i]). */
  function DecimalAt(parts: Row, i: nat): (r: Result<real, PyError>)
    ensures r.Success? <==> i < |parts| && ParseDecimal(parts[i]).Some?
    ensures r.Success? ==> r.value == ParseDecimal(parts[i]).value
  {
    var text :- Field(parts, i);
    Dec(text)
  }

  /** s.strip('"') */
  function Unquote(s: string): string {
    StripChars(s, {'"'})
  }

  /** A transaction with one cash posting, the shape the checking and credit-card parsers build. */
  function Single(date: PyDate, desc: string, account: string, quantity: real): Transaction {
    Transaction(date, desc, [Cash(account, quantity)])
  }

  /** quantity of a commodity at a unit price, balanced by an elided posting to the same account. */
  function Trade(date: PyDate, desc: string, account: string, quantity: real, commodity: string, unitPrice: real): Transaction {
    Transaction(date, desc, [Posting(account, quantity, Some(commodity), Some(unitPrice)), Cash(account, 0.0)])
  }

  /** Cash moved into the account, balanced by an elided posting to another account. */
  function CashFrom(date: PyDate, desc: string, account: string, total: real, other: string): Transaction {
    Transaction(date, desc, [Cash(account, total), Cash(other, 0.0)])
  }

  /** A transaction whose two postings are a trade of a commodity and its cash side. */
  predicate IsTrade(t: Transaction) {
    |t.postings| == 2 && t.postings[0].commodity.Some? && t.postings[0].unitPrice.Some?
  }

  /** A transaction whose postings are plain amounts. */
  predicate IsCash(t: Transaction) {
    |t.postings| == 2 && t.postings[0].commodity.None? && t.postings[1].commodity.None?
  }

  /**
    funds.get(name): the ticker symbol of a fund as the statements print its
    name, or "" (standing for None: no symbol is empty) for a name the table lacks.
  */
  function FundSymbol(name: string): string {
    if name == "Metropolitan West Total Return Bond I" then "MWTRX"
    else if name == "Vanguard 500 Index Admiral" then "VFIAX"
    else if name == "Vanguard 500 Idx/Signal" then "VIFSX"
    else if name == "Vanguard Extended Market Idx Adm" then "VEXAX"
    else if name == "VANGUARD 500 INDEX ADMIRAL SER" then "VFIAX"
    else if name == "VANGUARD TOTAL BD INDX ADMIRAL" then "VBTLX"
    else if name == "VANGUARD TTL INTL STK INDEX" then "VTIAX"
    else if name == "VANG TARGET RET 2045" then "VTIVX"
    else if name == "TIAA-CREF Lifecycle 2045 Fund - Institutional Class" then "TTFIX"
    else if name == "CREF Equity Index R3" then "QCEQIX"
    else if name == "CREF Equity Index R1" then "QCEQRX"
    else if name == "Total Bond Mkt Index Inv" then "VBMFX"
    else if name == "Total Stock Mkt Idx Adm" then "VTSAX"
    else if name == "Tot Intl Stock Ix Admiral" then "VTIAX"
    else if name == "Extended Mkt Index Adm" then "VEXAX"
    else if name == "Target Retirement 2045" then "VTIVX"
    else if name == "VANGUARD TARGET RETIREMENT 2045 INVESTOR CL" then "VTIVX"
    else ""
  }

  /** The symbol of a fund, raising on a name the funds table lacks. */
  function Fund(name: string): (r: Result<string, PyError>)
    ensures r.Success? <==> FundSymbol(name) != ""
    ensures r.Success? ==> r.value == FundSymbol(name)
    ensures r.Failure? ==> r.error == Raised("Unknown fund: " + name)
  {
    if FundSymbol(name) != "" then Success(FundSymbol(name)) else Failure(Raised("Unknown fund: " + name))
  }

  /** The result of other_accounts.get(type), raising when the table has no account for the type. */
  function OtherAccount(other: string, transType: string): (r: Result<string, PyError>)
    ensures r.Success? <==> other != ""
    ensures r.Success? ==> r.value == other
    ensures r.Failure? ==> r.error == Raised("Unexpected transaction type: " + transType)
  {
    if other != "" then Success(other)
    else Failure(Raised("Unexpected transaction type: " + transType))
  }

  // ---------------------------------------------------------------- checking and credit cards

  const NecuChecking := "Assets:NECU:Checking"
  const NecuSilverLining := "Assets:NECU:Silver Lining"

  /** NECU: date, description, amount and a DR/CR column; DR rows are withdrawals. */
  function Necu(account: string, parts: Row, strptime: Strptime): (r: Result<seq<Transaction>, PyError>)
  {
    var desc :- Field(parts, 3);
    var date :- DateAt(parts, 1, "%m/%d/%y", strptime);
    var quantity :- DecimalAt(parts, 4);
    var drcr :- Field(parts, 5);
    Success([Single(date, Unquote(desc), account, if drcr == "DR" then -1.0 * quantity else quantity)])
  }

  const UsBankAccount := "Liabilities:Credit Cards:U.S. Bank"

  /** One match of `-?\d+.\d{2}` followed by `(\d+)` at the start of the text. */
  datatype Match = Match(group1: string, group2: string)

  /** The length of the run of ASCII digits starting at s[i]. */
  function DigitRun(s: string, i: nat): (n: nat)
    requires i <= |s|
    ensures i + n <= |s|
    ensures forall k :: i <= k < i + n ==> IsDigit(s[k])
    ensures i + n == |s| || !IsDigit(s[i + n])
    decreases |s| - i
  {
    if i < |s| && IsDigit(s[i]) then 1 + DigitRun(s, i + 1) else 0
  }

  /** With `\d+` ending at e, the rest of the pattern fits: any character but a newline, two digits and a digit. */
  predicate TailFits(s: string, e: nat) {
    e + 4 <= |s| && s[e] != '\n' && IsDigit(s[e + 1]) && IsDigit(s[e + 2]) && IsDigit(s[e + 3])
  }

  /**
    The regex engine's backtracking over the greedy `\d+` that starts at
    `start`: it tries the longest run of digits first and gives back one at a
    time, so the end it settles on is the largest one the rest of the pattern fits.
  */
  function Backtrack(s: string, start: nat, j: nat): (r: Option<nat>)
    requires start + j <= |s|
    ensures r.Some? ==> start < r.value <= start + j && TailFits(s, r.value)
    ensures forall k :: (if r.Some? then r.value else start) < k <= start + j ==> !TailFits(s, k)
    decreases j
  {
    if j == 0 then None
    else if TailFits(s, start + j) then Some(start + j)
    else Backtrack(s, start, j - 1)
  }

  /** Where the sign and the integer digits of the pattern start. */
  function Start(s: string): nat {
    if |s| > 0 && s[0] == '-' then 1 else 0
  }

  /** re.match('(-?\d+.\d{2})(\d+)', s) */
  function TruncMatch(s: string): (m: Option<Match>)
  {
    var start := Start(s);
    match Backtrack(s, start, DigitRun(s, start))
    case None => None
    case Some(e) => Some(Match(s[..e + 3], s[e + 3..e + 3 + DigitRun(s, e + 3)]))
  }

  /** UsBankParser.trunc: removes the two extra zeroes U.S. Bank writes after the cents. */
  function Trunc(n: string): (r: string) {
    var m := TruncMatch(n);
    if m.Some? && m.value.group2 == "00" then m.value.group1 else n
  }

  /** trunc either returns its input or cuts off exactly "00" that no further digit follows. */
  lemma TruncCases(n: string)
    ensures var r := Trunc(n);
      r == n || (|r| + 2 <= |n| && n[..|r|] == r && n[|r|..|r| + 2] == "00" && (|r| + 2 == |n| || !IsDigit(n[|r| + 2])))
  {
    var m := TruncMatch(n);
    if m.Some? && m.value.group2 == "00" {
      var e :| Backtrack(n, Start(n), DigitRun(n, Start(n))) == Some(e);
      assert m.value.group1 == n[..e + 3];
      assert DigitRun(n, e + 3) == 2;
    }
  }

  /** A run of n digits that a non-digit (or the end) follows. */
  lemma {:induction false} DigitRunIs(s: string, i: nat, n: nat)
    requires i + n <= |s|
    requires forall k :: i <= k < i + n ==> IsDigit(s[k])
    requires i + n == |s| || !IsDigit(s[i + n])
    ensures DigitRun(s, i) == n
    decreases n
  {
    if n > 0 {
      DigitRunIs(s, i + 1, n - 1);
    }
  }

  /**
    When `\d+` has to give back digits, the final `(\d+)` ends where the
    integer digits end and captures a single digit.
  */
  lemma BacktrackedGroup(s: string, e: nat)
    requires Backtrack(s, Start(s), DigitRun(s, Start(s))) == Some(e)
    requires e < Start(s) + DigitRun(s, Start(s))
    ensures e + 3 < |s| && DigitRun(s, e + 3) == 1
  {
    assert !TailFits(s, e + 1);
    assert e + 4 == |s| || !IsDigit(s[e + 4]);
    DigitRunIs(s, e + 3, 1);
  }

  /** U.S. Bank's unsigned digits: the sign and the integer part of decimal text. */
  lemma DecimalTextDigits(negative: bool, whole: string, frac: string)
    requires AllDigits(whole) && AllDigits(frac) && whole != []
    ensures var s := DecimalText(negative, whole, frac);
      Start(s) == (if negative then 1 else 0) && DigitRun(s, Start(s)) == |whole|
  {
    var s := DecimalText(negative, whole, frac);
    var start := if negative then 1 else 0;
    assert s[start] == whole[0];
    assert forall k :: start <= k < start + |whole| ==> s[k] == whole[k - start];
    if frac != [] {
      assert s[start + |whole|] == '.';
    }
    DigitRunIs(s, start, |whole|);
  }

  /** Decimal text with a long fraction is the text with only the cents, followed by the remaining digits. */
  lemma DecimalTextSplit(negative: bool, whole: string, frac: string)
    requires |frac| >= 2
    ensures var head := DecimalText(negative, whole, frac[..2]);
      DecimalText(negative, whole, frac) == head + frac[2..] &&
      |head| == (if negative then 1 else 0) + |whole| + 3 &&
      head[|head| - 3] == '.' && head[|head| - 2] == frac[0] && head[|head| - 1] == frac[1]
  {
    assert frac == frac[..2] + frac[2..];
    assert UnsignedText(whole, frac) == whole + "." + frac;
    assert UnsignedText(whole, frac[..2]) == whole + "." + frac[..2];
    assert whole + "." + frac == (whole + "." + frac[..2]) + frac[2..];
  }

  /** When `\d+` can keep all its digits, the match is the text up to two places past them and the digits after. */
  lemma TruncMatchSplit(s: string, head: string, tail: string)
    requires s == head + tail && |head| >= 3 && tail != [] && AllDigits(tail)
    requires Start(s) < |head| - 3 == Start(s) + DigitRun(s, Start(s))
    requires s[|head| - 3] != '\n' && IsDigit(s[|head| - 2]) && IsDigit(s[|head| - 1])
    ensures TruncMatch(s) == Some(Match(head, tail))
  {
    var e := |head| - 3;
    assert s[e + 3] == tail[0];
    assert TailFits(s, e);
    assert Backtrack(s, Start(s), DigitRun(s, Start(s))) == Some(e);
    assert s[..e + 3] == head && s[e + 3..] == tail;
    DigitTail(s, e + 3, tail);
  }

  /** Digits that run to the end of the text form the whole digit run there. */
  lemma DigitTail(s: string, i: nat, t: string)
    requires i <= |s| && s[i..] == t && AllDigits(t)
    ensures DigitRun(s, i) == |t| && s[i..i + DigitRun(s, i)] == t
  {
    forall k | i <= k < |s|
      ensures IsDigit(s[k])
    {
      assert s[k] == t[k - i];
    }
    DigitRunIs(s, i, |t|);
  }

  /** A fraction of three digits or more: `\d+` takes the whole integer part and `(\d+)` the digits after the cents. */
  lemma TruncLongFraction(negative: bool, whole: string, frac: string)
    requires AllDigits(whole) && AllDigits(frac) && whole != [] && |frac| >= 3
    ensures var s := DecimalText(negative, whole, frac);
      TruncMatch(s) == Some(Match(DecimalText(negative, whole, frac[..2]), frac[2..]))
  {
    var s := DecimalText(negative, whole, frac);
    var head := DecimalText(negative, whole, frac[..2]);
    DecimalTextDigits(negative, whole, frac);
    DecimalTextSplit(negative, whole, frac);
    assert s[|head| - 3] == '.' && s[|head| - 2] == frac[0] && s[|head| - 1] == frac[1];
    TruncMatchSplit(s, head, frac[2..]);
  }

  /** A shorter fraction: the match, if any, captures a single digit, so nothing is cut. */
  lemma TruncShortFraction(negative: bool, whole: string, frac: string)
    requires AllDigits(whole) && AllDigits(frac) && whole != [] && |frac| < 3
    ensures var s := DecimalText(negative, whole, frac);
      TruncMatch(s).None? || |TruncMatch(s).value.group2| == 1
  {
    var s := DecimalText(negative, whole, frac);
    DecimalTextDigits(negative, whole, frac);
    var start := Start(s);
    assert |s| == start + |whole| + (if frac == [] then 0 else 1 + |frac|);
    assert !TailFits(s, start + |whole|);
    match Backtrack(s, start, |whole|)
    case None =>
    case Some(b) =>
      BacktrackedGroup(s, b);
  }

  /**
    On decimal text trunc removes the two last fraction digits exactly when the
    fraction has four digits ending in "00"; any other decimal comes back unchanged.
  */
  lemma TruncDecimalText(negative: bool, whole: string, frac: string)
    requires AllDigits(whole) && AllDigits(frac) && whole != []
    ensures Trunc(DecimalText(negative, whole, frac)) ==
      if |frac| == 4 && frac[2..] == "00" then DecimalText(negative, whole, frac[..2])
      else DecimalText(negative, whole, frac)
  {
    if |frac| >= 3 {
      TruncLongFraction(negative, whole, frac);
    } else {
      TruncShortFraction(negative, whole, frac);
    }
  }

  /** Two trailing zeros do not change the value of a fraction. */
  lemma HundredthsValue(whole: string, frac: string)
    requires AllDigits(whole) && AllDigits(frac) && |frac| == 4 && frac[2..] == "00"
    ensures UnsignedValue(whole, frac) == UnsignedValue(whole, frac[..2])
  {
    var f := frac[..2];
    assert frac[..3][..2] == f && frac[..3] == frac[..|frac| - 1];
    assert DigitsValue(frac) == DigitsValue(frac[..3]) * 10;
    assert DigitsValue(frac[..3]) == DigitsValue(f) * 10;
    assert Pow10(4) == Pow10(2) * 100;
  }

  /** So trunc never changes the value a well-formed decimal reads as. */
  lemma TruncKeepsValue(negative: bool, whole: string, frac: string)
    requires AllDigits(whole) && AllDigits(frac) && whole != []
    ensures ParseDecimal(Trunc(DecimalText(negative, whole, frac))) == ParseDecimal(DecimalText(negative, whole, frac))
  {
    var s := DecimalText(negative, whole, frac);
    TruncDecimalText(negative, whole, frac);
    if |frac| == 4 && frac[2..] == "00" {
      var f := frac[..2];
      assert Trunc(s) == DecimalText(negative, whole, f);
      ParseDecimalText(negative, whole, f);
      ParseDecimalText(negative, whole, frac);
      HundredthsValue(whole, frac);
      assert SignedValue(negative, whole, f) == SignedValue(negative, whole, frac);
    } else {
      assert Trunc(s) == s;
    }
  }

  /** U.S. Bank: date, description and an amount with four decimal places. */
  function UsBank(parts: Row, strptime: Strptime): (r: Result<seq<Transaction>, PyError>)
  {
    var desc :- Field(parts, 2);
    var date :- DateAt(parts, 0, "%m/%d/%Y", strptime);
    var amount :- Field(parts, 4);
    var quantity :- Dec(Trunc(amount));
    Success([Single(date, Unquote(desc), UsBankAccount, quantity)])
  }

  const AllyMoneyMarket := "Assets:Ally Bank:Money Market"
  const AllyOnlineSavings := "Assets:Ally Bank:Online Savings"
  const AllyCD1 := "Assets:Ally Bank:CD 1"
  const AllyCD2 := "Assets:Ally Bank:CD 2"
  const AllyCD3 := "Assets:Ally Bank:CD 3"
  const AllyCD4 := "Assets:Ally Bank:CD 4"
  const AllyCD5 := "Assets:Ally Bank:CD 5"

  /** Ally: ISO date, signed amount and description. */
  function Ally(account: string, parts: Row, strptime: Strptime): (r: Result<seq<Transaction>, PyError>)
  {
    var desc :- Field(parts, 4);
    var date :- DateAt(parts, 0, "%Y-%m-%d", strptime);
    var quantity :- DecimalAt(parts, 2);
    Success([Single(date, Unquote(desc), account, quantity)])
  }

  const KennebunkAccount := "Assets:Kennebunk:Checking"

  /** Kennebunk: separate debit and credit columns; a debit, when present, is a withdrawal. */
  function Kennebunk(parts: Row, strptime: Strptime): (r: Result<seq<Transaction>, PyError>)
  {
    var desc :- Field(parts, 6);
    var date :- DateAt(parts, 5, "%m/%d/%Y", strptime);
    var debit := parts[2];
    var quantity :-
      if debit != "" then (var d :- Dec(debit); Success(-1.0 * d))
      else DecimalAt(parts, 3);
    Success([Single(date, Unquote(desc), KennebunkAccount, quantity)])
  }

  // ---------------------------------------------------------------- retirement accounts

  /** What one row produces, and the Wells Fargo transfer total it leaves pending. */
  datatype RowOut = RowOut(transactions: seq<Transaction>, previous: Option<real>)

  const WellsFargoAccount := "Assets:Wells Fargo:401(k)"

  /** other_accounts: the account on the other side of each transaction type, "" for a type not listed. */
  function WellsFargoOther(transType: string): string {
    if transType == "Asset Fees" then "Expenses:Retirement Account Fees"
    else if transType == "Distribution fee" then "Expenses:Retirement Account Fees"
    else if transType == "Contributions" then "Income:Retirement Contributions"
    else if transType == "Earnings" then "Income:Dividends"
    else if transType == "Plan miscellaneous fee" then "Expenses:Retirement Account Fees"
    else if transType == "Transfers" then WellsFargoAccount
    else if transType == "In-Service Payout" then "Assets:Vanguard:CTC IRA"
    else ""
  }

  /**
    Wells Fargo 401(k): a trade of the fund and, except for transfers, the cash
    side with the other account.  Transfers come in pairs; the first leaves its
    total pending and the second takes the negated total, adjusting its unit price.
  */
  function WellsFargoRow(previous: Option<real>, parts: Row, strptime: Strptime): (r: Result<RowOut, PyError>)
  {
    var f :- WellsFargoFields(parts, strptime);
    WellsFargoBuild(previous, f)
  }

  /** The columns of a retirement-account row, with the fund and the other account looked up. */
  datatype Fields = Fields(transType: string, date: PyDate, quantity: real, unitPrice: real, total: real, commodity: string, other: string)

  /** The reads and lookups that come before any transaction is built, in the order they raise. */
  function WellsFargoFields(parts: Row, strptime: Strptime): (r: Result<Fields, PyError>)
    ensures r.Success? ==> r.value.other == WellsFargoOther(r.value.transType) != ""
    ensures r.Success? ==> r.value.total == Mul(r.value.quantity, r.value.unitPrice)
  {
    var transType :- Field(parts, 2);
    var date :- DateAt(parts, 0, "%Y%m%d", strptime);
    var quantity :- DecimalAt(parts, 4);
    var priceText :- Field(parts, 5);
    var unitPrice :- Dec(LStripChars(priceText, {'$'}));
    var total := Mul(quantity, unitPrice);
    var commodity :- Fund(parts[1]);
    var other :- OtherAccount(WellsFargoOther(transType), transType);
    Success(Fields(transType, date, quantity, unitPrice, total, commodity, other))
  }

  function WellsFargoBuild(previous: Option<real>, f: Fields): (r: Result<RowOut, PyError>)
  {
    var total := f.total;
    var commodity := f.commodity;
    if f.transType == "Earnings" || f.transType == "Contributions" then
      Success(RowOut([CashFrom(f.date, "Cash from " + f.transType, WellsFargoAccount, total, f.other),
                      Trade(f.date, "Buy " + commodity + " with cash from " + f.transType, WellsFargoAccount, f.quantity, commodity, f.unitPrice)],
                     previous))
    else if f.transType == "Transfers" then
      var desc := if f.quantity < 0.0 then "Transfer out of " + commodity else "Transfer into " + commodity;
      if previous.None? then
        Success(RowOut([Trade(f.date, desc, WellsFargoAccount, f.quantity, commodity, f.unitPrice)], Some(total)))
      else
        var adjusted :- Div(-previous.value, f.quantity);
        Success(RowOut([Trade(f.date, desc, WellsFargoAccount, f.quantity, commodity, adjusted)], None))
    else if f.transType == "In-Service Payout" then
      Success(RowOut([Trade(f.date, "Sell " + commodity + " to close account", WellsFargoAccount, f.quantity, commodity, f.unitPrice),
                      CashFrom(f.date, "Close account", WellsFargoAccount, total, f.other)],
                     previous))
    else
      Success(RowOut([Trade(f.date, "Sell " + commodity + " for fees", WellsFargoAccount, f.quantity, commodity, f.unitPrice),
                      CashFrom(f.date, "Pay fees", WellsFargoAccount, total, f.other)],
                     previous))
  }

  /** The trade alone, or with the cash side inserted before (index 0) or after (index 1) it. */
  function Placed(cashIndex: Option<nat>, cash: Transaction, trade: Transaction): seq<Transaction> {
    if cashIndex.None? then [trade]
    else if cashIndex.value == 0 then [cash, trade]
    else [trade, cash]
  }

  /** The WellsFargoParser class and its class attribute previous_transfer. */
  class WellsFargoParser {
    var previousTransfer: Option<real>

    constructor()
      ensures previousTransfer == None
    {
      previousTransfer := None;
    }

    /** make_transactions: builds the trade, inserts the cash side at its place and updates the pending transfer. */
    method MakeTransactions(parts: Row, strptime: Strptime) returns (r: Result<seq<Transaction>, PyError>)
      modifies this
      ensures match WellsFargoRow(old(previousTransfer), parts, strptime)
        case Success(out) => r == Success(out.transactions) && previousTransfer == out.previous
        case Failure(e) => r == Failure(e) && previousTransfer == old(previousTransfer)
    {
      var f :- WellsFargoFields(parts, strptime);
      r := Build(f);
    }

    /** The part of make_transactions after the columns are read: it builds, inserts and updates previous_transfer. */
    method Build(f: Fields) returns (r: Result<seq<Transaction>, PyError>)
      modifies this
      ensures match WellsFargoBuild(old(previousTransfer), f)
        case Success(out) => r == Success(out.transactions) && previousTransfer == out.previous
        case Failure(e) => r == Failure(e) && previousTransfer == old(previousTransfer)
    {
      ghost var spec := WellsFargoBuild(previousTransfer, f);
      var transType, date, quantity, unitPrice, total, commodity, other := f.transType, f.date, f.quantity, f.unitPrice, f.total, f.commodity, f.other;
      var cashDesc := "";
      var transDesc;
      var cashIndex: Option<nat>;
      if transType == "Earnings" || transType == "Contributions" {
        cashDesc := "Cash from " + transType;
        transDesc := "Buy " + commodity + " with cash from " + transType;
        cashIndex := Some(0);
        assert spec == Success(RowOut(Placed(cashIndex, CashFrom(date, cashDesc, WellsFargoAccount, total, other),
          Trade(date, transDesc, WellsFargoAccount, quantity, commodity, unitPrice)), previousTransfer));
      } else if transType == "Transfers" {
        cashIndex := None;
        if quantity < 0.0 {
          transDesc := "Transfer out of " + commodity;
        } else {
          transDesc := "Transfer into " + commodity;
        }
        if previousTransfer.None? {
          previousTransfer := Some(total);
          assert spec == Success(RowOut([Trade(date, transDesc, WellsFargoAccount, quantity, commodity, unitPrice)], previousTransfer));
        } else {
          total := -previousTransfer.value;
          ghost var adjusted := Div(total, quantity);
          assert spec == if adjusted.Failure? then Failure(adjusted.error)
            else Success(RowOut([Trade(date, transDesc, WellsFargoAccount, quantity, commodity, adjusted.value)], None));
          unitPrice :- Div(total, quantity);
          previousTransfer := None;
        }
      } else if transType == "In-Service Payout" {
        cashDesc := "Close account";
        transDesc := "Sell " + commodity + " to close account";
        cashIndex := Some(1);
        assert spec == Success(RowOut(Placed(cashIndex, CashFrom(date, cashDesc, WellsFargoAccount, total, other),
          Trade(date, transDesc, WellsFargoAccount, quantity, commodity, unitPrice)), previousTransfer));
      } else {
        cashDesc := "Pay fees";
        transDesc := "Sell " + commodity + " for fees";
        cashIndex := Some(1);
        assert spec == Success(RowOut(Placed(cashIndex, CashFrom(date, cashDesc, WellsFargoAccount, total, other),
          Trade(date, transDesc, WellsFargoAccount, quantity, commodity, unitPrice)), previousTransfer));
      }
      var trade := Trade(date, transDesc, WellsFargoAccount, quantity, commodity, unitPrice);
      var transactions := [trade];
      if cashIndex.Some? {
        var cash := CashFrom(date, cashDesc, WellsFargoAccount, total, other);
        transactions := Seqs.InsertAt(transactions, cashIndex.value, cash);
      }
      assert transactions == Placed(cashIndex, CashFrom(date, cashDesc, WellsFargoAccount, total, other), trade);
      r := Success(transactions);
    }
  }

  /** Python's round-half-even of x to an integer, the default rounding of the decimal module. */
  function RoundHalfEven(x: real): (n: int)
    ensures -0.5 <= n as real - x <= 0.5
  {
    var f := x.Floor;
    var frac := x - f as real;
    if frac < 0.5 then f
    else if frac > 0.5 then f + 1
    else if f % 2 == 0 then f else f + 1
  }

  /** x.quantize(Decimal('.0001')): x rounded to four decimal places. */
  function Quantize4(x: real): (r: real)
    ensures -0.00005 <= r - x <= 0.00005
  {
    RoundHalfEven(x * 10000.0) as real / 10000.0
  }

  const BpasAccount := "Assets:BPAS:401(k)"

  /** other_accounts: the account on the other side of each transaction type, "" for a type not listed. */
  function BpasOther(transType: string): string {
    if transType == "Contribution" then "Income:Retirement Contributions"
    else if transType == "Dividends" then "Income:Dividends"
    else if transType == "Fees" then "Expenses:Retirement Account Fees"
    else if transType == "OtherFees" then "Expenses:Retirement Account Fees"
    else if transType == "Termination" then "Assets:Vanguard:CTC IRA"
    else ""
  }

  predicate NonEmpty(s: string) {
    s != ""
  }

  /** parts[1:-7] for a row of at least seven fields. */
  function FundWords(parts: Row): seq<string>
    requires |parts| >= 7
  {
    if |parts| >= 8 then parts[1..|parts| - 7] else []
  }

  /** The quantity column, or total / unit price rounded to four places when it reads NaN. */
  function BpasQuantity(text: string, total: real, unitPrice: real): (r: Result<real, PyError>)
  {
    if text == "NaN" then
      var q :- Div(total, unitPrice);
      Success(Quantize4(q))
    else Dec(text)
  }

  /** The quantity and unit price of a BPAS row, read from its last three columns. */
  function BpasAmounts(parts: Row): (r: Result<(real, real), PyError>)
    requires |parts| >= 3
  {
    var unitPrice :- Dec(LStripChars(parts[|parts| - 2], {'$'}));
    var listed :- Dec(RemoveChar(RemoveChar(parts[|parts| - 1], '$'), ','));
    var quantity :- BpasQuantity(parts[|parts| - 3], listed, unitPrice);
    Success((quantity, unitPrice))
  }

  /**
    BPAS: space-separated columns, read from the end.  It always yields the cash
    side and then the trade; BPAS prints terminations and fees unsigned, so
    those are negated.
  */
  function Bpas(row: Row, strptime: Strptime): (r: Result<seq<Transaction>, PyError>)
  {
    var f :- BpasFields(Seqs.Filter(NonEmpty, row), strptime);
    Success(BpasBuild(f))
  }

  /** The reads and lookups of a BPAS row (its empty fields dropped), in the order they raise. */
  function BpasFields(parts: Row, strptime: Strptime): (r: Result<Fields, PyError>)
    ensures r.Success? ==> r.value.other == BpasOther(r.value.transType) != ""
    ensures r.Success? ==> r.value.total == Mul(r.value.quantity, r.value.unitPrice)
  {
    var transType :- Field(parts, -7);
    var date :- DateAt(parts, 0, "%m/%d/%Y", strptime);
    var amounts :- BpasAmounts(parts);
    var quantity, unitPrice := amounts.0, amounts.1;
    var total := Mul(quantity, unitPrice);
    var rawCommodity := Join(FundWords(parts), " ");
    var commodity :- Fund(rawCommodity);
    var other :- OtherAccount(BpasOther(transType), transType);
    Success(Fields(transType, date, quantity, unitPrice, total, commodity, other))
  }

  /** BPAS prints terminations and fees unsigned: the types whose amounts are negated. */
  predicate BpasNegated(transType: string) {
    transType == "Termination" || transType == "Fees" || transType == "OtherFees"
  }

  /** The cash side and then the trade, negated for terminations and fees. */
  function BpasBuild(f: Fields): seq<Transaction> {
    var transType, commodity := f.transType, f.commodity;
    var cashDesc :=
      if transType == "Termination" then "Terminate account"
      else if BpasNegated(transType) then "Pay fees"
      else "Cash from " + transType;
    var transDesc :=
      if transType == "Termination" then "Sell " + commodity + " as part of termination"
      else if BpasNegated(transType) then "Sell " + commodity + " for fees"
      else "Buy " + commodity + " with cash from " + transType;
    var total := if BpasNegated(transType) then -f.total else f.total;
    var quantity := if BpasNegated(transType) then -f.quantity else f.quantity;
    [CashFrom(f.date, cashDesc, BpasAccount, total, f.other),
     Trade(f.date, transDesc, BpasAccount, quantity, commodity, f.unitPrice)]
  }

  const TiaaCrefAccount := "Assets:TIAA CREF:403(b)"

  /** other_accounts: the account on the other side of each transaction type, "" for a type not listed. */
  function TiaaCrefOther(transType: string): string {
    if transType == "Dividends" then "Income:Dividends"
    else if transType == "Long-term capital gains" then "Income:Long Term Capital Gains"
    else if transType == "Short-term capital gains" then "Income:Short Term Capital Gains"
    else if transType == "Contribution" then "Income:Retirement Contributions"
    else if transType == "Transfer" then TiaaCrefAccount
    else if transType == "Plan Servicing Credit" then "Expenses:Retirement Account Fees"
    else ""
  }

  /** TIAA-CREF 403(b): the cash side, then the trade; transfers yield the trade alone. */
  function TiaaCref(parts: Row, strptime: Strptime): (r: Result<seq<Transaction>, PyError>)
  {
    var f :- TiaaCrefFields(parts, strptime);
    Success(TiaaCrefBuild(f))
  }

  /** The reads and lookups of a TIAA-CREF row, in the order they raise. */
  function TiaaCrefFields(parts: Row, strptime: Strptime): (r: Result<Fields, PyError>)
    ensures r.Success? ==> r.value.other == TiaaCrefOther(r.value.transType) != ""
    ensures r.Success? ==> r.value.total == Mul(r.value.quantity, r.value.unitPrice)
  {
    var transType :- Field(parts, 7);
    var date :- DateAt(parts, 0, "%m/%d/%Y", strptime);
    var quantity :- DecimalAt(parts, 5);
    var unitPrice :- DecimalAt(parts, 4);
    var total := Mul(quantity, unitPrice);
    var commodity :- Fund(parts[3]);
    var other :- OtherAccount(TiaaCrefOther(transType), transType);
    Success(Fields(transType, date, quantity, unitPrice, total, commodity, other))
  }

  function TiaaCrefBuild(f: Fields): seq<Transaction> {
    var commodity := f.commodity;
    if f.transType == "Transfer" then
      var desc := if f.quantity < 0.0 then "Transfer out of " + commodity else "Transfer into " + commodity;
      [Trade(f.date, desc, TiaaCrefAccount, f.quantity, commodity, f.unitPrice)]
    else
      [CashFrom(f.date, "Cash from " + f.transType, TiaaCrefAccount, f.total, f.other),
       Trade(f.date, "Buy " + commodity + " with cash from " + f.transType, TiaaCrefAccount, f.quantity, commodity, f.unitPrice)]
  }

  const AmmVanguardAccount := "Assets:Vanguard:AMM Roth IRA"
  const CtcVanguardAccount := "Assets:Vanguard:CTC Roth IRA"

  /** other_accounts of the reinvested types; Exchange and Buy, listed with no account, are handled before the lookup. */
  function VanguardOther(transType: string): string {
    if transType == "Reinvestment" then "Income:Dividends"
    else if transType == "Reinvestment (LT gain)" then "Income:Long Term Capital Gains"
    else if transType == "Reinvestment (ST gain)" then "Income:Short Term Capital Gains"
    else if transType == "Distribution" then "Income:Dividends"
    else ""
  }

  /**
    Vanguard Roth IRAs: dividend and capital-gain rows are skipped, since the
    reinvestment row that follows records them; exchanges and buys move cash
    into the fund within the account.
  */
  function Vanguard(account: string, parts: Row, strptime: Strptime): (r: Result<seq<Transaction>, PyError>)
  {
    var transType :- Field(parts, 3);
    if transType == "Dividend" || StartsWith(transType, "Capital gain") then Success([])
    else
      var date :- DateAt(parts, 2, "%m/%d/%Y", strptime);
      var quantity :- DecimalAt(parts, 7);
      var unitPrice :- DecimalAt(parts, 8);
      var total := Mul(quantity, unitPrice);
      var commodity :- Fund(parts[5]);
      if transType == "Exchange" || transType == "Buy" then
        var desc := if quantity > 0.0 then "Buy " + commodity else "Sell " + commodity;
        Success([Transaction(date, desc, [Posting(account, quantity, Some(commodity), Some(unitPrice)), Cash(account, -total)])])
      else
        var other :- OtherAccount(VanguardOther(transType), transType);
        Success([CashFrom(date, "Cash from " + transType, account, total, other),
                 Trade(date, "Buy " + commodity + " with cash from " + transType, account, quantity, commodity, unitPrice)])
  }

  const CtcIraAccount := "Assets:Vanguard:CTC IRA"

  /** The money-market fund's symbol, which the export leaves out. */
  const MoneyMarket := "VMFXX"

  /** CTC traditional IRA at Vanguard: one transaction per row, with the money-market sweep written out. */
  function CtcIraVanguard(parts: Row, strptime: Strptime): (r: Result<seq<Transaction>, PyError>)
  {
    var f :- CtcIraFields(parts, strptime);
    CtcIraBuild(f)
  }

  /** The columns of a CTC IRA row, with the defaults for what the export leaves out. */
  datatype IraFields = IraFields(transType: string, date: PyDate, quantity: real, total: real, unitPrice: real, commodity: string)

  /** The reads of a CTC IRA row, in the order they raise. */
  function CtcIraFields(parts: Row, strptime: Strptime): (r: Result<IraFields, PyError>)
  {
    var transType :- Field(parts, 3);
    var date :- DateAt(parts, 2, "%m/%d/%Y", strptime);
    var quantityText :- Field(parts, 7);
    var quantity :- if quantityText != "" then Dec(quantityText) else Success(0.0);
    var total :- DecimalAt(parts, 9);
    var unitPrice := if quantity != 0.0 then Abs(total / quantity) else 0.0;
    var commodity := if parts[6] != "" then parts[6] else MoneyMarket;
    Success(IraFields(transType, date, quantity, total, unitPrice, commodity))
  }

  /** The transaction of each type; a type the importer does not know raises. */
  function CtcIraBuild(f: IraFields): (r: Result<seq<Transaction>, PyError>)
  {
    var transType, date, quantity, total, unitPrice, commodity := f.transType, f.date, f.quantity, f.total, f.unitPrice, f.commodity;
    if transType == "Dividend" || transType == "Capital gain (LT)" || transType == "Capital gain (ST)" then
      Success([Transaction(date, "Cash from dividends", [Cash(CtcIraAccount, total), Cash("Income:Dividends", 0.0)])])
    else if transType == "Sweep out" then
      Success([Transaction(date, "Cash out of sweep account",
        [Posting(CtcIraAccount, -total, Some(commodity), Some(unitPrice)), Cash(CtcIraAccount, total)])])
    else if transType == "Sweep in" then
      Success([Transaction(date, "Cash into sweep account",
        [Cash(CtcIraAccount, total), Posting(CtcIraAccount, -total, Some(commodity), Some(unitPrice))])])
    else if transType == "Buy" || transType == "Reinvestment" || transType == "Reinvestment (ST gain)" || transType == "Reinvestment (LT gain)" then
      Success([Transaction(date, "Buy " + commodity,
        [Posting(CtcIraAccount, quantity, Some(commodity), Some(unitPrice)), Cash(CtcIraAccount, total)])])
    else if transType == "Rollover (incoming)" then Success([])
    else Failure(Raised("Unexpected transaction type: " + transType))
  }

  const FidelityAccount := "Assets:Fidelity:401(k)"

  /** other_accounts: the account on the other side of each transaction type, "" for a type not listed. */
  function FidelityOther(transType: string): string {
    if transType == "CONTRIBUTION" then "Income:Retirement Contributions"
    else if transType == "DIVIDEND" then "Income:Dividends"
    else if transType == "ADMINISTRATIVE FEES" then "Expenses:Retirement Account Fees"
    else if transType == "RECORDKEEPING FEE" then "Expenses:Retirement Account Fees"
    else if transType == "ADVISOR FEE" then "Expenses:Retirement Account Fees"
    else if transType == "ADVISOR / CONSULTANT FEE" then "Expenses:Retirement Account Fees"
    else if transType == "Withdrawals" then "Income:Retirement Withdrawals"
    else ""
  }

  /** Fidelity's quoted numbers with thousands separators. */
  function FidelityNumber(parts: Row, i: nat): (r: Result<real, PyError>)
  {
    var text :- Field(parts, i);
    Dec(RemoveChar(Unquote(text), ','))
  }

  /**
    Fidelity 401(k), with the error an unknown fund raises as a parameter:
    the cash side and then the trade; realized gain/loss rows are skipped.
  */
  function FidelityWith(unknownFund: string -> PyError, parts: Row, strptime: Strptime): (r: Result<seq<Transaction>, PyError>)
  {
    var date :- DateAt(parts, 0, "%m/%d/%Y", strptime);
    var transType :- Field(parts, 2);
    if transType == "REALIZED G/L" then Success([])
    else
      var f :- FidelityFields(unknownFund, parts, transType, date);
      FidelityBuild(f)
  }

  /** The amounts and lookups of a Fidelity row after its date and type, in the order they raise. */
  function FidelityFields(unknownFund: string -> PyError, parts: Row, transType: string, date: PyDate): (r: Result<Fields, PyError>)
    requires |parts| >= 3
    ensures r.Success? ==> r.value.transType == transType && r.value.date == date
    ensures r.Success? ==> r.value.other == FidelityOther(transType) != ""
  {
    var total :- FidelityNumber(parts, 3);
    var quantity :- FidelityNumber(parts, 4);
    var unitPrice :- Div(total, quantity);
    var fundName := parts[1];
    var commodity :- if FundSymbol(fundName) != "" then Success(FundSymbol(fundName)) else Failure(unknownFund(fundName));
    var other :- OtherAccount(FidelityOther(transType), transType);
    Success(Fields(transType, date, quantity, unitPrice, total, commodity, other))
  }

  /** The cash side and then the trade, described by the kind of type. */
  function FidelityBuild(f: Fields): (r: Result<seq<Transaction>, PyError>)
  {
    var transType, commodity := f.transType, f.commodity;
    var descs :-
      if transType == "CONTRIBUTION" || transType == "DIVIDEND" then
        Success(("Cash from " + transType, "Buy " + commodity + " with cash from " + transType))
      else if transType == "ADMINISTRATIVE FEES" || transType == "RECORDKEEPING FEE" || transType == "ADVISOR FEE" || transType == "ADVISOR / CONSULTANT FEE" then
        Success(("Pay fees", "Sell " + commodity + " for fees"))
      else if transType == "Withdrawals" then
        Success(("Withdraw funds", "Sell " + commodity + " for withdrawal"))
      else Failure(Raised("Unknown trans_type: " + transType));
    Success([CashFrom(f.date, descs.0, FidelityAccount, f.total, f.other),
             Trade(f.date, descs.1, FidelityAccount, f.quantity, commodity, f.unitPrice)])
  }

  /** The source as written: the unknown-fund message names `raw_commodity`, which this method never defines. */
  function FidelityAsWritten(parts: Row, strptime: Strptime): Result<seq<Transaction>, PyError> {
    FidelityWith(_ => NameError("raw_commodity"), parts, strptime)
  }

  /** The evidently intended behaviour: an unknown fund raises "Unknown fund: " and its name. */
  function Fidelity(parts: Row, strptime: Strptime): Result<seq<Transaction>, PyError> {
    FidelityWith(name => Raised("Unknown fund: " + name), parts, strptime)
  }
}

