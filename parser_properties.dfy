/** What each importer's make_transactions promises about the rows it reads. */
module ParserProperties {
  import opened Wrappers
  import opened Text
  import opened PyBase
  import opened ImportModel
  import opened InputParsers
  import Calendar

  // ---------------------------------------------------------------- checking and credit cards

  /**
    NECU: a row of six or more fields with a date and an amount gives one
    transaction with one posting; DR rows are negated, every other row keeps its sign.
  */
  lemma NecuSign(account: string, parts: Row, strptime: Strptime)
    ensures var r := Necu(account, parts, strptime);
      r.Success? <==> |parts| >= 6 && strptime(parts[1], "%m/%d/%y").Some? && ParseDecimal(parts[4]).Some?
    ensures var r := Necu(account, parts, strptime);
      r.Success? ==>
        var amount := ParseDecimal(parts[4]).value;
        |r.value| == 1 && r.value[0].date == strptime(parts[1], "%m/%d/%y").value &&
        r.value[0].desc == Unquote(parts[3]) && |r.value[0].postings| == 1 &&
        r.value[0].postings[0] == Cash(account, if parts[5] == "DR" then -amount else amount)
  {
  }

  /** A NECU debit row is one withdrawal of its amount, described by its unquoted description. */
  lemma NecuDebit(account: string, parts: Row, strptime: Strptime, date: PyDate, amount: real)
    requires |parts| >= 6 && parts[5] == "DR"
    requires strptime(parts[1], "%m/%d/%y") == Some(date) && ParseDecimal(parts[4]) == Some(amount)
    ensures Necu(account, parts, strptime) == Success([Transaction(date, Unquote(parts[3]), [Cash(account, -amount)])])
  {
    NecuSign(account, parts, strptime);
  }

  // The row of the NECU example: a bill payment of 68.47 from checking.
  const NecuExampleDesc := "FairPoint Communi Bill Pmt W/D"
  const NecuExampleAmountText := "000000068.47"
  const NecuExampleRow: Row := ["0056531888 S02", "02/26/16", "0000000000", NecuExampleDesc, NecuExampleAmountText, "DR"]

  /** The NECU example row: a 68.47 debit is a withdrawal of 68.47 from checking. */
  lemma NecuExample(parts: Row, strptime: Strptime)
    requires parts == NecuExampleRow
    requires strptime("02/26/16", "%m/%d/%y") == Some(Calendar.Date(2016, 2, 26))
    ensures Necu(NecuChecking, parts, strptime)
      == Success([Transaction(Calendar.Date(2016, 2, 26), NecuExampleDesc, [Cash("Assets:NECU:Checking", -68.47)])])
  {
    assert |parts| == 6 && parts[1] == "02/26/16" && parts[3] == NecuExampleDesc;
    assert parts[4] == NecuExampleAmountText && parts[5] == "DR";
    var date: PyDate := Calendar.Date(2016, 2, 26);
    NecuExampleAmount();
    NecuExampleUnquoted();
    NecuDebit(NecuChecking, parts, strptime, date, 68.47);
  }

  /** The example's description has no quotes to strip. */
  lemma NecuExampleUnquoted()
    ensures Unquote(NecuExampleDesc) == NecuExampleDesc
  {
    assert forall i :: 0 <= i < |NecuExampleDesc| ==> NecuExampleDesc[i] != '"';
    NoQuotes(NecuExampleDesc);
  }

  /** The digits of the example's amount. */
  lemma NecuExampleDigits()
    ensures DigitsValue("000000068") == 68 && DigitsValue("47") == 47
  {
    assert DigitsValue("0") == 0;
    assert "00"[..1] == "0";
    assert DigitsValue("00") == 0;
    assert "000"[..2] == "00";
    assert DigitsValue("000") == 0;
    assert "0000"[..3] == "000";
    assert DigitsValue("0000") == 0;
    assert "00000"[..4] == "0000";
    assert DigitsValue("00000") == 0;
    assert "000000"[..5] == "00000";
    assert DigitsValue("000000") == 0;
    assert "0000000"[..6] == "000000";
    assert DigitsValue("0000000") == 0;
    assert "00000006"[..7] == "0000000";
    assert DigitsValue("00000006") == 6;
    assert "000000068"[..8] == "00000006";
    assert DigitsValue("4") == 4;
    assert "47"[..1] == "4";
  }

  /** The example's amount column reads as 68.47. */
  lemma NecuExampleAmount()
    ensures ParseDecimal(NecuExampleAmountText) == Some(68.47)
  {
    var whole, frac := "000000068", "47";
    assert NecuExampleAmountText == DecimalText(false, whole, frac);
    ParseDecimalText(false, whole, frac);
    NecuExampleValue(whole, frac);
  }

  lemma NecuExampleValue(whole: string, frac: string)
    requires whole == "000000068" && frac == "47"
    ensures SignedValue(false, whole, frac) == 68.47
  {
    NecuExampleDigits();
    assert Pow10(2) == 100;
  }

  /** A description without quote characters survives strip('"'). */
  lemma NoQuotes(s: string)
    requires forall i :: 0 <= i < |s| ==> s[i] != '"'
    ensures Unquote(s) == s
  {
  }

  /** U.S. Bank: one transaction whose single posting is the amount after trunc, read as a decimal. */
  lemma UsBankShape(parts: Row, strptime: Strptime)
    ensures var r := UsBank(parts, strptime);
      r.Success? <==> |parts| >= 5 && strptime(parts[0], "%m/%d/%Y").Some? && ParseDecimal(Trunc(parts[4])).Some?
    ensures var r := UsBank(parts, strptime);
      r.Success? ==>
        r.value == [Transaction(strptime(parts[0], "%m/%d/%Y").value, Unquote(parts[2]),
                                [Cash(UsBankAccount, ParseDecimal(Trunc(parts[4])).value)])]
  {
  }

  /** So a well-formed decimal amount is booked at the value it reads as, whether or not trunc cut it. */
  lemma UsBankAmount(parts: Row, strptime: Strptime, negative: bool, whole: string, frac: string)
    requires |parts| >= 5 && strptime(parts[0], "%m/%d/%Y").Some?
    requires AllDigits(whole) && AllDigits(frac) && whole != [] && parts[4] == DecimalText(negative, whole, frac)
    ensures UsBank(parts, strptime).Success?
    ensures UsBank(parts, strptime).value[0].postings == [Cash(UsBankAccount, SignedValue(negative, whole, frac))]
  {
    TruncKeepsValue(negative, whole, frac);
    ParseDecimalText(negative, whole, frac);
    UsBankShape(parts, strptime);
  }

  /** Ally: one transaction whose single posting is the signed amount column. */
  lemma AllyShape(account: string, parts: Row, strptime: Strptime)
    ensures var r := Ally(account, parts, strptime);
      r.Success? <==> |parts| >= 5 && strptime(parts[0], "%Y-%m-%d").Some? && ParseDecimal(parts[2]).Some?
    ensures var r := Ally(account, parts, strptime);
      r.Success? ==>
        r.value == [Transaction(strptime(parts[0], "%Y-%m-%d").value, Unquote(parts[4]),
                                [Cash(account, ParseDecimal(parts[2]).value)])]
  {
  }

  /**
    Kennebunk: a non-empty debit column is booked negated; otherwise the credit
    column is booked as it reads.  An unreadable column of the two raises.
  */
  lemma KennebunkDebitCredit(parts: Row, strptime: Strptime)
    ensures var r := Kennebunk(parts, strptime);
      r.Success? <==> (|parts| >= 7 && strptime(parts[5], "%m/%d/%Y").Some? &&
                       ParseDecimal(if parts[2] != "" then parts[2] else parts[3]).Some?)
    ensures var r := Kennebunk(parts, strptime);
      r.Success? ==>
        var amount := ParseDecimal(if parts[2] != "" then parts[2] else parts[3]).value;
        r.value == [Transaction(strptime(parts[5], "%m/%d/%Y").value, Unquote(parts[6]),
                                [Cash(KennebunkAccount, if parts[2] != "" then -amount else amount)])]
  {
  }

  // ---------------------------------------------------------------- Wells Fargo

  /** The columns a Wells Fargo row needs before any lookup: a date, a quantity and a unit price. */
  predicate WellsFargoReadable(parts: Row, strptime: Strptime) {
    |parts| >= 6 && strptime(parts[0], "%Y%m%d").Some? && ParseDecimal(parts[4]).Some? &&
    ParseDecimal(LStripChars(parts[5], {'$'})).Some?
  }

  /**
    The fields of a row are read when its columns are, the fund is listed and the
    type has another account; an unknown fund raises first, then an unexpected type.
  */
  lemma WellsFargoFieldsSpec(parts: Row, strptime: Strptime)
    ensures var r := WellsFargoFields(parts, strptime);
      r.Success? <==> (WellsFargoReadable(parts, strptime) && FundSymbol(parts[1]) != "" && WellsFargoOther(parts[2]) != "")
    ensures var r := WellsFargoFields(parts, strptime);
      r.Success? ==>
        var quantity := ParseDecimal(parts[4]).value;
        var unitPrice := ParseDecimal(LStripChars(parts[5], {'$'})).value;
        r.value.transType == parts[2] && r.value.date == strptime(parts[0], "%Y%m%d").value &&
        r.value.quantity == quantity && r.value.unitPrice == unitPrice && r.value.total == Mul(quantity, unitPrice) &&
        r.value.commodity == FundSymbol(parts[1]) && r.value.other == WellsFargoOther(parts[2])
    ensures WellsFargoReadable(parts, strptime) && FundSymbol(parts[1]) == "" ==>
      WellsFargoFields(parts, strptime) == Failure(Raised("Unknown fund: " + parts[1]))
    ensures WellsFargoReadable(parts, strptime) && FundSymbol(parts[1]) != "" && WellsFargoOther(parts[2]) == "" ==>
      WellsFargoFields(parts, strptime) == Failure(Raised("Unexpected transaction type: " + parts[2]))
  {
    if WellsFargoReadable(parts, strptime) && FundSymbol(parts[1]) != "" && WellsFargoOther(parts[2]) != "" {
      WellsFargoFieldsRead(parts, strptime, strptime(parts[0], "%Y%m%d").value,
        ParseDecimal(parts[4]).value, ParseDecimal(LStripChars(parts[5], {'$'})).value);
    }
  }

  lemma WellsFargoFieldsRead(parts: Row, strptime: Strptime, date: PyDate, quantity: real, unitPrice: real)
    requires |parts| >= 6 && strptime(parts[0], "%Y%m%d") == Some(date) && ParseDecimal(parts[4]) == Some(quantity)
    requires ParseDecimal(LStripChars(parts[5], {'$'})) == Some(unitPrice)
    requires FundSymbol(parts[1]) != "" && WellsFargoOther(parts[2]) != ""
    ensures var r := WellsFargoFields(parts, strptime);
      r.Success? && r.value.transType == parts[2] && r.value.date == date &&
      r.value.quantity == quantity && r.value.unitPrice == unitPrice &&
      r.value.commodity == FundSymbol(parts[1]) && r.value.other == WellsFargoOther(parts[2])
  {
    assert Field(parts, 2) == Success(parts[2]);
    assert DateAt(parts, 0, "%Y%m%d", strptime) == Success(date);
    assert DecimalAt(parts, 4) == Success(quantity);
    assert Field(parts, 5) == Success(parts[5]);
    assert Dec(LStripChars(parts[5], {'$'})) == Success(unitPrice);
    assert Fund(parts[1]) == Success(FundSymbol(parts[1]));
    assert OtherAccount(WellsFargoOther(parts[2]), parts[2]) == Success(WellsFargoOther(parts[2]));
  }

  /**
    Every type but Transfers gives a trade and its cash side: the cash comes
    first for Earnings and Contributions and after the trade for payouts and
    fees.  The pending transfer is left alone.
  */
  lemma WellsFargoPlacement(previous: Option<real>, f: Fields)
    requires f.transType != "Transfers"
    ensures WellsFargoBuild(previous, f).Success?
    ensures var out := WellsFargoBuild(previous, f).value;
      var cashAt := if f.transType == "Earnings" || f.transType == "Contributions" then 0 else 1;
      out.previous == previous && |out.transactions| == 2 &&
      IsCash(out.transactions[cashAt]) && IsTrade(out.transactions[1 - cashAt]) &&
      out.transactions[cashAt].postings == [Cash(WellsFargoAccount, f.total), Cash(f.other, 0.0)] &&
      out.transactions[1 - cashAt].postings[0] == Posting(WellsFargoAccount, f.quantity, Some(f.commodity), Some(f.unitPrice)) &&
      out.transactions[0].date == f.date && out.transactions[1].date == f.date
  {
  }

  /** The first transfer of a pair is the trade alone, and leaves its total pending. */
  lemma WellsFargoFirstTransfer(f: Fields)
    requires f.transType == "Transfers"
    ensures WellsFargoBuild(None, f).Success?
    ensures var out := WellsFargoBuild(None, f).value;
      out.previous == Some(f.total) && |out.transactions| == 1 && IsTrade(out.transactions[0]) &&
      out.transactions[0].postings[0] == Posting(WellsFargoAccount, f.quantity, Some(f.commodity), Some(f.unitPrice))
  {
  }

  /**
    The second transfer keeps its quantity and takes the unit price that makes
    its total the negated pending one; nothing is pending after it.  A zero
    quantity raises, as Decimal division by zero does.
  */
  lemma WellsFargoSecondTransfer(pending: real, f: Fields)
    requires f.transType == "Transfers"
    ensures var r := WellsFargoBuild(Some(pending), f);
      (r.Success? <==> f.quantity != 0.0) && (r.Failure? ==> r.error == DivisionByZero)
    ensures var r := WellsFargoBuild(Some(pending), f);
      r.Success? ==>
        r.value.previous.None? && |r.value.transactions| == 1 && IsTrade(r.value.transactions[0]) &&
        var trade := r.value.transactions[0].postings[0];
        trade.account == WellsFargoAccount && trade.quantity == f.quantity && trade.commodity == Some(f.commodity) &&
        trade.quantity * trade.unitPrice.value == -pending
  {
    if f.quantity != 0.0 {
      DivBack(-pending, f.quantity);
    }
  }

  lemma DivBack(a: real, b: real)
    requires b != 0.0
    ensures b * (a / b) == a
  {
  }

  /** So the two trades of a transfer pair cancel exactly: the value moved out is the value moved in. */
  lemma WellsFargoTransferPair(f1: Fields, f2: Fields)
    requires f1.transType == "Transfers" && f2.transType == "Transfers" && f2.quantity != 0.0
    requires f1.total == f1.quantity * f1.unitPrice
    ensures WellsFargoBuild(None, f1).Success?
    ensures var first := WellsFargoBuild(None, f1).value;
      var second := WellsFargoBuild(first.previous, f2);
      second.Success? && second.value.previous.None? &&
      var p1 := first.transactions[0].postings[0];
      var p2 := second.value.transactions[0].postings[0];
      p1.quantity * p1.unitPrice.value + p2.quantity * p2.unitPrice.value == 0.0
  {
    WellsFargoFirstTransfer(f1);
    WellsFargoSecondTransfer(f1.total, f2);
  }

  // ---------------------------------------------------------------- BPAS

  /** A NaN quantity is the listed total over the unit price, to four places; a zero price raises. */
  lemma BpasNaNQuantity(total: real, unitPrice: real)
    ensures var r := BpasQuantity("NaN", total, unitPrice);
      (r.Success? <==> unitPrice != 0.0) && (r.Failure? ==> r.error == DivisionByZero) &&
      (r.Success? ==> -0.00005 <= r.value - total / unitPrice <= 0.00005)
  {
  }

  /** Any other quantity column is read as a decimal. */
  lemma BpasListedQuantity(text: string, total: real, unitPrice: real)
    requires text != "NaN"
    ensures BpasQuantity(text, total, unitPrice) == Dec(text)
  {
  }

  /** The columns a BPAS row needs before any lookup: the type, a date, the quantity and the unit price. */
  predicate BpasReadable(parts: Row, strptime: Strptime) {
    |parts| >= 7 && strptime(parts[0], "%m/%d/%Y").Some? && BpasAmounts(parts).Success?
  }

  /**
    The fields of a BPAS row are read when its columns are, the fund named by
    the words between the date and the type is listed and the type has another
    account; an unknown fund raises first, then an unexpected type.
  */
  lemma BpasFieldsSpec(parts: Row, strptime: Strptime)
    ensures var r := BpasFields(parts, strptime);
      r.Success? <==> (BpasReadable(parts, strptime) && FundSymbol(Join(FundWords(parts), " ")) != "" &&
                       BpasOther(parts[|parts| - 7]) != "")
    ensures var r := BpasFields(parts, strptime);
      r.Success? ==>
        r.value.transType == parts[|parts| - 7] && r.value.date == strptime(parts[0], "%m/%d/%Y").value &&
        r.value.quantity == BpasAmounts(parts).value.0 && r.value.unitPrice == BpasAmounts(parts).value.1 &&
        r.value.commodity == FundSymbol(Join(FundWords(parts), " "))
    ensures BpasReadable(parts, strptime) && FundSymbol(Join(FundWords(parts), " ")) == "" ==>
      BpasFields(parts, strptime) == Failure(Raised("Unknown fund: " + Join(FundWords(parts), " ")))
    ensures BpasReadable(parts, strptime) && FundSymbol(Join(FundWords(parts), " ")) != "" && BpasOther(parts[|parts| - 7]) == "" ==>
      BpasFields(parts, strptime) == Failure(Raised("Unexpected transaction type: " + parts[|parts| - 7]))
  {
  }

  /** A BPAS row always gives the cash side and then the trade, negated exactly for terminations and fees. */
  lemma BpasOrder(f: Fields)
    ensures var ts := BpasBuild(f);
      |ts| == 2 && IsCash(ts[0]) && IsTrade(ts[1]) && ts[0].date == f.date && ts[1].date == f.date &&
      ts[0].postings == [Cash(BpasAccount, if BpasNegated(f.transType) then -f.total else f.total), Cash(f.other, 0.0)] &&
      ts[1].postings[0] == Posting(BpasAccount, if BpasNegated(f.transType) then -f.quantity else f.quantity, Some(f.commodity), Some(f.unitPrice))
  {
  }

  /** So the cash side of a BPAS row is always its trade's quantity at its unit price. */
  lemma BpasBalanced(f: Fields)
    requires f.total == Mul(f.quantity, f.unitPrice)
    ensures var ts := BpasBuild(f);
      ts[0].postings[0].quantity == ts[1].postings[0].quantity * ts[1].postings[0].unitPrice.value
  {
    BpasOrder(f);
    NegatedProduct(f.quantity, f.unitPrice);
  }

  lemma NegatedProduct(q: real, u: real)
    ensures -Mul(q, u) == -q * u && Mul(q, u) == q * u
  {
  }

  // ---------------------------------------------------------------- TIAA-CREF

  /** The columns a TIAA-CREF row needs before any lookup: the type, a date, the quantity and the unit price. */
  predicate TiaaCrefReadable(parts: Row, strptime: Strptime) {
    |parts| >= 8 && strptime(parts[0], "%m/%d/%Y").Some? && ParseDecimal(parts[5]).Some? && ParseDecimal(parts[4]).Some?
  }

  /** The fields are read when the columns are, the fund is listed and the type has another account. */
  lemma TiaaCrefFieldsSpec(parts: Row, strptime: Strptime)
    ensures var r := TiaaCrefFields(parts, strptime);
      r.Success? <==> (TiaaCrefReadable(parts, strptime) && FundSymbol(parts[3]) != "" && TiaaCrefOther(parts[7]) != "")
    ensures var r := TiaaCrefFields(parts, strptime);
      r.Success? ==>
        r.value.transType == parts[7] && r.value.date == strptime(parts[0], "%m/%d/%Y").value &&
        r.value.quantity == ParseDecimal(parts[5]).value && r.value.unitPrice == ParseDecimal(parts[4]).value &&
        r.value.commodity == FundSymbol(parts[3])
    ensures TiaaCrefReadable(parts, strptime) && FundSymbol(parts[3]) == "" ==>
      TiaaCrefFields(parts, strptime) == Failure(Raised("Unknown fund: " + parts[3]))
    ensures TiaaCrefReadable(parts, strptime) && FundSymbol(parts[3]) != "" && TiaaCrefOther(parts[7]) == "" ==>
      TiaaCrefFields(parts, strptime) == Failure(Raised("Unexpected transaction type: " + parts[7]))
  {
  }

  /** A transfer is the trade alone; every other type is the cash side and then the trade. */
  lemma TiaaCrefOrder(f: Fields)
    ensures var ts := TiaaCrefBuild(f);
      var trade := Posting(TiaaCrefAccount, f.quantity, Some(f.commodity), Some(f.unitPrice));
      if f.transType == "Transfer" then
        |ts| == 1 && IsTrade(ts[0]) && ts[0].postings[0] == trade
      else
        |ts| == 2 && IsCash(ts[0]) && IsTrade(ts[1]) &&
        ts[0].postings == [Cash(TiaaCrefAccount, f.total), Cash(f.other, 0.0)] && ts[1].postings[0] == trade
  {
  }

  // ---------------------------------------------------------------- Vanguard

  /** Dividend and capital-gain rows give nothing, whatever the rest of the row holds. */
  lemma VanguardSkipped(account: string, parts: Row, strptime: Strptime)
    requires |parts| >= 4 && (parts[3] == "Dividend" || StartsWith(parts[3], "Capital gain"))
    ensures Vanguard(account, parts, strptime) == Success([])
  {
  }

  /** The columns a Vanguard row needs before any lookup: a date, the quantity and the unit price. */
  predicate VanguardReadable(parts: Row, strptime: Strptime) {
    |parts| >= 9 && strptime(parts[2], "%m/%d/%Y").Some? && ParseDecimal(parts[7]).Some? && ParseDecimal(parts[8]).Some?
  }

  /**
    An exchange or a buy is one transaction within the account: the fund
    bought or sold at its unit price and the cash that pays for it.
  */
  lemma VanguardExchange(account: string, parts: Row, strptime: Strptime)
    requires |parts| >= 4 && (parts[3] == "Exchange" || parts[3] == "Buy")
    ensures var r := Vanguard(account, parts, strptime);
      r.Success? <==> (VanguardReadable(parts, strptime) && FundSymbol(parts[5]) != "")
    ensures var r := Vanguard(account, parts, strptime);
      r.Success? ==>
        var quantity, unitPrice := ParseDecimal(parts[7]).value, ParseDecimal(parts[8]).value;
        |r.value| == 1 && r.value[0].date == strptime(parts[2], "%m/%d/%Y").value && |r.value[0].postings| == 2 &&
        r.value[0].postings[0] == Posting(account, quantity, Some(FundSymbol(parts[5])), Some(unitPrice)) &&
        r.value[0].postings[1] == Cash(account, -Mul(quantity, unitPrice))
  {
    if VanguardReadable(parts, strptime) && FundSymbol(parts[5]) != "" {
      VanguardExchangeRead(account, parts, strptime, strptime(parts[2], "%m/%d/%Y").value,
        ParseDecimal(parts[7]).value, ParseDecimal(parts[8]).value);
    }
  }

  lemma VanguardExchangeRead(account: string, parts: Row, strptime: Strptime, date: PyDate, quantity: real, unitPrice: real)
    requires |parts| >= 9 && (parts[3] == "Exchange" || parts[3] == "Buy")
    requires strptime(parts[2], "%m/%d/%Y") == Some(date)
    requires ParseDecimal(parts[7]) == Some(quantity) && ParseDecimal(parts[8]) == Some(unitPrice)
    requires FundSymbol(parts[5]) != ""
    ensures var r := Vanguard(account, parts, strptime);
      r.Success? && |r.value| == 1 && r.value[0].date == date && |r.value[0].postings| == 2 &&
      r.value[0].postings[0] == Posting(account, quantity, Some(FundSymbol(parts[5])), Some(unitPrice)) &&
      r.value[0].postings[1] == Cash(account, -Mul(quantity, unitPrice))
  {
    assert !StartsWith(parts[3], "Capital gain");
    assert Field(parts, 3) == Success(parts[3]);
    assert DateAt(parts, 2, "%m/%d/%Y", strptime) == Success(date);
    assert DecimalAt(parts, 7) == Success(quantity) && DecimalAt(parts, 8) == Success(unitPrice);
    assert Fund(parts[5]) == Success(FundSymbol(parts[5]));
  }

  /**
    Every other type is reinvested income: the cash side and then the trade.
    An unknown fund raises, then a type with no other account.
  */
  lemma VanguardReinvestment(account: string, parts: Row, strptime: Strptime)
    requires |parts| >= 4 && parts[3] != "Dividend" && !StartsWith(parts[3], "Capital gain")
    requires parts[3] != "Exchange" && parts[3] != "Buy"
    ensures var r := Vanguard(account, parts, strptime);
      r.Success? <==> (VanguardReadable(parts, strptime) && FundSymbol(parts[5]) != "" && VanguardOther(parts[3]) != "")
    ensures var r := Vanguard(account, parts, strptime);
      r.Success? ==>
        var quantity, unitPrice := ParseDecimal(parts[7]).value, ParseDecimal(parts[8]).value;
        |r.value| == 2 && IsCash(r.value[0]) && IsTrade(r.value[1]) &&
        r.value[0].postings == [Cash(account, Mul(quantity, unitPrice)), Cash(VanguardOther(parts[3]), 0.0)] &&
        r.value[1].postings[0] == Posting(account, quantity, Some(FundSymbol(parts[5])), Some(unitPrice))
    ensures VanguardReadable(parts, strptime) && FundSymbol(parts[5]) == "" ==>
      Vanguard(account, parts, strptime) == Failure(Raised("Unknown fund: " + parts[5]))
    ensures VanguardReadable(parts, strptime) && FundSymbol(parts[5]) != "" && VanguardOther(parts[3]) == "" ==>
      Vanguard(account, parts, strptime) == Failure(Raised("Unexpected transaction type: " + parts[3]))
  {
  }

  // ---------------------------------------------------------------- CTC traditional IRA at Vanguard

  /** The columns a CTC IRA row needs: a date, a quantity (or nothing) and a total. */
  predicate CtcIraReadable(parts: Row, strptime: Strptime) {
    |parts| >= 10 && strptime(parts[2], "%m/%d/%Y").Some? &&
    (parts[7] == "" || ParseDecimal(parts[7]).Some?) && ParseDecimal(parts[9]).Some?
  }

  predicate CtcIraBuyType(transType: string) {
    transType == "Buy" || transType == "Reinvestment" || transType == "Reinvestment (ST gain)" || transType == "Reinvestment (LT gain)"
  }

  /** The types the importer knows. */
  predicate CtcIraKnownType(transType: string) {
    transType == "Dividend" || transType == "Capital gain (LT)" || transType == "Capital gain (ST)" ||
    transType == "Sweep out" || transType == "Sweep in" || CtcIraBuyType(transType) || transType == "Rollover (incoming)"
  }

  /**
    The export leaves the money-market symbol and some quantities out: a
    missing symbol stands for VMFXX, and a missing quantity is zero with a zero
    unit price, no division being made.  Otherwise the unit price is the total
    per unit, made positive.
  */
  lemma CtcIraFieldsSpec(parts: Row, strptime: Strptime)
    ensures var r := CtcIraFields(parts, strptime);
      r.Success? <==> CtcIraReadable(parts, strptime)
    ensures var r := CtcIraFields(parts, strptime);
      r.Success? ==> (|parts| >= 10 &&
        r.value.transType == parts[3] && r.value.date == strptime(parts[2], "%m/%d/%Y").value &&
        r.value.total == ParseDecimal(parts[9]).value &&
        r.value.commodity == (if parts[6] != "" then parts[6] else MoneyMarket) &&
        (parts[7] == "" ==> r.value.quantity == 0.0 && r.value.unitPrice == 0.0) &&
        (parts[7] != "" ==> r.value.quantity == ParseDecimal(parts[7]).value) &&
        r.value.unitPrice >= 0.0 &&
        (r.value.quantity != 0.0 ==> r.value.unitPrice == Abs(r.value.total / r.value.quantity)))
  {
  }

  /**
    A known type gives one transaction of two postings, a rollover gives
    nothing, and any other type raises.  The fund posting carries the row's
    symbol and unit price; a buy books the row's quantity, and a sweep's two
    postings cancel.
  */
  lemma CtcIraTypes(f: IraFields)
    ensures var r := CtcIraBuild(f);
      (r.Success? <==> CtcIraKnownType(f.transType)) &&
      (r.Failure? ==> r.error == Raised("Unexpected transaction type: " + f.transType)) &&
      (f.transType == "Rollover (incoming)" ==> r == Success([]))
    ensures var r := CtcIraBuild(f);
      r.Success? && f.transType != "Rollover (incoming)" ==> (|r.value| == 1 && |r.value[0].postings| == 2 &&
        r.value[0].date == f.date &&
        forall p :: p in r.value[0].postings && p.commodity.Some? ==>
          p.commodity == Some(f.commodity) && p.unitPrice == Some(f.unitPrice) &&
          (CtcIraBuyType(f.transType) ==> p.quantity == f.quantity))
    ensures var r := CtcIraBuild(f);
      r.Success? && (f.transType == "Sweep out" || f.transType == "Sweep in") ==>
        r.value[0].postings[0].quantity + r.value[0].postings[1].quantity == 0.0
  {
  }

  // ---------------------------------------------------------------- Fidelity

  /** Realized gain/loss rows give nothing once their date reads. */
  lemma FidelityRealized(unknownFund: string -> PyError, parts: Row, strptime: Strptime)
    requires |parts| >= 3 && strptime(parts[0], "%m/%d/%Y").Some? && parts[2] == "REALIZED G/L"
    ensures FidelityWith(unknownFund, parts, strptime) == Success([])
  {
  }

  /** The amounts a Fidelity row needs before any lookup: the total and the quantity. */
  predicate FidelityReadable(parts: Row) {
    |parts| >= 5 && FidelityNumber(parts, 3).Success? && FidelityNumber(parts, 4).Success?
  }

  /**
    The fields are read when the amounts are, the quantity is not zero, the
    fund is listed and the type has another account.  The unit price is the
    total per unit.  A zero quantity raises, then an unknown fund with the
    error given for it, then an unexpected type.
  */
  lemma FidelityFieldsSpec(unknownFund: string -> PyError, parts: Row, transType: string, date: PyDate)
    requires |parts| >= 3
    ensures var r := FidelityFields(unknownFund, parts, transType, date);
      r.Success? <==> (FidelityReadable(parts) && FidelityNumber(parts, 4).value != 0.0 &&
                       FundSymbol(parts[1]) != "" && FidelityOther(transType) != "")
    ensures var r := FidelityFields(unknownFund, parts, transType, date);
      r.Success? ==> (FidelityReadable(parts) &&
        r.value.total == FidelityNumber(parts, 3).value && r.value.quantity == FidelityNumber(parts, 4).value &&
        r.value.quantity != 0.0 && r.value.unitPrice == r.value.total / r.value.quantity &&
        r.value.commodity == FundSymbol(parts[1]))
    ensures FidelityReadable(parts) && FidelityNumber(parts, 4).value == 0.0 ==>
      FidelityFields(unknownFund, parts, transType, date) == Failure(DivisionByZero)
    ensures FidelityReadable(parts) && FidelityNumber(parts, 4).value != 0.0 && FundSymbol(parts[1]) == "" ==>
      FidelityFields(unknownFund, parts, transType, date) == Failure(unknownFund(parts[1]))
    ensures FidelityReadable(parts) && FidelityNumber(parts, 4).value != 0.0 && FundSymbol(parts[1]) != "" && FidelityOther(transType) == "" ==>
      FidelityFields(unknownFund, parts, transType, date) == Failure(Raised("Unexpected transaction type: " + transType))
  {
  }

  /** So the trade of a Fidelity row is worth its cash side. */
  lemma FidelityBalanced(f: Fields)
    requires f.quantity != 0.0 && f.unitPrice == f.total / f.quantity
    ensures f.quantity * f.unitPrice == f.total
  {
    DivBack(f.total, f.quantity);
  }

  /**
    Every type with another account has descriptions, so the final check for
    an unknown type never raises: a row that reaches it gives the cash side and
    then the trade.
  */
  lemma FidelityBuildSucceeds(f: Fields)
    requires FidelityOther(f.transType) != ""
    ensures var r := FidelityBuild(f);
      r.Success? && |r.value| == 2 && IsCash(r.value[0]) && IsTrade(r.value[1]) &&
      r.value[0].postings == [Cash(FidelityAccount, f.total), Cash(f.other, 0.0)] &&
      r.value[1].postings[0] == Posting(FidelityAccount, f.quantity, Some(f.commodity), Some(f.unitPrice))
  {
  }

  /** The row that shows the finding: an unknown fund, with every column before the lookup readable. */
  predicate FidelityUnknownFundRow(parts: Row, strptime: Strptime) {
    FidelityReadable(parts) && strptime(parts[0], "%m/%d/%Y").Some? && parts[2] != "REALIZED G/L" &&
    FidelityNumber(parts, 4).value != 0.0 && FundSymbol(parts[1]) == ""
  }

  /**
    As written, the unknown-fund message is built from `raw_commodity`, a
    name this method never binds, so such a row raises NameError instead of
    reporting the fund.
  */
  lemma FidelityUnknownFundAsWritten(parts: Row, strptime: Strptime)
    requires FidelityUnknownFundRow(parts, strptime)
    ensures FidelityAsWritten(parts, strptime) == Failure(NameError("raw_commodity"))
  {
    FidelityFieldsSpec(_ => NameError("raw_commodity"), parts, parts[2], strptime(parts[0], "%m/%d/%Y").value);
  }

  /** Corrected, the same row raises the "Unknown fund: " message with the fund's name, as every other importer does. */
  lemma FidelityUnknownFund(parts: Row, strptime: Strptime)
    requires FidelityUnknownFundRow(parts, strptime)
    ensures Fidelity(parts, strptime) == Failure(Raised("Unknown fund: " + parts[1]))
  {
    FidelityFieldsSpec(name => Raised("Unknown fund: " + name), parts, parts[2], strptime(parts[0], "%m/%d/%Y").value);
  }
}
