/**
  Parser.parse_file: the rows of an export, minus the header rows, reordered
  into date order and filtered down to the data rows, each turned into
  transactions by the institution's make_transactions.
*/
module ParseFile {
  import opened Wrappers
  import opened PyBase
  import opened ImportModel
  import P = InputParsers
  import Seqs
  import Sorting
  import Calendar
  import Folds

  type Row = seq<string>

  /** reorder: the rows as read, reversed (the exports list the newest first), or sorted by date. */
  datatype Order = AsRead | Reversed | ByDate

  /** make_transactions: a function of the row, or the Wells Fargo method that also keeps state. */
  datatype Maker =
    | Plain(make: (Row, Strptime) -> Result<seq<Transaction>, PyError>)
    | WellsFargoRows

  /** A parser class: the class attributes parse_file consults and its make_transactions. */
  datatype ParserClass = ParserClass(
    firstHeaderFields: set<string>, fieldCounts: Option<set<int>>, headerOffset: nat, order: Order, maker: Maker)

  const NecuParser := ParserClass({"Account Designator"}, None, 0, Reversed,
    Plain((parts: Row, strptime: Strptime) => P.Necu(P.NecuChecking, parts, strptime)))
  const NecuSilverLiningParser := NecuParser.(maker := Plain((parts: Row, strptime: Strptime) => P.Necu(P.NecuSilverLining, parts, strptime)))
  const UsBankParser := ParserClass({"Date"}, None, 0, AsRead, Plain(P.UsBank))

  /** An Ally subclass, which sets only the account. */
  function AllyParser(account: string): ParserClass {
    ParserClass({"Date"}, None, 0, Reversed, Plain((parts: Row, strptime: Strptime) => P.Ally(account, parts, strptime)))
  }

  const AllyMoneyMarketParser := AllyParser(P.AllyMoneyMarket)
  const AllyOnlineSavingsParser := AllyParser(P.AllyOnlineSavings)
  const AllyCD1Parser := AllyParser(P.AllyCD1)
  const AllyCD2Parser := AllyParser(P.AllyCD2)
  const AllyCD3Parser := AllyParser(P.AllyCD3)
  const AllyCD4Parser := AllyParser(P.AllyCD4)
  const AllyCD5Parser := AllyParser(P.AllyCD5)
  const WellsFargoParser := ParserClass({"Date", "common.account_download_csv.xsl"}, None, 0, Reversed, WellsFargoRows)
  const BpasParser := ParserClass({}, None, 0, ByDate, Plain(P.Bpas))
  const TiaaCrefParser := ParserClass({"Date"}, None, 0, Reversed, Plain(P.TiaaCref))

  /** A Vanguard Roth IRA subclass, which sets only the account. */
  function VanguardParser(account: string): ParserClass {
    ParserClass({"Fund Account Number", "Account Number"}, Some({11, 15}), 0, AsRead,
      Plain((parts: Row, strptime: Strptime) => P.Vanguard(account, parts, strptime)))
  }

  const AmmVanguardParser := VanguardParser(P.AmmVanguardAccount)
  const CtcVanguardParser := VanguardParser(P.CtcVanguardAccount)
  const CtcIraVanguardParser := ParserClass({}, None, 7, Reversed, Plain(P.CtcIraVanguard))
  /** The Fidelity class with the corrected unknown-fund exception; FidelityParserAsWritten raises NameError there. */
  const FidelityParser := ParserClass({"Plan name:", "Date Range", "Date"}, None, 0, Reversed, Plain(P.Fidelity))
  const FidelityParserAsWritten := FidelityParser.(maker := Plain(P.FidelityAsWritten))
  const KennebunkParser := ParserClass({"Account"}, None, 0, Reversed, Plain(P.Kennebunk))

  /** The row filter: a non-empty row whose first field is no header and whose length is allowed. */
  predicate Selected(c: ParserClass, parts: Row) {
    parts != [] && parts[0] !in c.firstHeaderFields && (c.fieldCounts.None? || |parts| in c.fieldCounts.value)
  }

  // ---------------------------------------------------------------- reordering

  /** The sort key of BpasParser.reorder: the date in the first column. */
  function DateKey(parts: Row, strptime: Strptime): Result<PyDate, PyError> {
    P.DateAt(parts, 0, "%m/%d/%Y", strptime)
  }

  /** sorted computes every key, in order, before it compares any: the first row without one raises. */
  function CheckKeys(rows: seq<Row>, strptime: Strptime): (r: Result<(), PyError>)
    ensures r.Success? <==> forall i :: 0 <= i < |rows| ==> DateKey(rows[i], strptime).Success?
    ensures r.Failure? ==> exists i :: (0 <= i < |rows| && DateKey(rows[i], strptime) == Failure(r.error) &&
      forall j :: 0 <= j < i ==> DateKey(rows[j], strptime).Success?)
  {
    if rows == [] then Success(())
    else
      match DateKey(rows[0], strptime)
      case Failure(e) => Failure(e)
      case Success(_) =>
        var rest := CheckKeys(rows[1..], strptime);
        if rest.Failure? then
          ghost var i :| 0 <= i < |rows[1..]| && DateKey(rows[1..][i], strptime) == Failure(rest.error) &&
            (forall j :: 0 <= j < i ==> DateKey(rows[1..][j], strptime).Success?);
          assert DateKey(rows[i + 1], strptime) == Failure(rest.error);
          rest
        else
          assert forall i :: 1 <= i < |rows| ==> DateKey(rows[i], strptime) == DateKey(rows[1..][i - 1], strptime);
          rest
  }

  /** The key of a row, once every row is known to have one. */
  function KeyOf(parts: Row, strptime: Strptime): PyDate {
    var key := DateKey(parts, strptime);
    if key.Success? then key.value else Calendar.Date(1970, 1, 1)
  }

  function KeyLe(strptime: Strptime): (Row, Row) -> bool {
    (a: Row, b: Row) => Calendar.SameOrBefore(KeyOf(a, strptime), KeyOf(b, strptime))
  }

  function Reorder(order: Order, rows: seq<Row>, strptime: Strptime): (r: Result<seq<Row>, PyError>)
  {
    match order
    case AsRead => Success(rows)
    case Reversed => Success(Seqs.Reverse(rows))
    case ByDate =>
      var _ :- CheckKeys(rows, strptime);
      Success(Sorting.SortBy(KeyLe(strptime), rows))
  }

  lemma KeyLeTotal(strptime: Strptime)
    ensures Sorting.Total(KeyLe(strptime))
  {
    forall a: Row, b: Row
      ensures KeyLe(strptime)(a, b) || KeyLe(strptime)(b, a)
    {
      Calendar.BeforeIsStrictTotal(KeyOf(a, strptime), KeyOf(b, strptime), KeyOf(a, strptime));
    }
  }

  /** Every row has a date, and each is no later than the next. */
  ghost predicate DateOrdered(rows: seq<Row>, strptime: Strptime) {
    (forall i :: 0 <= i < |rows| ==> DateKey(rows[i], strptime).Success?) &&
    forall i :: 0 <= i < |rows| - 1 ==>
      Calendar.SameOrBefore(DateKey(rows[i], strptime).value, DateKey(rows[i + 1], strptime).value)
  }

  /** Sorting by date keeps every row, puts them in date order, and fails on the first row without a date. */
  lemma ByDateSorted(rows: seq<Row>, strptime: Strptime)
    ensures var r := Reorder(ByDate, rows, strptime);
      r.Success? <==> forall i :: 0 <= i < |rows| ==> DateKey(rows[i], strptime).Success?
    ensures var r := Reorder(ByDate, rows, strptime);
      r.Success? ==> multiset(r.value) == multiset(rows) && DateOrdered(r.value, strptime)
  {
    var r := Reorder(ByDate, rows, strptime);
    if r.Success? {
      var sorted := r.value;
      KeyLeTotal(strptime);
      Sorting.SortBySorted(KeyLe(strptime), rows);
      forall i | 0 <= i < |sorted|
        ensures DateKey(sorted[i], strptime).Success?
      {
        assert sorted[i] in multiset(rows);
        var j :| 0 <= j < |rows| && rows[j] == sorted[i];
      }
      forall i | 0 <= i < |sorted| - 1
        ensures Calendar.SameOrBefore(DateKey(sorted[i], strptime).value, DateKey(sorted[i + 1], strptime).value)
      {
        assert KeyLe(strptime)(sorted[i], sorted[i + 1]);
      }
    }
  }

  /** Reversal keeps every row and lists them last to first. */
  lemma ReversedOrder(rows: seq<Row>, strptime: Strptime)
    ensures var r := Reorder(Reversed, rows, strptime);
      r.Success? && |r.value| == |rows| && forall i :: 0 <= i < |rows| ==> r.value[i] == rows[|rows| - 1 - i]
  {
  }

  // ---------------------------------------------------------------- the row loop

  /** make_transactions for one row; only Wells Fargo reads and updates the pending transfer. */
  function RowStep(m: Maker, previous: Option<real>, parts: Row, strptime: Strptime): Result<P.RowOut, PyError>
  {
    match m
    case WellsFargoRows => P.WellsFargoRow(previous, parts, strptime)
    case Plain(make) =>
      var ts :- make(parts, strptime);
      Success(P.RowOut(ts, previous))
  }

  /** The loop's variables: the transactions so far and the pending Wells Fargo transfer. */
  datatype Acc = Acc(transactions: seq<Transaction>, previous: Option<real>)

  /** An exception, with the pending transfer the parser object keeps after it. */
  datatype Halt = Halt(error: PyError, previous: Option<real>)

  /** One pass of the loop: transactions.extend(make_transactions(parts)). */
  function FeedStep(m: Maker, strptime: Strptime): (Acc, Row) -> Result<Acc, Halt> {
    (acc: Acc, parts: Row) =>
      match RowStep(m, acc.previous, parts, strptime)
      case Failure(e) => Failure(Halt(e, acc.previous))
      case Success(out) => Success(Acc(acc.transactions + out.transactions, out.previous))
  }

  /** list(reader)[header_offset:], which is empty when the file is shorter. */
  function AfterHeader(cls: ParserClass, rows: seq<Row>): seq<Row> {
    if cls.headerOffset <= |rows| then rows[cls.headerOffset..] else []
  }

  function Keep(cls: ParserClass): Row -> bool {
    parts => Selected(cls, parts)
  }

  /** parse_file on the rows of a file, starting from the given pending transfer. */
  function ParseRows(cls: ParserClass, previous: Option<real>, rows: seq<Row>, strptime: Strptime): Result<Acc, Halt> {
    match Reorder(cls.order, AfterHeader(cls, rows), strptime)
    case Failure(e) => Failure(Halt(e, previous))
    case Success(ordered) => Folds.Steps(FeedStep(cls.maker, strptime), Acc([], previous), Seqs.Filter(Keep(cls), ordered))
  }

  /** The filter over one more row. */
  lemma FilterSnoc(cls: ParserClass, rows: seq<Row>, i: nat)
    requires i < |rows|
    ensures Seqs.Filter(Keep(cls), rows[..i + 1]) ==
      Seqs.Filter(Keep(cls), rows[..i]) + (if Selected(cls, rows[i]) then [rows[i]] else [])
  {
    assert rows[..i + 1] == rows[..i] + [rows[i]];
    Seqs.FilterAppend(Keep(cls), rows[..i], [rows[i]]);
    assert [rows[i]][1..] == [];
  }

  /** The loop over one more row: a selected row runs the step, any other changes nothing. */
  lemma FeedNext(cls: ParserClass, strptime: Strptime, st: Acc, rows: seq<Row>, i: nat)
    requires i < |rows|
    ensures var step, kept := FeedStep(cls.maker, strptime), Seqs.Filter(Keep(cls), rows[..i]);
      Folds.Steps(step, st, Seqs.Filter(Keep(cls), rows[..i + 1])) ==
        match Folds.Steps(step, st, kept)
        case Failure(e) => Failure(e)
        case Success(s) => if Selected(cls, rows[i]) then step(s, rows[i]) else Success(s)
  {
    var step := FeedStep(cls.maker, strptime);
    var kept := Seqs.Filter(Keep(cls), rows[..i]);
    FilterSnoc(cls, rows, i);
    if Selected(cls, rows[i]) {
      Folds.StepsAppend(step, st, kept, [rows[i]]);
      assert [rows[i]][..0] == [];
    } else {
      assert kept + [] == kept;
    }
  }

  /** The rows after the one that raised change nothing. */
  lemma FeedRest(cls: ParserClass, strptime: Strptime, st: Acc, rows: seq<Row>, i: nat)
    requires i < |rows|
    requires Folds.Steps(FeedStep(cls.maker, strptime), st, Seqs.Filter(Keep(cls), rows[..i + 1])).Failure?
    ensures Folds.Steps(FeedStep(cls.maker, strptime), st, Seqs.Filter(Keep(cls), rows)) ==
      Folds.Steps(FeedStep(cls.maker, strptime), st, Seqs.Filter(Keep(cls), rows[..i + 1]))
  {
    assert rows == rows[..i + 1] + rows[i + 1..];
    Seqs.FilterAppend(Keep(cls), rows[..i + 1], rows[i + 1..]);
    Folds.StepsAppend(FeedStep(cls.maker, strptime), st, Seqs.Filter(Keep(cls), rows[..i + 1]), Seqs.Filter(Keep(cls), rows[i + 1..]));
  }

  /** parse_file; the Wells Fargo object carries its pending transfer from one file to the next. */
  method ParseFile(cls: ParserClass, wf: P.WellsFargoParser, rows: seq<Row>, strptime: Strptime) returns (r: Result<seq<Transaction>, PyError>)
    modifies wf
    ensures match ParseRows(cls, old(wf.previousTransfer), rows, strptime)
      case Success(acc) => r == Success(acc.transactions) && wf.previousTransfer == acc.previous
      case Failure(halt) => r == Failure(halt.error) && wf.previousTransfer == halt.previous
  {
    var ordered :- Reorder(cls.order, AfterHeader(cls, rows), strptime);
    var start := Acc([], wf.previousTransfer);
    var transactions := [];
    var i := 0;
    while i < |ordered|
      invariant i <= |ordered|
      invariant Folds.Steps(FeedStep(cls.maker, strptime), start, Seqs.Filter(Keep(cls), ordered[..i])) == Success(Acc(transactions, wf.previousTransfer))
    {
      var ts := LoopBody(cls, wf, strptime, start, ordered, i, transactions);
      if ts.Failure? {
        return Failure(ts.error);
      }
      transactions := transactions + ts.value;
      i := i + 1;
    }
    assert ordered[..i] == ordered;
    r := Success(transactions);
  }

  /** One pass of parse_file's loop: the row's transactions if it is selected and does not raise. */
  method LoopBody(cls: ParserClass, wf: P.WellsFargoParser, strptime: Strptime, start: Acc, ordered: seq<Row>, i: nat, transactions: seq<Transaction>)
    returns (ts: Result<seq<Transaction>, PyError>)
    requires i < |ordered|
    requires Folds.Steps(FeedStep(cls.maker, strptime), start, Seqs.Filter(Keep(cls), ordered[..i])) == Success(Acc(transactions, wf.previousTransfer))
    modifies wf
    ensures ts.Success? ==>
      Folds.Steps(FeedStep(cls.maker, strptime), start, Seqs.Filter(Keep(cls), ordered[..i + 1])) == Success(Acc(transactions + ts.value, wf.previousTransfer))
    ensures ts.Failure? ==>
      Folds.Steps(FeedStep(cls.maker, strptime), start, Seqs.Filter(Keep(cls), ordered)) == Failure(Halt(ts.error, wf.previousTransfer))
  {
    var parts := ordered[i];
    FeedNext(cls, strptime, start, ordered, i);
    if Selected(cls, parts) {
      ghost var before := wf.previousTransfer;
      ts := RowTransactions(cls.maker, wf, parts, strptime);
      if ts.Failure? {
        assert FeedStep(cls.maker, strptime)(Acc(transactions, before), parts) == Failure(Halt(ts.error, before));
        FeedRest(cls, strptime, start, ordered, i);
      } else {
        assert FeedStep(cls.maker, strptime)(Acc(transactions, before), parts) == Success(Acc(transactions + ts.value, wf.previousTransfer));
      }
    } else {
      ts := Success([]);
      assert transactions + [] == transactions;
    }
  }

  /** One row: the Wells Fargo object for its rows, make_transactions for the others. */
  method RowTransactions(m: Maker, wf: P.WellsFargoParser, parts: Row, strptime: Strptime) returns (r: Result<seq<Transaction>, PyError>)
    modifies wf
    ensures match RowStep(m, old(wf.previousTransfer), parts, strptime)
      case Success(out) => r == Success(out.transactions) && wf.previousTransfer == out.previous
      case Failure(e) => r == Failure(e) && wf.previousTransfer == old(wf.previousTransfer)
  {
    match m
    case WellsFargoRows => r := wf.MakeTransactions(parts, strptime);
    case Plain(make) => r := make(parts, strptime);
  }

  // ---------------------------------------------------------------- parsers without state

  /** The reference for a class without state: every row's transactions in order, or the first row's exception. */
  function Extend(make: (Row, Strptime) -> Result<seq<Transaction>, PyError>, rows: seq<Row>, strptime: Strptime): (r: Result<seq<Transaction>, PyError>)
    ensures r.Success? <==> forall i :: 0 <= i < |rows| ==> make(rows[i], strptime).Success?
  {
    if rows == [] then Success([])
    else
      var ts :- make(rows[0], strptime);
      var rest :- Extend(make, rows[1..], strptime);
      assert forall i :: 1 <= i < |rows| ==> rows[i] == rows[1..][i - 1];
      Success(ts + rest)
  }

  /** Extend over one more row. */
  lemma {:induction false} ExtendSnoc(make: (Row, Strptime) -> Result<seq<Transaction>, PyError>, rows: seq<Row>, parts: Row, strptime: Strptime)
    ensures Extend(make, rows + [parts], strptime) ==
      match Extend(make, rows, strptime)
      case Failure(e) => Failure(e)
      case Success(ts) =>
        match make(parts, strptime)
        case Failure(e) => Failure(e)
        case Success(more) => Success(ts + more)
  {
    if rows == [] {
      assert [parts][1..] == [];
      assert make(parts, strptime).Success? ==> make(parts, strptime).value + [] == [] + make(parts, strptime).value;
    } else {
      assert (rows + [parts])[1..] == rows[1..] + [parts];
      ExtendSnoc(make, rows[1..], parts, strptime);
      if make(rows[0], strptime).Success? && Extend(make, rows, strptime).Success? && make(parts, strptime).Success? {
        var first, rest, more := make(rows[0], strptime).value, Extend(make, rows[1..], strptime).value, make(parts, strptime).value;
        assert first + (rest + more) == (first + rest) + more;
      }
    }
  }

  /** The loop over a class without state is Extend, after whatever came before, and leaves the pending transfer alone. */
  lemma {:induction false} FeedPlain(make: (Row, Strptime) -> Result<seq<Transaction>, PyError>, strptime: Strptime, before: seq<Transaction>, previous: Option<real>, rows: seq<Row>)
    ensures Folds.Steps(FeedStep(Plain(make), strptime), Acc(before, previous), rows) ==
      match Extend(make, rows, strptime)
      case Failure(e) => Failure(Halt(e, previous))
      case Success(ts) => Success(Acc(before + ts, previous))
    decreases |rows|
  {
    if rows == [] {
      assert before + [] == before;
    } else {
      var init, parts := rows[..|rows| - 1], rows[|rows| - 1];
      assert rows == init + [parts];
      FeedPlain(make, strptime, before, previous, init);
      ExtendSnoc(make, init, parts, strptime);
      if Extend(make, init, strptime).Success? && make(parts, strptime).Success? {
        var ts, more := Extend(make, init, strptime).value, make(parts, strptime).value;
        assert before + ts + more == before + (ts + more);
      }
    }
  }

  /**
    parse_file for a class without state: the transactions of the selected rows,
    in the reordered row order, or the first exception; the pending transfer never changes.
  */
  lemma ParsePlain(cls: ParserClass, previous: Option<real>, rows: seq<Row>, strptime: Strptime)
    requires cls.maker.Plain?
    ensures ParseRows(cls, previous, rows, strptime) ==
      match Reorder(cls.order, AfterHeader(cls, rows), strptime)
      case Failure(e) => Failure(Halt(e, previous))
      case Success(ordered) =>
        match Extend(cls.maker.make, Seqs.Filter(Keep(cls), ordered), strptime)
        case Failure(e) => Failure(Halt(e, previous))
        case Success(ts) => Success(Acc(ts, previous))
  {
    var r := Reorder(cls.order, AfterHeader(cls, rows), strptime);
    if r.Success? {
      FeedPlain(cls.maker.make, strptime, [], previous, Seqs.Filter(Keep(cls), r.value));
      var e := Extend(cls.maker.make, Seqs.Filter(Keep(cls), r.value), strptime);
      if e.Success? {
        assert [] + e.value == e.value;
      }
    }
  }

  /** The rows parse_file hands to make_transactions are exactly the selected ones. */
  lemma SelectedRows(cls: ParserClass, ordered: seq<Row>, parts: Row)
    ensures parts in Seqs.Filter(Keep(cls), ordered) <==> parts in ordered && Selected(cls, parts)
  {
    var kept := Seqs.Filter(Keep(cls), ordered);
    if parts in kept {
      var i :| 0 <= i < |kept| && kept[i] == parts;
    }
    if parts in ordered && Selected(cls, parts) {
      var i :| 0 <= i < |ordered| && ordered[i] == parts;
    }
  }
}
