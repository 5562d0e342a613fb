/**
  The journal model of the Python importer: account regexes, postings,
  transactions and journals with their text forms, the duplicate-detection
  key of a transaction, and the line-by-line journal reader.
*/
module ImportModel {
  import opened Wrappers
  import opened Text
  import opened Seqs
  import opened Sorting
  import opened PyBase
  import Calendar
  import Folds

  // ---------------------------------------------------------------- AccountRegEx

  /** A comment line `; /regex/ account` that assigns matching descriptions to an account. */
  datatype AccountRegEx = AccountRegEx(account: string, regex: string)

  /** AccountRegEx.__str__ */
  function RegExText(r: AccountRegEx): string {
    "; /" + r.regex + "/ " + r.account
  }

  /**
    AccountRegEx.parse: the line must split on '/' into exactly three pieces
    (unpacking raises ValueError otherwise); the second is the regex and the
    third the account, both stripped.  The constructor compiles the regex,
    and `compiles` says which patterns re.compile accepts (re.error otherwise).
  */
  function ParseRegEx(line: string, compiles: string -> bool): (r: Result<AccountRegEx, PyError>)
    ensures CountChar(line, '/') != 2 ==> r == Failure(ValueError(line))
    ensures r.Success? ==> CountChar(line, '/') == 2 && compiles(r.value.regex)
    ensures r.Failure? && CountChar(line, '/') == 2 ==> r.error.ReError? && !compiles(r.error.pattern)
  {
    var parts := SplitChar(line, '/', 3);
    SplitCharCount(line, '/', 3);
    if |parts| != 3 then Failure(ValueError(line))
    else if !compiles(PyStrip(parts[1])) then Failure(ReError(PyStrip(parts[1])))
    else Success(AccountRegEx(PyStrip(parts[2]), PyStrip(parts[1])))
  }

  /** With exactly two slashes, the regex is what lies between them and the account what follows. */
  lemma ParseRegExSlashes(pre: string, mid: string, post: string, compiles: string -> bool)
    requires '/' !in pre && '/' !in mid && '/' !in post
    ensures ParseRegEx(pre + "/" + mid + "/" + post, compiles) ==
              if compiles(PyStrip(mid)) then Success(AccountRegEx(PyStrip(post), PyStrip(mid)))
              else Failure(ReError(PyStrip(mid)))
  {
    SplitSlashes(pre, mid, post);
  }

  lemma SplitSlashes(pre: string, mid: string, post: string)
    requires '/' !in pre && '/' !in mid && '/' !in post
    ensures SplitChar(pre + "/" + mid + "/" + post, '/', 3) == [pre, mid, post]
  {
    var rest := mid + "/" + post;
    assert pre + "/" + mid + "/" + post == pre + ['/'] + rest;
    SplitAtFirst(pre, rest, '/', 3);
    SplitSlash(mid, post);
    assert [pre] + [mid, post] == [pre, mid, post];
  }

  lemma SplitSlash(mid: string, post: string)
    requires '/' !in mid && '/' !in post
    ensures SplitChar(mid + "/" + post, '/', 2) == [mid, post]
  {
    assert mid + "/" + post == mid + ['/'] + post;
    SplitAtFirst(mid, post, '/', 2);
    SplitNone(post, '/', 1);
    assert [mid] + [post] == [mid, post];
  }

  /** Reading back the text of a regex line recovers it when neither part has '/' or surrounding space. */
  lemma RegExRoundTrip(r: AccountRegEx, compiles: string -> bool)
    requires '/' !in r.account && '/' !in r.regex && compiles(r.regex)
    requires PyStrip(r.account) == r.account && PyStrip(r.regex) == r.regex
    ensures ParseRegEx(RegExText(r), compiles) == Success(r)
  {
    var post := " " + r.account;
    assert RegExText(r) == "; " + "/" + r.regex + "/" + post;
    ParseRegExSlashes("; ", r.regex, post, compiles);
    StripSpaceFront(r.account);
  }

  /** A stripped text keeps its value when one space is put in front of it. */
  lemma StripSpaceFront(a: string)
    requires PyStrip(a) == a
    ensures PyStrip(" " + a) == a
  {
    BlanksAreSpace(" ");
    if a == [] {
      StripAllSpace(" ");
    } else {
      assert !PySpace(a[0]) && !PySpace(a[|a| - 1]);
      StripPadded(PySpace, " ", a, "");
      assert " " + a + "" == " " + a;
    }
  }

  // ---------------------------------------------------------------- postings and transactions

  /**
    A posting: the account, the quantity (0 when the line has no amount) and,
    for the trades the importers build, the commodity and its unit price.
  */
  datatype Posting = Posting(account: string, quantity: real, commodity: Option<string>, unitPrice: Option<real>)

  /** Posting(account, quantity) with no commodity or unit price. */
  function Cash(account: string, quantity: real): Posting {
    Posting(account, quantity, None, None)
  }

  datatype Transaction = Transaction(date: PyDate, desc: string, postings: seq<Posting>)

  /**
    Posting.__str__: two spaces and the account, then `    $ q` only when the
    quantity is non-zero.  `show` is str() of a Decimal.
  */
  function PostingText(p: Posting, show: real -> string): string {
    "  " + p.account + (if p.quantity != 0.0 then "    $ " + show(p.quantity) else "")
  }

  /** strftime('%Y/%m/%d') */
  function DateText(d: PyDate): string {
    PadNat(d.year, 4) + "/" + PadNat(d.month, 2) + "/" + PadNat(d.day, 2)
  }

  function HeaderText(t: Transaction): string {
    DateText(t.date) + " " + t.desc
  }

  function PostingLines(ps: seq<Posting>, show: real -> string): (r: seq<string>)
    ensures |r| == |ps|
    ensures forall i :: 0 <= i < |ps| ==> r[i] == PostingText(ps[i], show)
  {
    Map(p => PostingText(p, show), ps)
  }

  /** Transaction.__str__: the header line, the posting lines, and a final newline. */
  function TransactionText(t: Transaction, show: real -> string): string {
    HeaderText(t) + "\n" + Join(PostingLines(t.postings, show), "\n") + "\n"
  }

  // ---------------------------------------------------------------- the duplicate key

  /** What unique_id hashes: the date and the amount of money moved. */
  type Key = (PyDate, real)

  function Positive(p: Posting): real {
    if p.quantity > 0.0 then p.quantity else 0.0
  }

  function NonPositive(p: Posting): real {
    if p.quantity > 0.0 then 0.0 else p.quantity
  }

  /** Sum of f over the postings, accumulated from the front. */
  function Total(f: Posting -> real, ps: seq<Posting>): real {
    if ps == [] then 0.0 else Total(f, ps[..|ps| - 1]) + f(ps[|ps| - 1])
  }

  /** The key of unique_id: (date, max(sum of positive quantities, |sum of the others|)). */
  function UniqueKey(t: Transaction): Key {
    (t.date, Max(Total(Positive, t.postings), Abs(Total(NonPositive, t.postings))))
  }

  /** The key ordering that unique_id sorts postings by. */
  predicate AccountLe(p: Posting, q: Posting) {
    !LexLess(q.account, p.account)
  }

  /** Transaction.unique_id before hashing: totals accumulated over the postings sorted by account. */
  method ComputeUniqueKey(t: Transaction) returns (key: Key)
    ensures key == UniqueKey(t)
  {
    var ps := SortBy(AccountLe, t.postings);
    var posTotal, negTotal := 0.0, 0.0;
    for i := 0 to |ps|
      invariant posTotal == Total(Positive, ps[..i])
      invariant negTotal == Total(NonPositive, ps[..i])
    {
      assert ps[..i + 1][..i] == ps[..i];
      if ps[i].quantity > 0.0 {
        posTotal := posTotal + ps[i].quantity;
      } else {
        negTotal := negTotal + ps[i].quantity;
      }
    }
    assert ps[..|ps|] == ps;
    TotalPermutation(Positive, ps, t.postings);
    TotalPermutation(NonPositive, ps, t.postings);
    key := (t.date, Max(posTotal, Abs(negTotal)));
  }

  lemma {:induction false} TotalAppend(f: Posting -> real, xs: seq<Posting>, ys: seq<Posting>)
    ensures Total(f, xs + ys) == Total(f, xs) + Total(f, ys)
    decreases |ys|
  {
    if ys == [] {
      assert xs + ys == xs;
    } else {
      var n := |ys| - 1;
      assert (xs + ys)[..|xs + ys| - 1] == xs + ys[..n];
      TotalAppend(f, xs, ys[..n]);
    }
  }

  /** Dropping the element at k takes its share out of the total. */
  lemma TotalRemove(f: Posting -> real, ys: seq<Posting>, k: nat)
    requires k < |ys|
    ensures Total(f, ys) == Total(f, ys[..k] + ys[k + 1..]) + f(ys[k])
  {
    Seqs.Around(ys, k);
    TotalMiddle(f, ys[..k], ys[k], ys[k + 1..]);
  }

  lemma TotalMiddle(f: Posting -> real, a: seq<Posting>, x: Posting, b: seq<Posting>)
    ensures Total(f, a + [x] + b) == Total(f, a + b) + f(x)
  {
    TotalAppend(f, a + [x], b);
    TotalAppend(f, a, [x]);
    TotalAppend(f, a, b);
    TotalSingle(f, x);
  }

  lemma TotalSingle(f: Posting -> real, x: Posting)
    ensures Total(f, [x]) == f(x)
  {
    assert [x][..0] == [];
  }

  /** The totals depend only on the multiset of postings, not on their order. */
  lemma {:induction false} TotalPermutation(f: Posting -> real, xs: seq<Posting>, ys: seq<Posting>)
    requires multiset(xs) == multiset(ys)
    ensures Total(f, xs) == Total(f, ys)
    decreases |xs|
  {
    if xs != [] {
      var n := |xs| - 1;
      var x := xs[n];
      assert xs == xs[..n] + [x];
      assert x in multiset(ys);
      var k :| 0 <= k < |ys| && ys[k] == x;
      var rest := ys[..k] + ys[k + 1..];
      assert ys == ys[..k] + [x] + ys[k + 1..];
      assert multiset(ys) == multiset(ys[..k]) + multiset{x} + multiset(ys[k + 1..]);
      assert multiset(rest) == multiset(ys[..k]) + multiset(ys[k + 1..]);
      assert multiset(xs) == multiset(xs[..n]) + multiset{x};
      assert multiset(xs[..n]) == multiset(xs) - multiset{x};
      assert multiset(rest) == multiset(ys) - multiset{x};
      TotalPermutation(f, xs[..n], rest);
      TotalRemove(f, ys, k);
    } else {
      assert |ys| == |multiset(ys)| == 0;
    }
  }

  /** Postings in any order give the same key. */
  lemma UniqueKeyPermutation(t: Transaction, u: Transaction)
    requires t.date == u.date && multiset(t.postings) == multiset(u.postings)
    ensures UniqueKey(t) == UniqueKey(u)
  {
    TotalPermutation(Positive, t.postings, u.postings);
    TotalPermutation(NonPositive, t.postings, u.postings);
  }

  function Flip(p: Posting): Posting {
    p.(quantity := -p.quantity)
  }

  /** The same movement of money seen from the other side: every sign flipped. */
  function Mirror(t: Transaction): Transaction {
    t.(postings := Map(Flip, t.postings))
  }

  lemma {:induction false} MirrorTotals(ps: seq<Posting>)
    ensures Total(Positive, Map(Flip, ps)) == -Total(NonPositive, ps)
    ensures Total(NonPositive, Map(Flip, ps)) == -Total(Positive, ps)
    ensures Total(Positive, ps) >= 0.0 && Total(NonPositive, ps) <= 0.0
  {
    if ps != [] {
      var n := |ps| - 1;
      assert Map(Flip, ps)[..n] == Map(Flip, ps[..n]);
      MirrorTotals(ps[..n]);
    }
  }

  /** A mirror-image transaction gets the same key, so it is detected as a duplicate. */
  lemma UniqueKeyMirror(t: Transaction)
    ensures UniqueKey(Mirror(t)) == UniqueKey(t)
  {
    MirrorTotals(t.postings);
  }

  /** A balanced transaction's key amount is the money on the positive side. */
  lemma {:induction false} UniqueKeyBalanced(t: Transaction)
    requires Total(Positive, t.postings) + Total(NonPositive, t.postings) == 0.0
    ensures UniqueKey(t).1 == Total(Positive, t.postings)
  {
    MirrorTotals(t.postings);
  }

  // ---------------------------------------------------------------- the journal

  datatype Journal = Journal(
    transactions: seq<Transaction>,
    uniqueIdMap: map<Key, Transaction>,
    accounts: set<string>,
    descriptionMap: map<string, seq<string>>,
    regexes: seq<AccountRegEx>)

  /** The ordering sorted(transactions, key=date) uses. */
  predicate DateLe(s: Transaction, t: Transaction) {
    !Calendar.Before(t.date, s.date)
  }

  function AccountLine(a: string): string {
    "account " + a
  }

  /**
    Journal.__str__: the `account` lines in sorted order, a blank line, the
    regex lines, a blank line, and the transactions sorted by date.
  */
  function JournalText(j: Journal, show: real -> string): string {
    Layout(SortedSet(j.accounts), j.regexes, SortBy(DateLe, j.transactions), show)
  }

  /** The text of a journal whose accounts and transactions come in the given orders. */
  function Layout(accounts: seq<string>, regexes: seq<AccountRegEx>, ts: seq<Transaction>, show: real -> string): string {
    Join(Map(AccountLine, accounts), "\n") + "\n\n"
    + Join(Map(RegExText, regexes), "\n") + "\n\n"
    + Join(Map(t => TransactionText(t, show), ts), "\n") + "\n"
  }

  /** Each account once, in increasing order; every transaction once, in date order. */
  ghost predicate Listed(j: Journal, accounts: seq<string>, ts: seq<Transaction>) {
    && (forall a :: a in accounts <==> a in j.accounts)
    && (forall i, k :: 0 <= i < k < |accounts| ==> LexLess(accounts[i], accounts[k]))
    && multiset(ts) == multiset(j.transactions)
    && (forall i :: 0 <= i < |ts| - 1 ==> Calendar.SameOrBefore(ts[i].date, ts[i + 1].date))
  }

  /** The journal text lists the accounts sorted, then the regexes, then the transactions by date. */
  lemma JournalTextOrder(j: Journal, show: real -> string)
    ensures exists accounts, ts :: Listed(j, accounts, ts) && JournalText(j, show) == Layout(accounts, j.regexes, ts, show)
  {
    var accounts := SortedSet(j.accounts);
    var ts := SortBy(DateLe, j.transactions);
    assert Sorting.Total(DateLe) by {
      forall s: Transaction, t: Transaction
        ensures DateLe(s, t) || DateLe(t, s)
      {
        Calendar.BeforeIsStrictTotal(s.date, t.date, t.date);
      }
    }
    SortBySorted(DateLe, j.transactions);
    forall i | 0 <= i < |ts| - 1
      ensures Calendar.SameOrBefore(ts[i].date, ts[i + 1].date)
    {
      assert DateLe(ts[i], ts[i + 1]);
      Calendar.BeforeIsStrictTotal(ts[i].date, ts[i + 1].date, ts[i].date);
    }
    assert Listed(j, accounts, ts);
    assert JournalText(j, show) == Layout(accounts, j.regexes, ts, show);
  }

  // ---------------------------------------------------------------- reading a journal

  /** Which of parse_file's patterns a right-stripped line matches first. */
  datatype LineKind = AccountDirective | Header | RegexComment | Comment | PostingLine | Blank | Unexpected

  /** Python's re \d, taken as the ASCII digits. */
  predicate StartsWithDigit(line: string) {
    line != [] && IsDigit(line[0])
  }

  /** `^\s*;` */
  predicate CommentShape(line: string) {
    var k := LeadingCount(PySpace, line);
    k < |line| && line[k] == ';'
  }

  // The regex-comment pattern: optional space, ';', then a '/' and a later '/' with a
  // character between, none of the characters after the ';' up to there a newline.
  predicate RegexCommentShape(line: string) {
    var k := LeadingCount(PySpace, line);
    && k < |line| && line[k] == ';'
    && exists i, j :: k < i && i + 1 < j < |line| && line[i] == '/' && line[j] == '/'
                      && forall m :: k < m < j ==> line[m] != '\n'
  }

  /** `^\s+\S+` */
  predicate PostingShape(line: string) {
    0 < LeadingCount(PySpace, line) < |line|
  }

  /** The tests of parse_file, in the order they are tried. */
  function Classify(line: string): LineKind {
    if StartsWith(line, "account") then AccountDirective
    else if StartsWithDigit(line) then Header
    else if RegexCommentShape(line) then RegexComment
    else if CommentShape(line) then Comment
    else if PostingShape(line) then PostingLine
    else if PyStrip(line) == [] then Blank
    else Unexpected
  }

  /**
    A posting line: the account is the stripped text before the first '$';
    the text after it, stripped and without commas, is the quantity, which
    stays 0 when there is no '$'.
  */
  function ParsePosting(line: string): Result<Posting, PyError> {
    var parts := SplitChar(line, '$', 1);
    var account := PyStrip(parts[0]);
    if |parts| == 2 then
      match Dec(RemoveChar(PyStrip(parts[1]), ','))
      case Failure(e) => Failure(e)
      case Success(q) => Success(Cash(account, q))
    else Success(Cash(account, 0.0))
  }

  lemma ParsePostingWithAmount(head: string, amount: string)
    requires '$' !in head
    ensures ParsePosting(head + "$" + amount) ==
      match ParseDecimal(RemoveChar(PyStrip(amount), ','))
      case None => Failure(InvalidDecimal(RemoveChar(PyStrip(amount), ',')))
      case Some(q) => Success(Cash(PyStrip(head), q))
  {
    assert head + "$" + amount == head + ['$'] + amount;
    SplitAtFirst(head, amount, '$', 1);
  }

  lemma ParsePostingWithoutAmount(line: string)
    requires '$' !in line
    ensures ParsePosting(line) == Success(Cash(PyStrip(line), 0.0))
  {
    SplitNone(line, '$', 1);
  }

  /** The reader's variables between two lines. */
  datatype ReadState = ReadState(
    accounts: set<string>,
    regexes: seq<AccountRegEx>,
    transactions: seq<Transaction>,
    uniqueIdMap: map<Key, Transaction>,
    current: Option<Transaction>)

  const Start := ReadState({}, [], [], map[], None)

  /**
    One line of parse_file.  A transaction is appended only at a blank line
    while one is open; an unrecognised line raises; a blank line never does.
  */
  function Step(st: ReadState, raw: string, strptime: Strptime, compiles: string -> bool): Result<ReadState, PyError>
  {
    var line := PyRStrip(raw);
    match Classify(line)
    case AccountDirective => ReadAccount(st, line)
    case Header => ReadHeader(st, line, strptime)
    case RegexComment => ReadRegEx(st, line, compiles)
    case Comment => Success(st)
    case PostingLine => ReadPosting(st, line)
    case Blank => Success(Close(st))
    case Unexpected => Failure(Raised(line))
  }

  /** Only a blank line with a transaction open appends it, and records it under its key. */
  lemma StepAppendsOnlyAtBlank(st: ReadState, raw: string, strptime: Strptime, compiles: string -> bool)
    ensures var r := Step(st, raw, strptime, compiles);
      r.Success? ==>
        || (r.value.transactions == st.transactions && r.value.uniqueIdMap == st.uniqueIdMap)
        || (&& Classify(PyRStrip(raw)) == Blank && st.current.Some?
            && r.value.transactions == st.transactions + [st.current.value]
            && r.value.uniqueIdMap == st.uniqueIdMap[UniqueKey(st.current.value) := st.current.value]
            && r.value.current.None?)
  {
    if Classify(PyRStrip(raw)) == Blank {
      assert Step(st, raw, strptime, compiles) == Success(Close(st));
    }
  }

  /** A blank line never raises and leaves no transaction open; an unrecognised line raises. */
  lemma StepOutcome(st: ReadState, raw: string, strptime: Strptime, compiles: string -> bool)
    ensures Classify(PyRStrip(raw)) == Blank ==> Step(st, raw, strptime, compiles).Success? && Step(st, raw, strptime, compiles).value.current.None?
    ensures Classify(PyRStrip(raw)) == Unexpected ==> Step(st, raw, strptime, compiles) == Failure(Raised(PyRStrip(raw)))
  {
  }

  /** `account NAME`: the stripped text after the first space joins the account set. */
  function ReadAccount(st: ReadState, line: string): (r: Result<ReadState, PyError>)
    ensures r.Success? ==> r.value == st.(accounts := r.value.accounts)
  {
    var parts := SplitChar(line, ' ', 1);
    if |parts| < 2 then Failure(IndexError)
    else Success(st.(accounts := st.accounts + {PyStrip(parts[1])}))
  }

  /** A header opens a new transaction: the date before the first space, the description after it. */
  function ReadHeader(st: ReadState, line: string, strptime: Strptime): (r: Result<ReadState, PyError>)
    ensures r.Success? ==> r.value == st.(current := r.value.current) && r.value.current.Some?
  {
    var parts := SplitChar(line, ' ', 1);
    var date := strptime(parts[0], "%Y/%m/%d");
    if date.None? then Failure(ValueError(parts[0]))
    else if |parts| < 2 then Failure(IndexError)
    else Success(st.(current := Some(Transaction(date.value, parts[1], []))))
  }

  function ReadRegEx(st: ReadState, line: string, compiles: string -> bool): (r: Result<ReadState, PyError>)
    ensures r.Success? ==> r.value == st.(regexes := r.value.regexes)
  {
    var x := ParseRegEx(line, compiles);
    if x.Failure? then Failure(x.error) else Success(st.(regexes := st.regexes + [x.value]))
  }

  /** A posting line adds to the open transaction; with none open, `trans.postings` raises. */
  function ReadPosting(st: ReadState, line: string): (r: Result<ReadState, PyError>)
    ensures r.Success? ==> r.value == st.(current := r.value.current) && st.current.Some?
  {
    var p := ParsePosting(line);
    if p.Failure? then Failure(p.error)
    else if st.current.None? then Failure(AttributeError("postings"))
    else Success(st.(current := Some(st.current.value.(postings := st.current.value.postings + [p.value]))))
  }

  /** A blank line appends the open transaction, records it under its key, and closes it. */
  function Close(st: ReadState): ReadState {
    if st.current.None? then st
    else
      var t := st.current.value;
      st.(transactions := st.transactions + [t], uniqueIdMap := st.uniqueIdMap[UniqueKey(t) := t], current := None)
  }

  /** One line read by the caller's strptime. */
  function StepWith(strptime: Strptime, compiles: string -> bool): (ReadState, string) -> Result<ReadState, PyError> {
    (st: ReadState, raw: string) => Step(st, raw, strptime, compiles)
  }

  /** The lines read one after the other from st; the first exception stops the reading. */
  function Run(st: ReadState, lines: seq<string>, strptime: Strptime, compiles: string -> bool): Result<ReadState, PyError> {
    Folds.Steps(StepWith(strptime, compiles), st, lines)
  }

  /** Reading the last line after the others. */
  lemma RunLast(st: ReadState, lines: seq<string>, strptime: Strptime, compiles: string -> bool)
    requires lines != []
    ensures Run(st, lines, strptime, compiles) ==
      match Run(st, lines[..|lines| - 1], strptime, compiles)
      case Failure(e) => Failure(e)
      case Success(s) => Step(s, lines[|lines| - 1], strptime, compiles)
  {
  }

  /** Reading line i after the lines before it. */
  lemma RunNext(st: ReadState, lines: seq<string>, i: nat, strptime: Strptime, compiles: string -> bool)
    requires i < |lines| && Run(st, lines[..i], strptime, compiles).Success?
    ensures Run(st, lines[..i + 1], strptime, compiles) == Step(Run(st, lines[..i], strptime, compiles).value, lines[i], strptime, compiles)
  {
    Folds.StepsNext(StepWith(strptime, compiles), st, lines, i);
  }

  lemma RunAppend(st: ReadState, xs: seq<string>, ys: seq<string>, strptime: Strptime, compiles: string -> bool)
    ensures Run(st, xs + ys, strptime, compiles) ==
      match Run(st, xs, strptime, compiles)
      case Failure(e) => Failure(e)
      case Success(s) => Run(s, ys, strptime, compiles)
  {
    Folds.StepsAppend(StepWith(strptime, compiles), st, xs, ys);
  }

  /** description_map: description -> the posting accounts of its transactions, in file order. */
  function DescriptionMap(ts: seq<Transaction>): map<string, seq<string>> {
    if ts == [] then map[]
    else
      var m := DescriptionMap(ts[..|ts| - 1]);
      var t := ts[|ts| - 1];
      m[t.desc := (if t.desc in m then m[t.desc] else []) + Accounts(t)]
  }

  function AccountOf(p: Posting): string {
    p.account
  }

  function Accounts(t: Transaction): seq<string> {
    Map(AccountOf, t.postings)
  }

  /** The journal parse_file returns for the given lines of a file. */
  function ParseFileSpec(lines: seq<string>, strptime: Strptime, compiles: string -> bool): Result<Journal, PyError> {
    match Run(Start, lines, strptime, compiles)
    case Failure(e) => Failure(e)
    case Success(st) =>
      Success(Journal(st.transactions, st.uniqueIdMap, st.accounts, DescriptionMap(st.transactions), st.regexes))
  }

  /** Journal.parse_file over the lines of the file. */
  method ParseFile(lines: seq<string>, strptime: Strptime, compiles: string -> bool) returns (r: Result<Journal, PyError>)
    ensures r == ParseFileSpec(lines, strptime, compiles)
  {
    var st := Start;
    for i := 0 to |lines|
      invariant Run(Start, lines[..i], strptime, compiles) == Success(st)
    {
      RunNext(Start, lines, i, strptime, compiles);
      var next := ReadLine(st, lines[i], strptime, compiles);
      if next.Failure? {
        RunStops(lines, i, strptime, compiles);
        return Failure(next.error);
      }
      st := next.value;
    }
    assert lines[..|lines|] == lines;
    var descriptionMap := BuildDescriptionMap(st.transactions);
    r := Success(Journal(st.transactions, st.uniqueIdMap, st.accounts, descriptionMap, st.regexes));
  }

  /** The body of parse_file's loop: one line read into the journal and the open transaction. */
  method ReadLine(st: ReadState, raw: string, strptime: Strptime, compiles: string -> bool) returns (r: Result<ReadState, PyError>)
    ensures r == Step(st, raw, strptime, compiles)
  {
    var accounts, regexes, transactions, uniqueIdMap, trans :=
      st.accounts, st.regexes, st.transactions, st.uniqueIdMap, st.current;
    var line := PyRStrip(raw);
    var kind := Classify(line);
    if kind == AccountDirective {
      var parts := SplitChar(line, ' ', 1);
      if |parts| < 2 {
        return Failure(IndexError);
      }
      accounts := accounts + {PyStrip(parts[1])};
    } else if kind == Header {
      var parts := SplitChar(line, ' ', 1);
      var date := strptime(parts[0], "%Y/%m/%d");
      if date.None? {
        return Failure(ValueError(parts[0]));
      }
      if |parts| < 2 {
        return Failure(IndexError);
      }
      trans := Some(Transaction(date.value, parts[1], []));
    } else if kind == RegexComment {
      var x := ParseRegEx(line, compiles);
      if x.Failure? {
        return Failure(x.error);
      }
      regexes := regexes + [x.value];
    } else if kind == Comment {
    } else if kind == PostingLine {
      var p := ParsePosting(line);
      if p.Failure? {
        return Failure(p.error);
      }
      if trans.None? {
        return Failure(AttributeError("postings"));
      }
      trans := Some(trans.value.(postings := trans.value.postings + [p.value]));
    } else if kind == Blank {
      if trans.Some? {
        transactions := transactions + [trans.value];
        var key := ComputeUniqueKey(trans.value);
        uniqueIdMap := uniqueIdMap[key := trans.value];
      }
      trans := None;
    } else {
      return Failure(Raised(line));
    }
    r := Success(ReadState(accounts, regexes, transactions, uniqueIdMap, trans));
  }

  /** The loop of parse_file that fills description_map once all lines are read. */
  method BuildDescriptionMap(transactions: seq<Transaction>) returns (descriptionMap: map<string, seq<string>>)
    ensures descriptionMap == DescriptionMap(transactions)
  {
    descriptionMap := map[];
    for i := 0 to |transactions|
      invariant descriptionMap == DescriptionMap(transactions[..i])
    {
      assert transactions[..i + 1][..i] == transactions[..i];
      var t := transactions[i];
      var prior := if t.desc in descriptionMap then descriptionMap[t.desc] else [];
      descriptionMap := descriptionMap[t.desc := prior + Accounts(t)];
    }
    assert transactions[..|transactions|] == transactions;
  }

  /** A line that raises ends the reading with its exception. */
  lemma RunStops(lines: seq<string>, i: nat, strptime: Strptime, compiles: string -> bool)
    requires i < |lines| && Run(Start, lines[..i], strptime, compiles).Success?
    requires Step(Run(Start, lines[..i], strptime, compiles).value, lines[i], strptime, compiles).Failure?
    ensures ParseFileSpec(lines, strptime, compiles) == Failure(Step(Run(Start, lines[..i], strptime, compiles).value, lines[i], strptime, compiles).error)
  {
    Folds.StepsStop(StepWith(strptime, compiles), Start, lines, i);
  }

  // ---------------------------------------------------------------- what the reader keeps

  /** The last transaction with key k, searched from the end. */
  function LastWithKey(ts: seq<Transaction>, k: Key): Option<Transaction> {
    if ts == [] then None
    else if UniqueKey(ts[|ts| - 1]) == k then Some(ts[|ts| - 1])
    else LastWithKey(ts[..|ts| - 1], k)
  }

  lemma LastWithKeySpec(ts: seq<Transaction>, k: Key)
    ensures LastWithKey(ts, k).Some? <==> exists i :: 0 <= i < |ts| && UniqueKey(ts[i]) == k
    ensures LastWithKey(ts, k).Some? ==>
      exists i :: 0 <= i < |ts| && ts[i] == LastWithKey(ts, k).value
        && UniqueKey(ts[i]) == k && forall j :: i < j < |ts| ==> UniqueKey(ts[j]) != k
  {
    LastWithKeyFound(ts, k);
    if LastWithKey(ts, k).Some? {
      var i := LastWithKeyIndex(ts, k);
    }
  }

  /** Some transaction has key k exactly when a last one is found. */
  lemma {:induction false} LastWithKeyFound(ts: seq<Transaction>, k: Key)
    ensures LastWithKey(ts, k).Some? <==> exists i :: 0 <= i < |ts| && UniqueKey(ts[i]) == k
  {
    if ts != [] {
      var n := |ts| - 1;
      LastWithKeyFound(ts[..n], k);
      if UniqueKey(ts[n]) != k && exists i :: 0 <= i < |ts| && UniqueKey(ts[i]) == k {
        var i :| 0 <= i < |ts| && UniqueKey(ts[i]) == k;
        assert ts[..n][i] == ts[i];
      }
    }
  }

  /** Where the transaction found sits: it has key k and none after it does. */
  lemma {:induction false} LastWithKeyIndex(ts: seq<Transaction>, k: Key) returns (i: nat)
    requires LastWithKey(ts, k).Some?
    ensures i < |ts| && ts[i] == LastWithKey(ts, k).value && UniqueKey(ts[i]) == k
    ensures forall j :: i < j < |ts| ==> UniqueKey(ts[j]) != k
  {
    var n := |ts| - 1;
    if UniqueKey(ts[n]) == k {
      i := n;
    } else {
      i := LastWithKeyIndex(ts[..n], k);
      forall j | i < j < |ts|
        ensures UniqueKey(ts[j]) != k
      {
        if j < n {
          assert ts[..n][j] == ts[j];
        }
      }
    }
  }

  /** unique_id_map holds, for each key that occurs, the last transaction with that key. */
  ghost predicate KeepsLast(ts: seq<Transaction>, m: map<Key, Transaction>) {
    forall k :: (k in m <==> LastWithKey(ts, k).Some?) && (k in m ==> m[k] == LastWithKey(ts, k).value)
  }

  lemma {:induction false} RunKeepsLast(lines: seq<string>, strptime: Strptime, compiles: string -> bool)
    ensures Run(Start, lines, strptime, compiles).Success? ==>
      KeepsLast(Run(Start, lines, strptime, compiles).value.transactions, Run(Start, lines, strptime, compiles).value.uniqueIdMap)
  {
    if lines != [] {
      var n := |lines| - 1;
      RunKeepsLast(lines[..n], strptime, compiles);
      RunLast(Start, lines, strptime, compiles);
      var prior := Run(Start, lines[..n], strptime, compiles);
      if prior.Success? {
        var st := prior.value;
        var r := Step(st, lines[n], strptime, compiles);
        StepAppendsOnlyAtBlank(st, lines[n], strptime, compiles);
        if r.Success? && r.value.transactions != st.transactions {
          var t := st.current.value;
          assert r.value.transactions[..|st.transactions|] == st.transactions;
          forall k
            ensures (k in r.value.uniqueIdMap <==> LastWithKey(r.value.transactions, k).Some?)
              && (k in r.value.uniqueIdMap ==> r.value.uniqueIdMap[k] == LastWithKey(r.value.transactions, k).value)
          {
          }
        }
      }
    }
  }

  /**
    After parse_file, each key of unique_id_map belongs to some transaction,
    each transaction's key is present, and the one kept is the last with it.
  */
  lemma UniqueIdMapKeepsLast(lines: seq<string>, strptime: Strptime, compiles: string -> bool)
    requires ParseFileSpec(lines, strptime, compiles).Success?
    ensures var j := ParseFileSpec(lines, strptime, compiles).value;
      && (forall k :: k in j.uniqueIdMap <==> exists i :: 0 <= i < |j.transactions| && UniqueKey(j.transactions[i]) == k)
      && (forall k :: k in j.uniqueIdMap ==>
            exists i :: 0 <= i < |j.transactions|
              && j.transactions[i] == j.uniqueIdMap[k] && UniqueKey(j.transactions[i]) == k
              && forall i' :: i < i' < |j.transactions| ==> UniqueKey(j.transactions[i']) != k)
  {
    RunKeepsLast(lines, strptime, compiles);
    var j := ParseFileSpec(lines, strptime, compiles).value;
    forall k {
      LastWithKeySpec(j.transactions, k);
    }
  }

  function HasDesc(d: string): Transaction -> bool {
    (t: Transaction) => t.desc == d
  }

  /** Where description d occurs in ts. */
  ghost predicate DescOccurs(ts: seq<Transaction>, d: string) {
    exists i :: 0 <= i < |ts| && ts[i].desc == d
  }

  /** The entry description_map should hold for d. */
  function DescAccounts(ts: seq<Transaction>, d: string): seq<string> {
    Flatten(Map(Accounts, Filter(HasDesc(d), ts)))
  }

  /**
    description_map has an entry for each description that occurs, holding the
    posting accounts of the transactions with it, in file order.
  */
  lemma {:induction false} DescriptionMapSpec(ts: seq<Transaction>)
    ensures forall d :: d in DescriptionMap(ts) <==> DescOccurs(ts, d)
    ensures forall d :: d in DescriptionMap(ts) ==> DescriptionMap(ts)[d] == DescAccounts(ts, d)
  {
    if ts != [] {
      DescriptionMapSpec(ts[..|ts| - 1]);
      forall d
        ensures d in DescriptionMap(ts) <==> DescOccurs(ts, d)
        ensures d in DescriptionMap(ts) ==> DescriptionMap(ts)[d] == DescAccounts(ts, d)
      {
        DescOccursStep(ts, d);
        DescAccountsStep(ts, d);
      }
    }
  }

  lemma DescOccursStep(ts: seq<Transaction>, d: string)
    requires ts != []
    ensures DescOccurs(ts, d) <==> DescOccurs(ts[..|ts| - 1], d) || ts[|ts| - 1].desc == d
  {
    var n := |ts| - 1;
    if DescOccurs(ts, d) && ts[n].desc != d {
      var i :| 0 <= i < |ts| && ts[i].desc == d;
      assert ts[..n][i] == ts[i];
    }
    if DescOccurs(ts[..n], d) {
      var i :| 0 <= i < n && ts[..n][i].desc == d;
      assert ts[i] == ts[..n][i];
    }
  }

  lemma DescAccountsStep(ts: seq<Transaction>, d: string)
    requires ts != []
    ensures DescAccounts(ts, d) ==
      DescAccounts(ts[..|ts| - 1], d) + (if ts[|ts| - 1].desc == d then Accounts(ts[|ts| - 1]) else [])
    ensures !DescOccurs(ts[..|ts| - 1], d) ==> DescAccounts(ts[..|ts| - 1], d) == []
  {
    var n := |ts| - 1;
    var t := ts[n];
    var init := ts[..n];
    assert ts == init + [t];
    FilterAppend(HasDesc(d), init, [t]);
    MapAppend(Accounts, Filter(HasDesc(d), init), Filter(HasDesc(d), [t]));
    FlattenAppend(Map(Accounts, Filter(HasDesc(d), init)), Map(Accounts, Filter(HasDesc(d), [t])));
    if t.desc == d {
      assert Filter(HasDesc(d), [t]) == [t];
      assert Flatten(Map(Accounts, [t])) == Accounts(t) by {
        assert Map(Accounts, [t]) == [Accounts(t)];
        assert Flatten([Accounts(t)]) == Accounts(t) + Flatten([]);
      }
    } else {
      assert Filter(HasDesc(d), [t]) == [];
    }
  }

  // ---------------------------------------------------------------- reading back what was written

  /** The posting as the reader gets it back: commodity and unit price are not written. */
  function Plain(p: Posting): Posting {
    Cash(p.account, p.quantity)
  }

  function PlainTransaction(t: Transaction): Transaction {
    t.(postings := Map(Plain, t.postings))
  }

  /** Non-empty with no whitespace at either end. */
  predicate Stripped(s: string) {
    s != [] && !PySpace(s[0]) && !PySpace(s[|s| - 1])
  }

  /** str() of this quantity reads back as it and has no commas. */
  predicate ShowsReadably(show: real -> string, q: real) {
    Stripped(show(q)) && ',' !in show(q) && ParseDecimal(show(q)) == Some(q)
  }

  /** A posting whose line reads back: an account without '$' that does not look like a comment. */
  predicate PostingWritable(p: Posting, show: real -> string) {
    Stripped(p.account) && '$' !in p.account && p.account[0] != ';'
    && (p.quantity != 0.0 ==> ShowsReadably(show, p.quantity))
  }

  lemma RStripKeeps(s: string)
    requires s != [] && !PySpace(s[|s| - 1])
    ensures PyRStrip(s) == s
  {
  }

  lemma RemoveAbsent(s: string, c: char)
    requires c !in s
    ensures RemoveChar(s, c) == s
  {
    if s != [] {
      RemoveAbsent(s[1..], c);
    }
  }

  /** A posting's line (with '  ' indentation) is read as a posting line and gives the posting back. */
  lemma PostingLineRoundTrip(p: Posting, show: real -> string)
    requires PostingWritable(p, show)
    ensures var line := PostingText(p, show);
      && PyRStrip(line) == line && Classify(line) == PostingLine && ParsePosting(line) == Success(Plain(p))
  {
    var a := p.account;
    var tail := if p.quantity != 0.0 then "    $ " + show(p.quantity) else "";
    PostingLineKind(a, tail);
    if p.quantity != 0.0 {
      PostingWithAmount(a, show(p.quantity), p.quantity);
    } else {
      PostingWithoutAmount(a);
    }
  }

  lemma PostingLineKind(a: string, tail: string)
    requires Stripped(a) && a[0] != ';'
    requires tail == [] || !PySpace(tail[|tail| - 1])
    ensures PyRStrip("  " + a + tail) == "  " + a + tail && Classify("  " + a + tail) == PostingLine
  {
    var line := "  " + a + tail;
    var rest := a + tail;
    assert line == "  " + rest;
    Indent2();
    LeadingPrefix(PySpace, "  ", rest);
    var k := LeadingCount(PySpace, line);
    assert k == 2 && line[k] == a[0];
    assert !RegexCommentShape(line) && !CommentShape(line) && PostingShape(line);
    assert line[0] == ' ';
    assert !StartsWith(line, "account") && !StartsWithDigit(line);
    assert line[|line| - 1] == rest[|rest| - 1];
    RStripKeeps(line);
  }

  lemma Indent2()
    ensures forall i :: 0 <= i < |"  "| ==> PySpace("  "[i])
  {
    BlanksAreSpace("  ");
  }

  lemma Indent4()
    ensures forall i :: 0 <= i < |"    "| ==> PySpace("    "[i])
  {
    BlanksAreSpace("    ");
  }

  lemma PostingWithAmount(a: string, v: string, q: real)
    requires Stripped(a) && '$' !in a
    requires Stripped(v) && ',' !in v && ParseDecimal(v) == Some(q)
    ensures ParsePosting("  " + a + ("    $ " + v)) == Success(Cash(a, q))
  {
    var head := "  " + a + "    ";
    var amount := " " + v;
    assert "  " + a + ("    $ " + v) == head + "$" + amount;
    AccountPadding(a);
    StripSpaceFront(v);
    RemoveAbsent(v, ',');
    PostingFromParts(head, amount, a, v, q);
  }

  lemma AccountPadding(a: string)
    requires Stripped(a) && '$' !in a
    ensures PyStrip("  " + a + "    ") == a && '$' !in "  " + a + "    "
  {
    Indent2();
    Indent4();
    StripPadded(PySpace, "  ", a, "    ");
  }

  lemma PostingFromParts(head: string, amount: string, a: string, v: string, q: real)
    requires '$' !in head && PyStrip(head) == a
    requires PyStrip(amount) == v && RemoveChar(v, ',') == v && ParseDecimal(v) == Some(q)
    ensures ParsePosting(head + "$" + amount) == Success(Cash(a, q))
  {
    ParsePostingWithAmount(head, amount);
  }

  lemma PostingWithoutAmount(a: string)
    requires Stripped(a) && '$' !in a
    ensures ParsePosting("  " + a + "") == Success(Cash(a, 0.0))
  {
    var line := "  " + a + "";
    assert line == "  " + a;
    ParsePostingWithoutAmount(line);
    Indent2();
    StripPadded(PySpace, "  ", a, "");
  }

  /** A description that survives the right strip of its header line. */
  predicate DescWritable(d: string) {
    d != [] && !PySpace(d[|d| - 1])
  }

  lemma DateTextShape(d: PyDate)
    ensures |DateText(d)| >= 10 && IsDigit(DateText(d)[0]) && ' ' !in DateText(d)
  {
    var y, m, dd := PadNat(d.year, 4), PadNat(d.month, 2), PadNat(d.day, 2);
    assert DateText(d) == y + "/" + m + "/" + dd;
    assert DateText(d)[0] == y[0];
    forall i | 0 <= i < |DateText(d)|
      ensures DateText(d)[i] != ' '
    {
      if i < |y| {
        assert DateText(d)[i] == y[i];
      } else if i == |y| || i == |y| + 1 + |m| {
      } else if i < |y| + 1 + |m| {
        assert DateText(d)[i] == m[i - |y| - 1];
      } else {
        assert DateText(d)[i] == dd[i - |y| - |m| - 2];
      }
    }
  }

  lemma DigitNotAccount(line: string)
    requires line != [] && IsDigit(line[0])
    ensures !StartsWith(line, "account")
  {
    if |line| >= 7 {
      assert line[..7][0] == line[0];
    }
  }

  /** A header line opens a transaction with its date and description. */
  lemma HeaderRoundTrip(st: ReadState, t: Transaction, strptime: Strptime, compiles: string -> bool)
    requires strptime(DateText(t.date), "%Y/%m/%d") == Some(t.date) && DescWritable(t.desc)
    ensures Step(st, HeaderText(t), strptime, compiles) == Success(st.(current := Some(Transaction(t.date, t.desc, []))))
  {
    var line := HeaderText(t);
    var dt := DateText(t.date);
    DateTextShape(t.date);
    assert line[0] == dt[0] && line[|line| - 1] == t.desc[|t.desc| - 1];
    RStripKeeps(line);
    DigitNotAccount(line);
    assert Classify(line) == Header;
    assert line == dt + [' '] + t.desc;
    SplitAtFirst(dt, t.desc, ' ', 1);
  }

  /** The state with qs added to the open transaction. */
  function AddPostings(st: ReadState, qs: seq<Posting>): ReadState
    requires st.current.Some?
  {
    st.(current := Some(st.current.value.(postings := st.current.value.postings + qs)))
  }

  lemma AddPostingsTwice(st: ReadState, qs: seq<Posting>, q: Posting)
    requires st.current.Some?
    ensures AddPostings(AddPostings(st, qs), [q]) == AddPostings(st, qs + [q])
  {
    assert st.current.value.postings + qs + [q] == st.current.value.postings + (qs + [q]);
  }

  /** A posting line adds its posting to the open transaction. */
  lemma PostingStep(st: ReadState, p: Posting, show: real -> string, strptime: Strptime, compiles: string -> bool)
    requires st.current.Some? && PostingWritable(p, show)
    ensures Step(st, PostingText(p, show), strptime, compiles) == Success(AddPostings(st, [Plain(p)]))
  {
    PostingLineRoundTrip(p, show);
    var line := PostingText(p, show);
    assert Step(st, line, strptime, compiles) == ReadPosting(st, line);
  }

  lemma PostingRunStep(st: ReadState, lines: seq<string>, mid: ReadState, p: Posting, show: real -> string, strptime: Strptime, compiles: string -> bool)
    requires lines != [] && Run(st, lines[..|lines| - 1], strptime, compiles) == Success(mid) && mid.current.Some?
    requires lines[|lines| - 1] == PostingText(p, show) && PostingWritable(p, show)
    ensures Run(st, lines, strptime, compiles) == Success(AddPostings(mid, [Plain(p)]))
  {
    PostingStep(mid, p, show, strptime, compiles);
    RunLast(st, lines, strptime, compiles);
  }

  /** Posting lines add their postings, in order, to the open transaction. */
  lemma {:induction false} PostingsRoundTrip(st: ReadState, ps: seq<Posting>, show: real -> string, strptime: Strptime, compiles: string -> bool)
    requires st.current.Some?
    requires forall i :: 0 <= i < |ps| ==> PostingWritable(ps[i], show)
    ensures Run(st, PostingLines(ps, show), strptime, compiles) == Success(AddPostings(st, Map(Plain, ps)))
  {
    var lines := PostingLines(ps, show);
    if ps == [] {
      assert st.current.value.postings + [] == st.current.value.postings;
    } else {
      var n := |ps| - 1;
      assert lines[..n] == PostingLines(ps[..n], show);
      PostingsRoundTrip(st, ps[..n], show, strptime, compiles);
      var mid := AddPostings(st, Map(Plain, ps[..n]));
      PostingRunStep(st, lines, mid, ps[n], show, strptime, compiles);
      AddPostingsTwice(st, Map(Plain, ps[..n]), Plain(ps[n]));
      MapSnoc(Plain, ps);
    }
  }

  lemma {:induction false} PlainTotal(f: Posting -> real, ps: seq<Posting>)
    requires forall p: Posting :: f(Plain(p)) == f(p)
    ensures Total(f, Map(Plain, ps)) == Total(f, ps)
  {
    if ps != [] {
      var n := |ps| - 1;
      assert Map(Plain, ps)[..n] == Map(Plain, ps[..n]);
      PlainTotal(f, ps[..n]);
    }
  }

  /** Reading back loses only commodities and unit prices, which the key does not look at. */
  lemma PlainKey(t: Transaction)
    ensures UniqueKey(PlainTransaction(t)) == UniqueKey(t)
    ensures Accounts(PlainTransaction(t)) == Accounts(t)
  {
    PlainTotal(Positive, t.postings);
    PlainTotal(NonPositive, t.postings);
  }

  /** str(t) is its header line and its posting lines, each ended by a newline. */
  lemma TransactionTextLines(t: Transaction, show: real -> string)
    requires t.postings != []
    ensures TransactionText(t, show) == Join([HeaderText(t)] + PostingLines(t.postings, show), "\n") + "\n"
  {
    JoinCons(HeaderText(t), PostingLines(t.postings, show), "\n");
  }

  /**
    Reading the lines of str(t) followed by a blank line, as a journal has
    between transactions, gives back t without commodities and unit prices,
    keyed by its unique-id key and described by its accounts.
  */
  lemma TransactionRoundTrip(t: Transaction, show: real -> string, strptime: Strptime, compiles: string -> bool)
    requires strptime(DateText(t.date), "%Y/%m/%d") == Some(t.date) && DescWritable(t.desc)
    requires forall i :: 0 <= i < |t.postings| ==> PostingWritable(t.postings[i], show)
    ensures ParseFileSpec([HeaderText(t)] + PostingLines(t.postings, show) + [""], strptime, compiles) ==
      Success(Journal([PlainTransaction(t)], map[UniqueKey(t) := PlainTransaction(t)], {},
                      map[t.desc := Accounts(t)], []))
  {
    var lines := [HeaderText(t)] + PostingLines(t.postings, show) + [""];
    var full := Start.(current := Some(PlainTransaction(t)));
    ReadTransaction(t, show, strptime, compiles);
    assert lines[..|lines| - 1] == [HeaderText(t)] + PostingLines(t.postings, show);
    BlankStep(full, strptime, compiles);
    RunLast(Start, lines, strptime, compiles);
    PlainKey(t);
    DescriptionMapSingle(PlainTransaction(t));
  }

  lemma DescriptionMapSingle(t: Transaction)
    ensures DescriptionMap([t]) == map[t.desc := Accounts(t)]
  {
    assert [t][..0] == [];
    assert [] + Accounts(t) == Accounts(t);
  }

  /** The header and posting lines leave the transaction open with all its postings. */
  lemma ReadTransaction(t: Transaction, show: real -> string, strptime: Strptime, compiles: string -> bool)
    requires strptime(DateText(t.date), "%Y/%m/%d") == Some(t.date) && DescWritable(t.desc)
    requires forall i :: 0 <= i < |t.postings| ==> PostingWritable(t.postings[i], show)
    ensures Run(Start, [HeaderText(t)] + PostingLines(t.postings, show), strptime, compiles) ==
      Success(Start.(current := Some(PlainTransaction(t))))
  {
    var open := Start.(current := Some(Transaction(t.date, t.desc, [])));
    var body := PostingLines(t.postings, show);
    HeaderRoundTrip(Start, t, strptime, compiles);
    assert Run(Start, [HeaderText(t)], strptime, compiles) == Success(open) by {
      assert [HeaderText(t)][..0] == [];
      RunLast(Start, [HeaderText(t)], strptime, compiles);
    }
    PostingsRoundTrip(open, t.postings, show, strptime, compiles);
    assert [] + Map(Plain, t.postings) == Map(Plain, t.postings);
    assert AddPostings(open, Map(Plain, t.postings)) == Start.(current := Some(PlainTransaction(t)));
    RunAppend(Start, [HeaderText(t)], body, strptime, compiles);
  }

  /** The blank line that follows closes the transaction. */
  lemma BlankStep(st: ReadState, strptime: Strptime, compiles: string -> bool)
    ensures Step(st, "", strptime, compiles) == Success(Close(st))
  {
    assert Classify(PyRStrip("")) == Blank;
  }
}
