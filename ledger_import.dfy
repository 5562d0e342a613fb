/**
  The journal reader of the interactive importer (a Python 2 program): it
  reads an existing ledger journal line by line into accounts and
  transactions, maps each description to the accounts used with it, and
  offers the known accounts for completion while new ones are entered.
  Dates stay the text before the first space of a header line.
*/
module LedgerImport {
  import opened Wrappers
  import opened Text
  import opened Seqs
  import opened PyBase
  import ImportModel
  import Folds

  /** Python 2's str.strip() and str.rstrip() on byte strings. */
  function Strip(s: string): string {
    StripBy(AsciiSpace, s)
  }

  function RStrip(s: string): string {
    RStripBy(AsciiSpace, s)
  }

  // ---------------------------------------------------------------- postings and transactions

  /** A posting; the quantity is None when its line has no '$'. */
  datatype Posting = Posting(account: string, quantity: Option<real>)

  /** A transaction whose date is kept as the text it was read from. */
  datatype Transaction = Transaction(date: string, desc: string, postings: seq<Posting>)

  /** Posting.__str__: the amount is printed whenever there is one, zero included. */
  function PostingText(p: Posting, show: real -> string): string {
    "  " + p.account + (if p.quantity.Some? then " $ " + show(p.quantity.value) else "")
  }

  // ---------------------------------------------------------------- line classification

  datatype LineKind = AccountDirective | Header | Comment | PostingLine | Blank | Unexpected

  /** `^\s*;` */
  predicate CommentShape(line: string) {
    var k := LeadingCount(AsciiSpace, line);
    k < |line| && line[k] == ';'
  }

  /** `^\s+\S+` */
  predicate PostingShape(line: string) {
    0 < LeadingCount(AsciiSpace, line) < |line|
  }

  /** The tests of parse_file, in the order they are tried. */
  function Classify(line: string): LineKind {
    if StartsWith(line, "account") then AccountDirective
    else if ImportModel.StartsWithDigit(line) then Header
    else if CommentShape(line) then Comment
    else if PostingShape(line) then PostingLine
    else if Strip(line) == [] then Blank
    else Unexpected
  }

  /** The classification of the other journal reader, whose regex comments are comments here. */
  function WithoutRegexComments(k: ImportModel.LineKind): LineKind {
    match k
    case AccountDirective => AccountDirective
    case Header => Header
    case RegexComment => Comment
    case Comment => Comment
    case PostingLine => PostingLine
    case Blank => Blank
    case Unexpected => Unexpected
  }

  /** Neither Python 2's nor Python 3's notion of whitespace goes beyond the other on c. */
  predicate SameSpace(c: char) {
    AsciiSpace(c) == PySpace(c)
  }

  /**
    On lines where the two notions of whitespace agree (every line of printable
    ASCII text, for instance), this reader classifies a line as the other one
    does, with regex comments taken as plain comments.
  */
  lemma ClassifyAsOtherReader(line: string)
    requires forall i :: 0 <= i < |line| ==> SameSpace(line[i])
    ensures Classify(line) == WithoutRegexComments(ImportModel.Classify(line))
  {
    LeadingCountAgree(AsciiSpace, PySpace, line);
    StripByAgree(AsciiSpace, PySpace, line);
    CommentShapeAgrees(line);
    ClassifyAgrees(line);
  }

  lemma ClassifyAgrees(line: string)
    requires CommentShape(line) == ImportModel.CommentShape(line)
    requires ImportModel.RegexCommentShape(line) ==> CommentShape(line)
    requires LeadingCount(AsciiSpace, line) == LeadingCount(PySpace, line)
    requires Strip(line) == PyStrip(line)
    ensures Classify(line) == WithoutRegexComments(ImportModel.Classify(line))
  {
    var other := ImportModel.Classify(line);
    if StartsWith(line, "account") || ImportModel.StartsWithDigit(line) {
    } else if ImportModel.RegexCommentShape(line) {
      assert other == ImportModel.RegexComment && Classify(line) == Comment;
    } else {
      assert PostingShape(line) == ImportModel.PostingShape(line);
    }
  }

  lemma CommentShapeAgrees(line: string)
    requires LeadingCount(AsciiSpace, line) == LeadingCount(PySpace, line)
    ensures CommentShape(line) == ImportModel.CommentShape(line)
    ensures ImportModel.RegexCommentShape(line) ==> CommentShape(line)
  {
  }

  /** A posting line: the account before the first '$', and the amount after it when there is one. */
  function ParsePosting(line: string): (r: Result<Posting, PyError>)
    ensures r.Failure? ==> '$' in line
  {
    var parts := SplitChar(line, '$', 1);
    if |parts| == 2 then
      match Dec(RemoveChar(Strip(parts[1]), ','))
      case Failure(e) => Failure(e)
      case Success(q) => Success(Posting(Strip(parts[0]), Some(q)))
    else
      SplitNoCut(line, '$');
      Success(Posting(Strip(parts[0]), None))
  }

  /** s.split(c, 1) gives one piece only when c does not occur. */
  lemma SplitNoCut(s: string, c: char)
    requires |SplitChar(s, c, 1)| != 2
    ensures c !in s
  {
    if FindChar(s, c).Some? {
      SplitCharStep(s, c, 1, FindChar(s, c).value);
    }
  }

  // ---------------------------------------------------------------- reading a journal

  /** The reader's variables between two lines: the journal's lists and the open transaction. */
  datatype ReadState = ReadState(accounts: seq<string>, transactions: seq<Transaction>, current: Option<Transaction>)

  const Start := ReadState([], [], None)

  /** `account NAME` appends the stripped text after the first space, duplicates included. */
  function ReadAccount(st: ReadState, line: string): (r: Result<ReadState, PyError>)
    ensures r.Success? ==> r.value.transactions == st.transactions && r.value.current == st.current
    ensures r.Success? ==> |r.value.accounts| == |st.accounts| + 1 && r.value.accounts[..|st.accounts|] == st.accounts
  {
    var parts := SplitChar(line, ' ', 1);
    if |parts| < 2 then Failure(IndexError)
    else Success(st.(accounts := st.accounts + [Strip(parts[1])]))
  }

  /** A header opens a transaction; with no space, unpacking the split raises ValueError. */
  function ReadHeader(st: ReadState, line: string): (r: Result<ReadState, PyError>)
    ensures r.Success? <==> ' ' in line
    ensures r.Success? ==> r.value.accounts == st.accounts && r.value.transactions == st.transactions
    ensures r.Success? ==> r.value.current.Some? && r.value.current.value.postings == []
  {
    var parts := SplitChar(line, ' ', 1);
    if |parts| != 2 then
      SplitNoCut(line, ' ');
      Failure(ValueError(line))
    else
      SplitHasCut(line, ' ');
      Success(st.(current := Some(Transaction(parts[0], parts[1], []))))
  }

  lemma SplitHasCut(s: string, c: char)
    requires |SplitChar(s, c, 1)| == 2
    ensures c in s
  {
  }

  /** A posting joins the open transaction; with none open, trans.postings raises AttributeError. */
  function ReadPosting(st: ReadState, line: string): (r: Result<ReadState, PyError>)
    ensures r.Success? ==> st.current.Some? && r.value.accounts == st.accounts && r.value.transactions == st.transactions
    ensures r.Success? ==> r.value.current.Some? && |r.value.current.value.postings| == |st.current.value.postings| + 1
  {
    var p := ParsePosting(line);
    if p.Failure? then Failure(p.error)
    else if st.current.None? then Failure(AttributeError("postings"))
    else Success(st.(current := Some(st.current.value.(postings := st.current.value.postings + [p.value]))))
  }

  /** A blank line appends the open transaction, if any, and closes it. */
  function Close(st: ReadState): (r: ReadState)
    ensures r.current.None? && r.accounts == st.accounts
    ensures r.transactions == if st.current.Some? then st.transactions + [st.current.value] else st.transactions
  {
    if st.current.None? then st
    else st.(transactions := st.transactions + [st.current.value], current := None)
  }

  /** One line of parse_file. */
  function Step(st: ReadState, raw: string): Result<ReadState, PyError> {
    var line := RStrip(raw);
    match Classify(line)
    case AccountDirective => ReadAccount(st, line)
    case Header => ReadHeader(st, line)
    case Comment => Success(st)
    case PostingLine => ReadPosting(st, line)
    case Blank => Success(Close(st))
    case Unexpected => Failure(Raised(line))
  }

  /**
    A transaction is appended only at a blank line, and only while one is
    open; every unrecognised non-blank line raises.
  */
  lemma StepAppendsOnlyAtBlank(st: ReadState, raw: string)
    ensures var r := Step(st, raw);
      r.Success? ==>
        || r.value.transactions == st.transactions
        || (Classify(RStrip(raw)) == Blank && st.current.Some?
            && r.value.transactions == st.transactions + [st.current.value])
    ensures Classify(RStrip(raw)) == Unexpected ==> Step(st, raw) == Failure(Raised(RStrip(raw)))
    ensures Classify(RStrip(raw)) == Blank ==> Step(st, raw) == Success(Close(st))
  {
    if Classify(RStrip(raw)) == Blank {
      assert Step(st, raw) == Success(Close(st));
    }
  }

  /** The lines read one after the other from st; the first exception stops the reading. */
  function Run(st: ReadState, lines: seq<string>): Result<ReadState, PyError> {
    Folds.Steps(Step, st, lines)
  }

  lemma RunNext(st: ReadState, lines: seq<string>, i: nat)
    requires i < |lines| && Run(st, lines[..i]).Success?
    ensures Run(st, lines[..i + 1]) == Step(Run(st, lines[..i]).value, lines[i])
  {
    Folds.StepsNext(Step, st, lines, i);
  }

  /** Reading a single line. */
  lemma RunOne(st: ReadState, line: string, next: ReadState)
    requires Step(st, line) == Success(next)
    ensures Run(st, [line]) == Success(next)
  {
    assert [line][..0] == [] && [line][..1] == [line];
    assert Run(st, []) == Success(st);
    RunNext(st, [line], 0);
  }

  /** Reading one more line after lines. */
  lemma RunThen(st: ReadState, lines: seq<string>, line: string, mid: ReadState, next: ReadState)
    requires Run(st, lines) == Success(mid) && Step(mid, line) == Success(next)
    ensures Run(st, lines + [line]) == Success(next)
  {
    var all := lines + [line];
    assert all[..|lines|] == lines && all[..|lines| + 1] == all;
    RunNext(st, all, |lines|);
  }

  lemma RunStops(lines: seq<string>, i: nat)
    requires i < |lines| && Run(Start, lines[..i]).Success? && Step(Run(Start, lines[..i]).value, lines[i]).Failure?
    ensures Run(Start, lines) == Failure(Step(Run(Start, lines[..i]).value, lines[i]).error)
  {
    Folds.StepsStop(Step, Start, lines, i);
  }

  // ---------------------------------------------------------------- reading back what was written

  /** Non-empty with no whitespace at either end. */
  predicate Stripped(s: string) {
    s != [] && !AsciiSpace(s[0]) && !AsciiSpace(s[|s| - 1])
  }

  /** str() of the quantity reads back as it and has no commas. */
  predicate ShowsReadably(show: real -> string, q: real) {
    Stripped(show(q)) && ',' !in show(q) && ParseDecimal(show(q)) == Some(q)
  }

  /** An account without '$' that does not look like a comment, and a readable amount. */
  predicate PostingWritable(p: Posting, show: real -> string) {
    Stripped(p.account) && '$' !in p.account && p.account[0] != ';'
    && (p.quantity.Some? ==> ShowsReadably(show, p.quantity.value))
  }

  lemma IndentIsSpace(s: string)
    requires forall i :: 0 <= i < |s| ==> s[i] == ' '
    ensures forall i :: 0 <= i < |s| ==> AsciiSpace(s[i])
  {
  }

  /** The line of a posting is read as a posting line that gives the posting back, zero amounts included. */
  lemma PostingRoundTrip(p: Posting, show: real -> string)
    requires PostingWritable(p, show)
    ensures var line := PostingText(p, show);
      && RStrip(line) == line && Classify(line) == PostingLine && ParsePosting(line) == Success(p)
  {
    var a := p.account;
    var tail := if p.quantity.Some? then " $ " + show(p.quantity.value) else "";
    PostingLineKind(a, tail);
    if p.quantity.Some? {
      PostingWithAmount(a, show(p.quantity.value), p.quantity.value);
    } else {
      PostingWithoutAmount(a);
    }
  }

  lemma PostingLineKind(a: string, tail: string)
    requires Stripped(a) && a[0] != ';'
    requires tail == [] || !AsciiSpace(tail[|tail| - 1])
    ensures RStrip("  " + a + tail) == "  " + a + tail && Classify("  " + a + tail) == PostingLine
  {
    var line := "  " + a + tail;
    var rest := a + tail;
    assert line == "  " + rest;
    IndentIsSpace("  ");
    LeadingPrefix(AsciiSpace, "  ", rest);
    var k := LeadingCount(AsciiSpace, line);
    assert k == 2 && line[k] == a[0];
    assert line[0] == ' ';
    assert line[|line| - 1] == rest[|rest| - 1];
    ClassifyPosting(line);
  }

  lemma ClassifyPosting(line: string)
    requires 0 < LeadingCount(AsciiSpace, line) < |line| && line[LeadingCount(AsciiSpace, line)] != ';'
    requires line[0] == ' '
    ensures Classify(line) == PostingLine
  {
    assert !StartsWith(line, "account") && !ImportModel.StartsWithDigit(line);
  }

  lemma PostingWithAmount(a: string, v: string, q: real)
    requires Stripped(a) && '$' !in a
    requires Stripped(v) && ',' !in v && ParseDecimal(v) == Some(q)
    ensures ParsePosting("  " + a + (" $ " + v)) == Success(Posting(a, Some(q)))
  {
    var head := "  " + a + " ";
    var amount := " " + v;
    assert "  " + a + (" $ " + v) == head + "$" + amount;
    HeadPadding(a);
    AmountPadding(v);
    ImportModel.RemoveAbsent(v, ',');
    PostingFromParts(head, amount, a, v, q);
  }

  lemma HeadPadding(a: string)
    requires Stripped(a) && '$' !in a
    ensures Strip("  " + a + " ") == a && '$' !in "  " + a + " "
  {
    IndentIsSpace("  ");
    IndentIsSpace(" ");
    StripPadded(AsciiSpace, "  ", a, " ");
  }

  lemma AmountPadding(v: string)
    requires Stripped(v)
    ensures Strip(" " + v) == v
  {
    IndentIsSpace(" ");
    StripPadded(AsciiSpace, " ", v, "");
    assert " " + v + "" == " " + v;
  }

  lemma PostingFromParts(head: string, amount: string, a: string, v: string, q: real)
    requires '$' !in head && Strip(head) == a
    requires Strip(amount) == v && RemoveChar(v, ',') == v && ParseDecimal(v) == Some(q)
    ensures ParsePosting(head + "$" + amount) == Success(Posting(a, Some(q)))
  {
    assert head + "$" + amount == head + ['$'] + amount;
    SplitAtFirst(head, amount, '$', 1);
  }

  lemma PostingWithoutAmount(a: string)
    requires Stripped(a) && '$' !in a
    ensures ParsePosting("  " + a + "") == Success(Posting(a, None))
  {
    var line := "  " + a + "";
    assert line == "  " + a;
    SplitNone(line, '$', 1);
    IndentIsSpace("  ");
    StripPadded(AsciiSpace, "  ", a, "");
  }

  /** A line that rstrip leaves alone is read by the branch its class names. */
  lemma StepKind(st: ReadState, line: string)
    requires RStrip(line) == line
    ensures Classify(line) == AccountDirective ==> Step(st, line) == ReadAccount(st, line)
    ensures Classify(line) == Header ==> Step(st, line) == ReadHeader(st, line)
    ensures Classify(line) == PostingLine ==> Step(st, line) == ReadPosting(st, line)
  {
  }

  lemma RStripKeeps(s: string)
    requires s != [] && !AsciiSpace(s[|s| - 1])
    ensures RStrip(s) == s
  {
  }

  /** An `account NAME` line appends NAME. */
  lemma AccountLineStep(st: ReadState, name: string)
    requires Stripped(name)
    ensures Step(st, "account " + name) == Success(st.(accounts := st.accounts + [name]))
  {
    AccountLineKind(name);
    StepKind(st, "account " + name);
    ReadAccountLine(st, name);
  }

  lemma AccountLineKind(name: string)
    requires Stripped(name)
    ensures RStrip("account " + name) == "account " + name && Classify("account " + name) == AccountDirective
  {
    var line := "account " + name;
    assert line[|line| - 1] == name[|name| - 1];
    RStripKeeps(line);
    assert StartsWith(line, "account");
  }

  lemma ReadAccountLine(st: ReadState, name: string)
    requires Stripped(name)
    ensures ReadAccount(st, "account " + name) == Success(st.(accounts := st.accounts + [name]))
  {
    SplitAccountLine(name);
    StrippedKeeps(name);
  }

  lemma SplitAccountLine(name: string)
    ensures SplitChar("account " + name, ' ', 1) == ["account", name]
  {
    assert "account " + name == "account" + [' '] + name;
    SplitAtFirst("account", name, ' ', 1);
  }

  lemma StrippedKeeps(s: string)
    requires Stripped(s)
    ensures Strip(s) == s
  {
  }

  /**
    The reader keeps an account listed twice in the file twice, while the
    command loop never adds a known account again.
  */
  lemma DuplicateAccountLines(name: string)
    requires Stripped(name)
    ensures Run(Start, ["account " + name, "account " + name]) == Success(ReadState([name, name], [], None))
    ensures AddAccount(AddAccount([], name), name) == [name]
  {
    var line := "account " + name;
    var lines := [line, line];
    var one := Start.(accounts := [name]);
    AccountLineStep(Start, name);
    assert Start.accounts + [name] == [name];
    RunOne(Start, line, one);
    AccountLineStep(one, name);
    assert one.accounts + [name] == [name, name];
    RunThen(Start, [line], line, one, ReadState([name, name], [], None));
    assert [line] + [line] == lines;
  }

  /** Transaction.__str__: the header, the posting lines, each ended by a newline. */
  function TransactionText(t: Transaction, show: real -> string): string {
    t.date + " " + t.desc + "\n" + Join(PostingLines(t.postings, show), "\n") + "\n"
  }

  function PostingLines(ps: seq<Posting>, show: real -> string): (r: seq<string>)
    ensures |r| == |ps|
    ensures forall i :: 0 <= i < |ps| ==> r[i] == PostingText(ps[i], show)
  {
    Map(p => PostingText(p, show), ps)
  }

  function HeaderText(t: Transaction): string {
    t.date + " " + t.desc
  }

  /** str(t) is its header line and one line per posting. */
  lemma TransactionTextLines(t: Transaction, show: real -> string)
    requires t.postings != []
    ensures TransactionText(t, show) == Join([HeaderText(t)] + PostingLines(t.postings, show), "\n") + "\n"
  {
    JoinCons(HeaderText(t), PostingLines(t.postings, show), "\n");
  }

  /** A transaction whose header reads back: a date made of a digit and no space, and a description. */
  predicate HeaderWritable(t: Transaction) {
    t.date != [] && IsDigit(t.date[0]) && ' ' !in t.date
    && t.desc != [] && !AsciiSpace(t.desc[|t.desc| - 1])
  }

  lemma HeaderStep(st: ReadState, t: Transaction)
    requires HeaderWritable(t)
    ensures Step(st, HeaderText(t)) == Success(st.(current := Some(Transaction(t.date, t.desc, []))))
  {
    var line := HeaderText(t);
    assert line[0] == t.date[0] && line[|line| - 1] == t.desc[|t.desc| - 1];
    assert !StartsWith(line, "account");
    assert ImportModel.StartsWithDigit(line);
    RStripKeeps(line);
    StepKind(st, line);
    assert line == t.date + [' '] + t.desc;
    SplitAtFirst(t.date, t.desc, ' ', 1);
  }

  /** The state with qs added to the open transaction. */
  function AddPostings(st: ReadState, qs: seq<Posting>): ReadState
    requires st.current.Some?
  {
    st.(current := Some(st.current.value.(postings := st.current.value.postings + qs)))
  }

  lemma AddPostingsTwice(st: ReadState, qs: seq<Posting>, q: Posting)
    requires st.current.Some?
    ensures AddPostings(AddPostings(st, qs), [q]) == AddPostings(st, qs + [q])
  {
    assert st.current.value.postings + qs + [q] == st.current.value.postings + (qs + [q]);
  }

  lemma PostingStep(st: ReadState, p: Posting, show: real -> string)
    requires st.current.Some? && PostingWritable(p, show)
    ensures Step(st, PostingText(p, show)) == Success(AddPostings(st, [p]))
  {
    PostingRoundTrip(p, show);
    StepKind(st, PostingText(p, show));
  }

  /** Posting lines add their postings, in order, to the open transaction. */
  lemma {:induction false} PostingsRoundTrip(st: ReadState, ps: seq<Posting>, show: real -> string)
    requires st.current.Some?
    requires forall i :: 0 <= i < |ps| ==> PostingWritable(ps[i], show)
    ensures Run(st, PostingLines(ps, show)) == Success(AddPostings(st, ps))
  {
    var lines := PostingLines(ps, show);
    if ps == [] {
      assert st.current.value.postings + [] == st.current.value.postings;
    } else {
      var n := |ps| - 1;
      assert lines[..n] == PostingLines(ps[..n], show);
      PostingsRoundTrip(st, ps[..n], show);
      var mid := AddPostings(st, ps[..n]);
      PostingStep(mid, ps[n], show);
      AddPostingsTwice(st, ps[..n], ps[n]);
      Snoc(ps);
      RunThen(st, lines[..n], lines[n], mid, AddPostings(st, ps));
      Snoc(lines);
    }
  }

  /**
    Reading the lines of str(t) and the blank line that separates
    transactions appends t exactly: dates, descriptions, accounts and amounts,
    zero amounts included.
  */
  lemma TransactionRoundTrip(st: ReadState, t: Transaction, show: real -> string)
    requires st.current.None? && HeaderWritable(t)
    requires forall i :: 0 <= i < |t.postings| ==> PostingWritable(t.postings[i], show)
    ensures Run(st, [HeaderText(t)] + PostingLines(t.postings, show) + [""]) ==
      Success(st.(transactions := st.transactions + [t]))
  {
    var body := PostingLines(t.postings, show);
    var open := st.(current := Some(Transaction(t.date, t.desc, [])));
    var full := st.(current := Some(t));
    HeaderStep(st, t);
    RunOne(st, HeaderText(t), open);
    PostingsRoundTrip(open, t.postings, show);
    assert [] + t.postings == t.postings;
    assert AddPostings(open, t.postings) == full;
    Folds.StepsAppend(Step, st, [HeaderText(t)], body);
    BlankStep(full);
    assert Close(full) == st.(transactions := st.transactions + [t]);
    RunThen(st, [HeaderText(t)] + body, "", full, Close(full));
  }

  lemma BlankStep(st: ReadState)
    ensures Step(st, "") == Success(Close(st))
  {
    assert Classify(RStrip("")) == Blank;
  }

  // ---------------------------------------------------------------- the description map

  function AccountSet(t: Transaction): set<string> {
    set i | 0 <= i < |t.postings| :: t.postings[i].account
  }

  /**
    desc_acct_map after build_desc_acct_map has run over ts: the defaultdict
    gains a key for every description met, even one whose transaction has no
    postings, and the accounts of its postings.
  */
  function DescAcctMap(m: map<string, set<string>>, ts: seq<Transaction>): map<string, set<string>> {
    if ts == [] then m
    else
      var prior := DescAcctMap(m, ts[..|ts| - 1]);
      var t := ts[|ts| - 1];
      prior[t.desc := (if t.desc in prior then prior[t.desc] else {}) + AccountSet(t)]
  }

  /** Some transaction described d has a posting to a. */
  ghost predicate UsedWith(ts: seq<Transaction>, d: string, a: string) {
    exists i, k :: 0 <= i < |ts| && ts[i].desc == d && 0 <= k < |ts[i].postings| && ts[i].postings[k].account == a
  }

  ghost predicate Described(ts: seq<Transaction>, d: string) {
    exists i :: 0 <= i < |ts| && ts[i].desc == d
  }

  /**
    Built from nothing, the map has a key for exactly the descriptions of the
    transactions, and under each the union of the accounts of the
    transactions with that description.
  */
  lemma {:induction false} DescAcctMapSpec(ts: seq<Transaction>, d: string, a: string)
    ensures d in DescAcctMap(map[], ts) <==> Described(ts, d)
    ensures d in DescAcctMap(map[], ts) ==> (a in DescAcctMap(map[], ts)[d] <==> UsedWith(ts, d, a))
  {
    if ts != [] {
      var n := |ts| - 1;
      DescAcctMapSpec(ts[..n], d, a);
      DescribedStep(ts, d);
      UsedWithStep(ts, d, a);
    }
  }

  lemma DescribedStep(ts: seq<Transaction>, d: string)
    requires ts != []
    ensures Described(ts, d) <==> Described(ts[..|ts| - 1], d) || ts[|ts| - 1].desc == d
  {
    var n := |ts| - 1;
    if Described(ts, d) && ts[n].desc != d {
      var i :| 0 <= i < |ts| && ts[i].desc == d;
      assert ts[..n][i] == ts[i];
    }
    if Described(ts[..n], d) {
      var i :| 0 <= i < n && ts[..n][i].desc == d;
      assert ts[i] == ts[..n][i];
    }
  }

  lemma UsedWithStep(ts: seq<Transaction>, d: string, a: string)
    requires ts != []
    ensures UsedWith(ts, d, a) <==>
      UsedWith(ts[..|ts| - 1], d, a) || (ts[|ts| - 1].desc == d && a in AccountSet(ts[|ts| - 1]))
  {
    var n := |ts| - 1;
    var t := ts[n];
    if UsedWith(ts, d, a) && !UsedWith(ts[..n], d, a) {
      var i, k :| 0 <= i < |ts| && ts[i].desc == d && 0 <= k < |ts[i].postings| && ts[i].postings[k].account == a;
    }
    if UsedWith(ts[..n], d, a) {
      var i, k :| 0 <= i < n && ts[..n][i].desc == d && 0 <= k < |ts[..n][i].postings| && ts[..n][i].postings[k].account == a;
      assert ts[i] == ts[..n][i];
    }
    if t.desc == d && a in AccountSet(t) {
      var k :| 0 <= k < |t.postings| && t.postings[k].account == a;
      assert ts[n].postings[k].account == a;
    }
  }

  // ---------------------------------------------------------------- the account list of the command loop

  /** LedgerImportCmd.default: the entered account is appended unless already known. */
  function AddAccount(accounts: seq<string>, line: string): (r: seq<string>)
    ensures line in r && |accounts| <= |r| <= |accounts| + 1 && r[..|accounts|] == accounts
    ensures forall a :: a in r <==> a in accounts || a == line
    ensures line in accounts <==> r == accounts
  {
    if line in accounts then accounts else accounts + [line]
  }

  predicate Distinct(xs: seq<string>) {
    forall i, j :: 0 <= i < j < |xs| ==> xs[i] != xs[j]
  }

  /** Entering accounts never makes a name appear twice. */
  lemma AddAccountDistinct(accounts: seq<string>, line: string)
    requires Distinct(accounts)
    ensures Distinct(AddAccount(accounts, line))
  {
  }

  /** completenames: the known accounts that start with the text typed, in list order. */
  function Completions(accounts: seq<string>, text: string): (r: seq<string>)
    ensures forall c :: c in r <==> c in accounts && StartsWith(c, text)
  {
    var r := Filter(c => StartsWith(c, text), accounts);
    assert forall c :: c in r ==> StartsWith(c, text) by {
      forall c | c in r
        ensures StartsWith(c, text)
      {
        var i :| 0 <= i < |r| && r[i] == c;
      }
    }
    r
  }

  /** Appending an account adds it at the end of the completions that it matches. */
  lemma CompletionsAppend(accounts: seq<string>, a: string, text: string)
    ensures Completions(accounts + [a], text) ==
      Completions(accounts, text) + (if StartsWith(a, text) then [a] else [])
  {
    FilterAppend(c => StartsWith(c, text), accounts, [a]);
    assert [a][1..] == [];
  }

  /** With nothing typed every account is offered, in list order. */
  lemma CompletionsEmpty(accounts: seq<string>)
    ensures Completions(accounts, "") == accounts
  {
    FilterAll(c => StartsWith(c, ""), accounts);
  }

  // ---------------------------------------------------------------- the journal object

  class Journal {
    var transactions: seq<Transaction>
    var accounts: seq<string>
    var descAcctMap: map<string, set<string>>

    constructor ()
      ensures transactions == [] && accounts == [] && descAcctMap == map[]
    {
      transactions := [];
      accounts := [];
      descAcctMap := map[];
    }

    /** build_desc_acct_map: each transaction's accounts join the set under its description. */
    method BuildDescAcctMap()
      modifies this
      ensures descAcctMap == DescAcctMap(old(descAcctMap), transactions)
      ensures transactions == old(transactions) && accounts == old(accounts)
    {
      for i := 0 to |transactions|
        invariant transactions == old(transactions) && accounts == old(accounts)
        invariant descAcctMap == DescAcctMap(old(descAcctMap), transactions[..i])
      {
        assert transactions[..i + 1][..i] == transactions[..i];
        var trans := transactions[i];
        var prior := if trans.desc in descAcctMap then descAcctMap[trans.desc] else {};
        descAcctMap := descAcctMap[trans.desc := prior + AccountSet(trans)];
      }
      assert transactions[..|transactions|] == transactions;
    }

    /** Journal.parse_file over the lines of the file. */
    static method ParseFile(lines: seq<string>) returns (r: Result<Journal, PyError>)
      ensures r.Success? <==> Run(Start, lines).Success?
      ensures r.Failure? ==> r.error == Run(Start, lines).error
      ensures r.Success? ==> fresh(r.value)
      ensures r.Success? ==> r.value.accounts == Run(Start, lines).value.accounts
      ensures r.Success? ==> r.value.transactions == Run(Start, lines).value.transactions
      ensures r.Success? ==> r.value.descAcctMap == DescAcctMap(map[], r.value.transactions)
    {
      var journal := new Journal();
      var trans: Option<Transaction> := None;
      for i := 0 to |lines|
        invariant Run(Start, lines[..i]) == Success(ReadState(journal.accounts, journal.transactions, trans))
        invariant journal.descAcctMap == map[]
      {
        RunNext(Start, lines, i);
        var prior := ReadState(journal.accounts, journal.transactions, trans);
        var next := ReadLine(prior, lines[i]);
        if next.Failure? {
          RunStops(lines, i);
          return Failure(next.error);
        }
        journal.accounts, journal.transactions, trans := next.value.accounts, next.value.transactions, next.value.current;
      }
      assert lines[..|lines|] == lines;
      journal.BuildDescAcctMap();
      r := Success(journal);
    }
  }

  /** The body of parse_file's loop. */
  method ReadLine(st: ReadState, raw: string) returns (r: Result<ReadState, PyError>)
    ensures r == Step(st, raw)
  {
    var accounts, transactions, trans := st.accounts, st.transactions, st.current;
    var line := RStrip(raw);
    var kind := Classify(line);
    if kind == AccountDirective {
      var parts := SplitChar(line, ' ', 1);
      if |parts| < 2 {
        return Failure(IndexError);
      }
      accounts := accounts + [Strip(parts[1])];
    } else if kind == Header {
      var parts := SplitChar(line, ' ', 1);
      if |parts| != 2 {
        return Failure(ValueError(line));
      }
      trans := Some(Transaction(parts[0], parts[1], []));
    } else if kind == Comment {
    } else if kind == PostingLine {
      var posting := ParsePosting(line);
      if posting.Failure? {
        return Failure(posting.error);
      }
      if trans.None? {
        return Failure(AttributeError("postings"));
      }
      trans := Some(trans.value.(postings := trans.value.postings + [posting.value]));
    } else if kind == Blank {
      if trans.Some? {
        transactions := transactions + [trans.value];
      }
      trans := None;
    } else {
      return Failure(Raised(line));
    }
    r := Success(ReadState(accounts, transactions, trans));
  }

  /** The command loop's hold on the journal it completes accounts from. */
  class LedgerImportCmd {
    var journal: Journal

    constructor (journal: Journal)
      ensures this.journal == journal
    {
      this.journal := journal;
    }

    /** default(line): an entered account joins the journal's list unless it is there already. */
    method Default(line: string)
      modifies journal
      ensures journal.accounts == AddAccount(old(journal.accounts), line)
      ensures journal.transactions == old(journal.transactions) && journal.descAcctMap == old(journal.descAcctMap)
    {
      if line !in journal.accounts {
        journal.accounts := journal.accounts + [line];
      }
    }

    function CompleteNames(text: string): (r: seq<string>)
      reads this, journal
      ensures forall c :: c in r <==> c in journal.accounts && StartsWith(c, text)
    {
      Completions(journal.accounts, text)
    }
  }
}
