/**
  The account list of a QIF export (qif_to_ledger.py, Python 2): the text is cut
  into `^`-terminated blobs, each blob's lines name an account (`N…`) and give its
  type (`T…`, `I`, `E`), and every blob with both yields the ledger account
  `Type:Name`.
*/
module Qif {
  import opened Wrappers
  import opened Text
  import opened PyBase
  import Seqs
  import Folds

  /** The name and ledger type a blob has given so far; "" is still unset. */
  datatype Blob = Blob(name: string, kind: string)

  const Unset := Blob("", "")

  /** The four ledger types a blob can set. */
  predicate LedgerKind(kind: string) {
    kind == "Assets" || kind == "Liabilities" || kind == "Income" || kind == "Expenses"
  }

  /** The lines of a blob that set its type, and the type they set; "" for any other line. */
  function KindOf(line: string): string {
    if line == "TBank" || line == "TOth A" || line == "TInvst" then "Assets"
    else if line == "TCCard" then "Liabilities"
    else if line == "I" then "Income"
    else if line == "E" then "Expenses"
    else ""
  }

  predicate NameLine(line: string) {
    line != "" && line[0] == 'N'
  }

  /** Empty lines, the balance/description/cleared/reconciled fields and the bare `T`. */
  predicate IgnoredLine(line: string) {
    line == "" || line[0] == 'B' || line[0] == 'D' || line[0] == 'X' || line[0] == 'R' || line == "T"
  }

  /** One line of a blob, in the order qif_to_ledger.py tests it. */
  function LineStep(b: Blob, line: string): Result<Blob, PyError> {
    if line == "" then Success(b)
    else if line[0] == 'N' then Success(b.(name := line[1..]))
    else if line == "TBank" || line == "TOth A" || line == "TInvst" then Success(b.(kind := "Assets"))
    else if line == "TCCard" then Success(b.(kind := "Liabilities"))
    else if line[0] == 'B' || line[0] == 'D' || line[0] == 'X' || line[0] == 'R' then Success(b)
    else if line == "T" then Success(b)
    else if line == "I" then Success(b.(kind := "Income"))
    else if line == "E" then Success(b.(kind := "Expenses"))
    else Failure(Raised(line))
  }

  /** The lines of one blob, after Python 2's strip(). */
  function BlobLines(piece: string): seq<string> {
    SplitAll(StripBy(AsciiSpace, piece), '\n')
  }

  /** What the lines of one blob set, or the line that raised. */
  function ReadBlob(piece: string): Result<Blob, PyError> {
    Folds.Steps(LineStep, Unset, BlobLines(piece))
  }

  /** The account a finished blob adds: none unless both its type and its name are set. */
  function Account(b: Blob): set<string> {
    if b.kind != "" && b.name != "" then {b.kind + ":" + b.name} else {}
  }

  function AcctStep(accts: set<string>, piece: string): Result<set<string>, PyError> {
    var b :- ReadBlob(piece);
    Success(accts + Account(b))
  }

  predicate NonEmptyText(s: string) {
    s != ""
  }

  /** The non-empty pieces between `^` marks, unstripped. */
  function Pieces(blob: string): seq<string> {
    Seqs.Filter(NonEmptyText, SplitAll(blob, '^'))
  }

  /** make_accts(blob), the specification the method below meets. */
  function Accounts(blob: string): Result<set<string>, PyError> {
    Folds.Steps(AcctStep, {}, Pieces(blob))
  }

  /** What the first i pieces of the split have gathered. */
  lemma FilterPrefix(pieces: seq<string>, i: nat)
    requires i < |pieces|
    ensures Seqs.Filter(NonEmptyText, pieces[..i + 1])
      == Seqs.Filter(NonEmptyText, pieces[..i]) + (if pieces[i] != "" then [pieces[i]] else [])
  {
    assert pieces[..i + 1] == pieces[..i] + [pieces[i]];
    Seqs.FilterAppend(NonEmptyText, pieces[..i], [pieces[i]]);
    assert Seqs.Filter(NonEmptyText, [pieces[i]]) == (if pieces[i] != "" then [pieces[i]] else []);
  }

  /** The blob's lines, read one at a time; an unrecognised line raises. */
  method ReadLines(lines: seq<string>) returns (r: Result<Blob, PyError>)
    ensures r == Folds.Steps(LineStep, Unset, lines)
  {
    var name := "";
    var t := "";
    var j := 0;
    while j < |lines|
      invariant 0 <= j <= |lines|
      invariant Folds.Steps(LineStep, Unset, lines[..j]) == Success(Blob(name, t))
    {
      var line := lines[j];
      Folds.StepsNext(LineStep, Unset, lines, j);
      if line == "" {
      } else if line[0] == 'N' {
        name := line[1..];
      } else if line == "TBank" || line == "TOth A" || line == "TInvst" {
        t := "Assets";
      } else if line == "TCCard" {
        t := "Liabilities";
      } else if line[0] == 'B' || line[0] == 'D' || line[0] == 'X' || line[0] == 'R' {
      } else if line == "T" {
      } else if line == "I" {
        t := "Income";
      } else if line == "E" {
        t := "Expenses";
      } else {
        Folds.StepsStop(LineStep, Unset, lines, j);
        return Failure(Raised(line));
      }
      j := j + 1;
    }
    assert lines[..j] == lines;
    r := Success(Blob(name, t));
  }

  /** One more piece of the split: skipped when empty, otherwise its blob is read. */
  lemma AcctsNext(pieces: seq<string>, i: nat, accts: set<string>)
    requires i < |pieces|
    requires Folds.Steps(AcctStep, {}, Seqs.Filter(NonEmptyText, pieces[..i])) == Success(accts)
    ensures Folds.Steps(AcctStep, {}, Seqs.Filter(NonEmptyText, pieces[..i + 1]))
      == if pieces[i] == "" then Success(accts) else AcctStep(accts, pieces[i])
  {
    FilterPrefix(pieces, i);
    var done := Seqs.Filter(NonEmptyText, pieces[..i]);
    if pieces[i] != "" {
      assert (done + [pieces[i]])[..|done|] == done;
    } else {
      assert done + [] == done;
    }
  }

  /** A blob that raises ends make_accts with its exception. */
  lemma AcctsRaise(pieces: seq<string>, i: nat)
    requires i < |pieces| && pieces[i] != ""
    requires Folds.Steps(AcctStep, {}, Seqs.Filter(NonEmptyText, pieces[..i + 1])).Failure?
    ensures Folds.Steps(AcctStep, {}, Seqs.Filter(NonEmptyText, pieces))
      == Folds.Steps(AcctStep, {}, Seqs.Filter(NonEmptyText, pieces[..i + 1]))
  {
    assert pieces == pieces[..i + 1] + pieces[i + 1..];
    Seqs.FilterAppend(NonEmptyText, pieces[..i + 1], pieces[i + 1..]);
    Folds.StepsAppend(AcctStep, {}, Seqs.Filter(NonEmptyText, pieces[..i + 1]), Seqs.Filter(NonEmptyText, pieces[i + 1..]));
  }

  /** make_accts: every blob with a type and a name adds `Type:Name` to the set; a bad line raises. */
  method MakeAccts(blob: string) returns (r: Result<set<string>, PyError>)
    ensures r == Accounts(blob)
  {
    var pieces := SplitAll(blob, '^');
    var accts: set<string> := {};
    var i := 0;
    while i < |pieces|
      invariant 0 <= i <= |pieces|
      invariant Folds.Steps(AcctStep, {}, Seqs.Filter(NonEmptyText, pieces[..i])) == Success(accts)
    {
      AcctsNext(pieces, i, accts);
      if pieces[i] != "" {
        var b := ReadLines(BlobLines(pieces[i]));
        if b.Failure? {
          AcctsRaise(pieces, i);
          return Failure(b.error);
        }
        accts := accts + Account(b.value);
      }
      i := i + 1;
    }
    assert pieces[..i] == pieces;
    r := Success(accts);
  }

  // ---- Properties of one line ----

  /** The type lines: each sets the blob's type and leaves its name. */
  lemma TypeLines(b: Blob, line: string)
    requires KindOf(line) != ""
    ensures LineStep(b, line) == Success(Blob(b.name, KindOf(line)))
    ensures LedgerKind(KindOf(line))
  {
  }

  /** A name line sets the name to the rest of the line and leaves the type. */
  lemma NameLines(b: Blob, line: string)
    requires NameLine(line)
    ensures LineStep(b, line) == Success(Blob(line[1..], b.kind))
  {
  }

  /** The ignored lines change nothing. */
  lemma IgnoredLines(b: Blob, line: string)
    requires IgnoredLine(line)
    ensures LineStep(b, line) == Success(b)
  {
  }

  /** A line raises exactly when it is none of the above, and the exception carries the line. */
  lemma OtherLinesRaise(b: Blob, line: string)
    ensures LineStep(b, line).Failure? <==> (!NameLine(line) && KindOf(line) == "" && !IgnoredLine(line))
    ensures LineStep(b, line).Failure? ==> LineStep(b, line).error == Raised(line)
  {
  }

  // ---- Properties of one blob ----

  /** Lines without a name line leave the name as it was. */
  lemma {:induction false} NameKept(b: Blob, ys: seq<string>)
    requires forall i :: 0 <= i < |ys| ==> !NameLine(ys[i])
    ensures Folds.Steps(LineStep, b, ys).Success? ==> Folds.Steps(LineStep, b, ys).value.name == b.name
    decreases |ys|
  {
    if ys != [] {
      NameKept(b, ys[..|ys| - 1]);
    }
  }

  /** Lines without a type line leave the type as it was. */
  lemma {:induction false} KindKept(b: Blob, ys: seq<string>)
    requires forall i :: 0 <= i < |ys| ==> KindOf(ys[i]) == ""
    ensures Folds.Steps(LineStep, b, ys).Success? ==> Folds.Steps(LineStep, b, ys).value.kind == b.kind
    decreases |ys|
  {
    if ys != [] {
      KindKept(b, ys[..|ys| - 1]);
    }
  }

  /** The last name line of a blob decides its name. */
  lemma LastNameWins(st: Blob, lines: seq<string>, k: nat)
    requires k < |lines| && NameLine(lines[k])
    requires forall i :: k < i < |lines| ==> !NameLine(lines[i])
    ensures Folds.Steps(LineStep, st, lines).Success? ==> Folds.Steps(LineStep, st, lines).value.name == lines[k][1..]
  {
    assert lines == lines[..k + 1] + lines[k + 1..];
    Folds.StepsAppend(LineStep, st, lines[..k + 1], lines[k + 1..]);
    var head := Folds.Steps(LineStep, st, lines[..k + 1]);
    if head.Success? {
      assert lines[..k + 1][..k] == lines[..k];
      Folds.StepsNext(LineStep, st, lines, k);
      NameKept(head.value, lines[k + 1..]);
    }
  }

  /** The last type line of a blob decides its type. */
  lemma LastKindWins(st: Blob, lines: seq<string>, k: nat)
    requires k < |lines| && KindOf(lines[k]) != ""
    requires forall i :: k < i < |lines| ==> KindOf(lines[i]) == ""
    ensures Folds.Steps(LineStep, st, lines).Success? ==> Folds.Steps(LineStep, st, lines).value.kind == KindOf(lines[k])
  {
    assert lines == lines[..k + 1] + lines[k + 1..];
    Folds.StepsAppend(LineStep, st, lines[..k + 1], lines[k + 1..]);
    var head := Folds.Steps(LineStep, st, lines[..k + 1]);
    if head.Success? {
      assert lines[..k + 1][..k] == lines[..k];
      Folds.StepsNext(LineStep, st, lines, k);
      KindKept(head.value, lines[k + 1..]);
    }
  }

  /** Whatever a blob's lines set, its type is unset or one of the four ledger types. */
  lemma {:induction false} KindsAreLedgerTypes(lines: seq<string>)
    ensures Folds.Steps(LineStep, Unset, lines).Success? ==>
      (var k := Folds.Steps(LineStep, Unset, lines).value.kind; k == "" || LedgerKind(k))
    decreases |lines|
  {
    if lines != [] {
      KindsAreLedgerTypes(lines[..|lines| - 1]);
    }
  }

  /** A blob of whitespace reads as nothing and adds no account. */
  lemma WhitespaceBlob(accts: set<string>, piece: string)
    requires forall i :: 0 <= i < |piece| ==> AsciiSpace(piece[i])
    ensures ReadBlob(piece) == Success(Unset)
    ensures AcctStep(accts, piece) == Success(accts)
  {
    assert StripBy(AsciiSpace, piece) == [];
    assert BlobLines(piece) == [""];
    assert [""][..0] == [];
    assert Account(Unset) == {};
    assert accts + {} == accts;
  }

  // ---- Properties of the whole account list ----

  /** Every account in the result is `Type:Name` for one of the four types and a non-empty name. */
  lemma {:induction false} AccountsWellFormed(st: set<string>, pieces: seq<string>)
    requires forall a :: a in st ==> exists k, n :: LedgerKind(k) && n != "" && a == k + ":" + n
    ensures Folds.Steps(AcctStep, st, pieces).Success? ==>
      forall a :: a in Folds.Steps(AcctStep, st, pieces).value ==>
        exists k, n :: LedgerKind(k) && n != "" && a == k + ":" + n
    decreases |pieces|
  {
    if pieces != [] {
      var init := pieces[..|pieces| - 1];
      AccountsWellFormed(st, init);
      var prev := Folds.Steps(AcctStep, st, init);
      if prev.Success? {
        var b := ReadBlob(pieces[|pieces| - 1]);
        if b.Success? {
          KindsAreLedgerTypes(BlobLines(pieces[|pieces| - 1]));
          if b.value.kind != "" && b.value.name != "" {
            assert LedgerKind(b.value.kind);
          }
        }
      }
    }
  }

  /** Whether a blob reads without raising. */
  predicate Readable(piece: string) {
    ReadBlob(piece).Success?
  }

  /** The account a blob adds, if it reads without raising. */
  function Yield(piece: string): set<string> {
    if ReadBlob(piece).Success? then Account(ReadBlob(piece).value) else {}
  }

  /** Reading one blob either raises or adds its account. */
  lemma AcctStepAdds(before: Result<set<string>, PyError>, piece: string)
    ensures Folds.StepAdds(AcctStep, Readable, Yield, before, piece)
  {
  }

  /** A run that does not raise read every blob, and added each blob's account to what it started from, and nothing else. */
  lemma AccountsMembers(st: set<string>, pieces: seq<string>, a: string)
    requires Folds.Steps(AcctStep, st, pieces).Success?
    ensures forall i :: 0 <= i < |pieces| ==> Readable(pieces[i])
    ensures a in Folds.Steps(AcctStep, st, pieces).value <==>
      (a in st || exists i :: 0 <= i < |pieces| && a in Yield(pieces[i]))
  {
    forall i | 0 <= i < |pieces|
      ensures Folds.StepAdds(AcctStep, Readable, Yield, Folds.Steps(AcctStep, st, pieces[..i]), pieces[i])
    {
      AcctStepAdds(Folds.Steps(AcctStep, st, pieces[..i]), pieces[i]);
    }
    Folds.StepsGather(AcctStep, Readable, Yield, st, pieces, a);
  }

  /** A blob repeated straight after itself adds nothing more: the result is a set. */
  lemma RepeatedBlob(st: set<string>, pieces: seq<string>, piece: string)
    ensures Folds.Steps(AcctStep, st, pieces + [piece, piece]) == Folds.Steps(AcctStep, st, pieces + [piece])
  {
    assert pieces + [piece, piece] == (pieces + [piece]) + [piece];
    assert (pieces + [piece])[..|pieces|] == pieces;
    Folds.StepsAppend(AcctStep, st, pieces + [piece], [piece]);
    assert [piece][..0] == [];
  }

  /** The order of two neighbouring blobs does not matter when neither raises. */
  lemma SwappedBlobs(st: set<string>, pieces: seq<string>, p: string, q: string)
    requires ReadBlob(p).Success? && ReadBlob(q).Success?
    ensures Folds.Steps(AcctStep, st, pieces + [p, q]) == Folds.Steps(AcctStep, st, pieces + [q, p])
  {
    Folds.StepsAppend(AcctStep, st, pieces, [p, q]);
    Folds.StepsAppend(AcctStep, st, pieces, [q, p]);
    match Folds.Steps(AcctStep, st, pieces)
    case Failure(_) =>
    case Success(s0) =>
      assert [p, q][..1] == [p] && [p][..0] == [];
      assert [q, p][..1] == [q] && [q][..0] == [];
      var ap := Account(ReadBlob(p).value);
      var aq := Account(ReadBlob(q).value);
      assert Folds.Steps(AcctStep, s0, [p]) == Success(s0 + ap);
      assert Folds.Steps(AcctStep, s0, [q]) == Success(s0 + aq);
      assert Folds.Steps(AcctStep, s0, [p, q]) == Success(s0 + ap + aq);
      assert Folds.Steps(AcctStep, s0, [q, p]) == Success(s0 + aq + ap);
      assert s0 + ap + aq == s0 + aq + ap;
  }
}
