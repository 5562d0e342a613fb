# Verified model of a plain-text accounting toolkit

This project is a Dafny model of the core of a personal-accounting toolkit.
The toolkit reads double-entry ledger journals, bank and brokerage CSV
exports and QIF account lists, and turns them into transactions. It then
balances, converts and aggregates those transactions for charts. The model
follows the program's own modules:

- `decimal.dfy`, `assoc.dfy`, `entries.dfy`: exact quantities, where a sum
  with an unknown operand is unknown. Also the two kinds of JavaScript
  object map the analyzers build: sorted maps, and insertion-ordered maps
  where Ramda's `mergeWith` moves the key to the front.
- `analyze.dfy`, `calendar.dfy`, `series.dfy` (`src/lib/analyze.js`):
  - amounts and `mergeAmounts`;
  - balancing of the elided last posting;
  - conversion through a price table;
  - per-account balances;
  - the transaction filters and ids;
  - calendar bucketing by day, week (from Sunday), month and year;
  - gap filling, range normalisation and running totals.
- `analyze_old.dfy` (`js/src/analyze.js`): the older analyzer. It balances
  one account map per transaction by searching for the one empty account
  (`emptyKey`).
  - `mergeAmounts`, `amount`, `filterBefore`, `filterAfter`,
    `balancePostings`, `balanceTransactions`, `convertTransactions` and
    `overTime` in that file are the same functions as in
    `src/lib/analyze.js`. The model has one member for each, and the table
    cites the newer file's lines.
- `jsutil.dfy`, `jsparse.dfy` (`js/src/util.js`, `js/src/parse.js`):
  - the bounded regex split `splitN` and `lTrim`;
  - the ledger text parser: header line, account, the three amount forms,
    postings, chunks and the section split of the whole file.
- `pybase.dfy`, `input_parsers.dfy`, `parse_file.dfy`,
  `parser_properties.dfy` (`py/input_parsers.py`):
  - `Parser.parse_file`'s row filter and reordering, as a loop over a list
    of rows;
  - every institution's `make_transactions`, `UsBankParser.trunc`, and the
    transfer pairing that `WellsFargoParser` keeps in a class field.
  - Exceptions are the error half of a `Result`.
- `import_model.dfy` (`import_model.py`):
  - account regexes and the text forms of postings, transactions and
    journals;
  - the pre-hash key of `Transaction.unique_id`, computed by a loop;
  - the line-classifying journal reader with its maps.
- `ledger_import.dfy` (`ledger_import.py`): the interactive importer. This
  covers its journal class, with the reader and the description-to-accounts
  map. It also covers the command object's account list and completion.
- `qif.dfy`, `folds.dfy` (`qif_to_ledger.py`): `make_accts`, as loops over
  blobs and lines, proved against a line-by-line fold. `folds.dfy` holds
  the generic loop that stops at the first exception.
- `text.dfy`, `seqs.dfy`, `sorting.dfy`, `wrappers.dfy`: shared vocabulary.
  - Text covers the whitespace classes of JavaScript, Python 3 and
    Python 2, `strip`, `split` with its join round trip, and string order.
  - Seqs covers Ramda's list combinators; there is also an insertion sort
    and `Option`/`Result`.

The importers' classes that update fields in place are Dafny classes:
`WellsFargoParser`, and the journal and command objects of
`ledger_import.py`. The JavaScript and the pure Python functions are
functions over datatypes. Loops in the source are `method`s. Each method
is proved against the function that specifies it, and the properties are
lemmas about those functions.

The code disagrees with itself in one place:

- `import_model.py` constructs `Posting(account, quantity)`.
- `py/input_parsers.py` passes four arguments, adding a commodity and a unit price.

The model's posting carries all four fields, as the parsers use them. Its
text form writes only the account and the quantity, as
`Posting.__str__` does.

## Model

| member | source | states |
|---|---|---|
| Decimal.AddCommutes | src/lib/analyze.js:7 | addDecimal is symmetric, unknown operands included |
| Decimal.AddAssociates | src/lib/analyze.js:7 | addDecimal is associative, unknown operands included |
| Decimal.SumAppend | src/lib/analyze.js:64-68 | a sum over two lists is the sum of their sums |
| Decimal.SumUnknown | src/lib/analyze.js:64-68 | a sum is unknown exactly when one of its terms is |
| Decimal.AddZero | src/lib/analyze.js:163-164 | adding zero changes nothing |
| Assoc.Lookup | src/lib/analyze.js:38-44 | an object read by key: absent exactly when no pair has the key, and otherwise the value of a pair with it |
| Assoc.LookupEntry | src/lib/analyze.js:38-44 | in a sorted pair list, every pair is what its key reads |
| Assoc.Upsert | src/lib/analyze.js:20-22 | merging one key in adds at most one entry and no key other than it |
| Assoc.UpsertSorted | src/lib/analyze.js:20-39 | merging one key into a sorted pair list keeps it sorted |
| Assoc.UpsertLookup | src/lib/analyze.js:20-22 | merging one key in changes only that key's value: combined with the old one, or inserted |
| Assoc.MergeWithSpec | src/lib/analyze.js:24 | mergeWith of two sorted objects is sorted, and each key reads the combination of the two values under it |
| Assoc.FilterEntries | src/lib/analyze.js:30-36 | R.filter over an object keeps only passing entries |
| Assoc.FilterEntriesSpec | src/lib/analyze.js:30-36 | filtering keeps the order, and a key reads its old value exactly when that value passes |
| Entries.Values | js/src/analyze.js:27 | R.values lists the values in key order |
| Entries.LookupDistinct | js/src/analyze.js:30 | with distinct keys every entry is what its key reads |
| Entries.FilterEntriesLookup | js/src/analyze.js:28-50 | with distinct keys, a key reads its old value after a filter exactly when that value passes |
| Entries.FilterEntriesDistinct | js/src/analyze.js:28 | a filter keeps keys distinct |
| Entries.MergeWithJsSpec | js/src/analyze.js:20-37 | Ramda's mergeWith on insertion-ordered objects keeps keys distinct, and each key reads the combination of both values under it |
| Entries.MergeWithJsFront | js/src/analyze.js:20-22 | the left operand's keys lead the merge, in their order |
| Entries.AssocKeyAt | js/src/analyze.js:31-35 | assigning an existing key replaces exactly its entry, in place |
| Entries.AssocKeyLookup | js/src/analyze.js:31-35 | after assigning, the key reads the new value and every other key reads as before |
| Seqs.FilterSubsequence | src/lib/analyze.js:46-53 | `R.filter` keeps the elements it passes in their order |
| Seqs.FilterCount | src/lib/analyze.js:46-53 | `R.filter` keeps each passing element as often as it occurs, and no failing one |
| Seqs.FilterUnique | src/lib/analyze.js:46-53 | those two properties determine `R.filter`'s result: any order-keeping selection with those counts is it |
| Analyze.MergeAmounts | src/lib/analyze.js:7 | the merged map has the union of both commodity sets; a shared commodity holds the sum and a commodity on one side keeps its quantity |
| Analyze.MergeAmountsCommutes | src/lib/analyze.js:7 | merging is symmetric |
| Analyze.MergeAmountsAssociates | src/lib/analyze.js:7 | merging is associative, so a fold of merges does not depend on grouping |
| Analyze.MergeAmountsEmpty | src/lib/analyze.js:7 | the empty map is a unit on both sides |
| Analyze.MergeExamples | src/lib/analyze.test.js:105-121 | disjoint commodities are both kept; 11.11 FOOBAR merged with itself gives 22.22 |
| Analyze.AmountOf | src/lib/analyze.js:10-19 | the elided amount `{}` gives the empty map, and no amount gives more than two commodities |
| Analyze.AmountExamplePlain | src/lib/analyze.test.js:74-78 | `-34.52 $` gives `{'$': -34.52}` |
| Analyze.AmountExampleUnitPrice | src/lib/analyze.test.js:85-95 | `-22.33 CTC @ 23.45 $` gives `{CTC: -22.33, '$': 523.6385}` |
| Analyze.SumAmountsSpec | src/lib/analyze.js:64-68 | folding sumQuantities from `{quantity: 0, commodity: ''}` adds every present quantity and keeps the last present commodity and unit price |
| Analyze.BalancePostings | src/lib/analyze.js:71-72 | the result has as many postings as the input, or one for an empty list |
| Analyze.BalancePostingsSpec | src/lib/analyze.js:64-72 | every posting but the last is unchanged and in order; the last keeps its account and gets minus the sum of the other present quantities, the last commodity seen (or `''`) and the last unit price seen |
| Analyze.BalanceExample | src/lib/analyze.test.js:184-204 | `-1.01 FOO`, `-1.01 $` and an elided posting give a last amount of `2.02 $` |
| Analyze.BalanceTransactions | src/lib/analyze.js:73-74 | every transaction is replaced by itself with balanced postings, one for one |
| Analyze.TotalAmountsAllIn | src/lib/analyze.js:7-22 | postings all holding known quantities of one commodity merge to the single entry holding their sum |
| Analyze.MergeSingletons | src/lib/analyze.js:7 | two one-commodity maps in the same commodity merge to the sum |
| Analyze.BalancedSumsToZero | src/lib/analyze.js:64-74 | when the other postings all hold known quantities of one commodity, the balanced postings sum to exactly zero in it |
| Analyze.BalancedLast | src/lib/analyze.js:64-74 | in that case the other postings are unchanged and the last one's amount map is minus their sum in the same commodity |
| Analyze.NoUnitPrices | src/lib/analyze.js:64-70 | amounts without unit prices leave the balancing amount without one |
| Analyze.ConvertSpec | src/lib/analyze.js:76-88 | dates, descriptions, ids, posting counts and accounts are kept; an amount in the target commodity is untouched; any other becomes the target commodity with no unit price and quantity price × quantity, or unknown when the commodity has no price |
| Analyze.ConvertIdempotent | src/lib/analyze.js:85-88 | converting twice to the same commodity is converting once |
| Analyze.ConvertExamples | src/lib/analyze.test.js:226-271 | `1.23 $` is kept, `2.34 FOO` at price 2 gives `4.68 $`, and `UNKNOWN` gives an undefined `$` quantity |
| Analyze.AccountOrder | src/lib/analyze.js:39 | the order `sortBy` uses on account names is a strict total order |
| Analyze.PostingTotalUntouched | src/lib/analyze.js:20-22 | an account no posting names has nothing merged into it |
| Analyze.AccountTotalUntouched | src/lib/analyze.js:23-27 | an account no transaction names has nothing merged into it |
| Analyze.TransactionTableSpec | src/lib/analyze.js:20-25 | the per-transaction table is sorted, and holds an entry for exactly the accounts the postings name, the merge of their amounts |
| Analyze.BalanceTableSpec | src/lib/analyze.js:23-43 | the running table is sorted, and holds an entry for exactly the accounts any posting names, the merge of all their amounts |
| Analyze.BalancesSpec | src/lib/analyze.js:29-44 | balances is sorted by account and only holds matching accounts; an account is present iff it matches, is named by a posting and has a summed quantity that is not a known zero, and its entry is then that sum |
| Analyze.FilterAccount | src/lib/analyze.js:46-51 | keeps, in order and as often as they occur, exactly the transactions with a posting to a matching account |
| Analyze.FilterBefore | src/lib/analyze.js:52 | keeps, in order and as often as they occur, exactly the transactions dated strictly before the date |
| Analyze.FilterAfter | src/lib/analyze.js:53 | keeps, in order and as often as they occur, exactly the transactions dated strictly after the date |
| Analyze.MovesMoneySpec | src/lib/analyze.js:54-62 | more than one distinct account iff two postings name different accounts |
| Analyze.FilterNoOp | src/lib/analyze.js:54-62 | keeps, in order and as often as they occur, exactly the transactions with at least two distinct accounts |
| Analyze.FilterNoOpIdempotent | src/lib/analyze.js:54-62 | filtering twice is filtering once |
| Analyze.IdentifyTransactions | src/lib/analyze.js:90-92 | the i-th transaction, and nothing else about it, gets id i + 1 |
| Calendar.BeforeIsStrictTotal | src/lib/analyze.js:125 | `<` on dates is irreflexive, transitive and total |
| Calendar.BeforeIsDayNumberOrder | src/lib/analyze.js:125 | day numbers order dates exactly as `<` does |
| Calendar.StartOf | src/lib/analyze.js:116-121 | `moment(d).startOf(unit)` is never after d |
| Calendar.AddOne | src/lib/analyze.js:123 | `moment(d).add(1, unit)` is strictly after d |
| Calendar.StartOfWeek | src/lib/analyze.js:119 | a week bucket starts on a Sunday fewer than seven days before the date |
| Calendar.StartOfIdempotent | src/lib/analyze.js:116 | a bucket start is the start of its own bucket |
| Calendar.InBucket | src/lib/analyze.js:116-123 | every date lies in the half-open bucket from its start to one unit later |
| Calendar.SameBucket | src/lib/analyze.js:116-123 | every date in that half-open bucket has the same start |
| Calendar.WeekExampleFriday | src/lib/analyze.test.js:410-431 | 2016-09-09 falls in the week of 2016-09-04 |
| Calendar.WeekExampleSaturday | src/lib/analyze.test.js:410-431 | 2016-09-10 falls in the week of 2016-09-04 |
| Calendar.WeekExampleSunday | src/lib/analyze.test.js:410-431 | 2016-09-11 starts a new week |
| Series.DateOrder | src/lib/analyze.js:109 | the order `sortBy` uses on bucket dates is a strict total order |
| Series.PostingPoints | src/lib/analyze.js:97-104 | every point made from a transaction's postings is dated at the start of that transaction's bucket |
| Series.DatedPostingsAreStarts | src/lib/analyze.js:94-106 | every dated point's key is the start of its own bucket |
| Series.UpsertSum | src/lib/analyze.js:112 | folding one quantity into its bucket adds it to the total over all buckets |
| Series.BucketsSpec | src/lib/analyze.js:109-112 | the buckets are ascending by date; a date has a bucket iff some point falls in it, holding the sum of those quantities |
| Series.BucketsConserve | src/lib/analyze.js:112 | the bucket values add up to the total of all the points' quantities |
| Series.OverTimeSpec | src/lib/analyze.js:94-121 | overTime is ascending by bucket start, every key starts its own bucket, each bucket holds the sum of the matching quantities dated in it, and the buckets add up to all matching quantities |
| Series.MatchingPostingCounted | src/lib/analyze.js:97-114 | every posting to a matching account has a bucket at the start of its transaction's date |
| Series.Step | src/lib/analyze.js:123 | adding one unit always moves strictly later |
| Series.AddBefore | src/lib/analyze.js:124-131 | addBefore always appends at least one point |
| Series.AddBeforeKeeps | src/lib/analyze.js:128-131 | addBefore ends with the new point |
| Series.AddBeforePrefix | src/lib/analyze.js:126-131 | addBefore keeps what was there as a prefix |
| Series.AddBeforePads | src/lib/analyze.js:124-131 | between the old points and the new one, addBefore inserts only null points, each one unit after its predecessor |
| Series.FillIn | src/lib/analyze.js:133-137 | fillIn never drops points, and is empty exactly for empty input |
| Series.FillInEmbeds | src/lib/analyze.js:133 | every input point appears in the output, unchanged and in order |
| Series.FillInFilled | src/lib/analyze.js:124-133 | every output point is an input point or a null point one unit after its predecessor |
| Series.AddBeforeNoGaps | src/lib/analyze.js:124-131 | addBefore adds no gap larger than one unit to a list that had none |
| Series.FillInHasNoGaps | src/lib/analyze.js:133 | the output has no gap larger than one unit |
| Series.FillInNoGaps | src/lib/analyze.js:133 | input with no gap larger than one unit comes back unchanged |
| Series.FillInFirst | src/lib/analyze.js:133 | the first point is kept first |
| Series.FillInLast | src/lib/analyze.js:133 | the last point is kept last |
| Series.FillInLastDate | src/lib/analyze.js:133 | the last date is kept |
| Series.FillInExampleGap | src/lib/analyze.test.js:273-283 | 2016-09-30 and 2016-10-03 get null points on 10-01 and 10-02 |
| Series.FillInExampleAdjacent | src/lib/analyze.test.js:284-292 | adjacent days come back unchanged |
| Series.MinDate | src/lib/analyze.js:140 | R.min returns one of its arguments, no later than either |
| Series.MaxDate | src/lib/analyze.js:144 | R.max returns one of its arguments, no earlier than either |
| Series.MinTs | src/lib/analyze.js:139-142 | minTs is the starting Infinity exactly when there are no series |
| Series.MinTsSpec | src/lib/analyze.js:139-142 | minTs is some series' first date, and no series starts earlier |
| Series.MaxTsAsWritten | src/lib/analyze.js:143-146 | maxTs as written, seeded with 0, is never earlier than 1970-01-01 |
| Series.MaxTsAsWrittenBounds | src/lib/analyze.js:143-146 | maxTs as written is the epoch or some series' last date, and no series ends later |
| Series.MaxTsBeforeEpoch | src/lib/analyze.js:144 | one series ending on 1969-12-01 gets 1970-01-01 as written, and 1969-12-01 as intended |
| Series.MaxTsSpec | src/lib/analyze.js:143-146 | the intended maxTs is some series' last date, and no series ends later |
| Series.MaxTsAgree | src/lib/analyze.js:143-146 | once some series ends on or after 1970-01-01, as written and as intended agree |
| Series.PrependMin | src/lib/analyze.js:147-150 | the result starts at the minimum and keeps the last date; it is the series, or a null point at the minimum followed by the series |
| Series.AppendMax | src/lib/analyze.js:151-154 | the result ends at the maximum and keeps the first point; it is the series, or the series followed by a null point at the maximum |
| Series.NormalizeMax | src/lib/analyze.js:157-161 | defined exactly when every series is non-empty, and keeps the number of series |
| Series.NormalizeMaxAsWritten | src/lib/analyze.js:143-161 | the same with the maxTs as written: defined exactly when every series is non-empty |
| Series.Padded | src/lib/analyze.js:147-160 | a padded series starts at the global minimum first date and ends at the global maximum last date |
| Series.NormalizeMaxAt | src/lib/analyze.js:157-161 | series i of the result is the fill-in of series i padded at both ends |
| Series.NormalizeMaxStart | src/lib/analyze.js:157-161 | every normalized series starts at the global earliest first date |
| Series.FilledPaddedEnd | src/lib/analyze.js:157-161 | filling in a padded series keeps its end at the global latest last date |
| Series.NormalizeMaxEnd | src/lib/analyze.js:157-161 | every normalized series ends at the global latest last date |
| Series.NormalizeMaxNoGaps | src/lib/analyze.js:157-161 | no normalized series has a gap larger than one unit |
| Series.NormalizeMaxAsWrittenOvershoots | src/lib/analyze.js:143-161 | as written, a series ending on 1969-12-01 is padded out to 1970-01-01 |
| Series.RunningTotal | src/lib/analyze.js:163-167 | the running totals have the input's length |
| Series.RunningTotalSnoc | src/lib/analyze.js:164-165 | one more point keeps the earlier totals and adds its value to the last total |
| Series.RunningTotalKeys | src/lib/analyze.js:164 | every point keeps its date |
| Series.RunningTotalSteps | src/lib/analyze.js:163-167 | `out[0] = in[0] + 0` and `out[i] = in[i] + out[i-1]` |
| Series.RunningTotalSums | src/lib/analyze.js:163-167 | each running total is the sum of the values up to and including its point |
| Series.RunningTotalExample | src/lib/analyze.test.js:484-494 | 1, 1, 1 gives 1, 2, 3 |
| AnalyzeOld.Invert | js/src/analyze.js:23 | invertValues keeps the commodities and negates every quantity |
| AnalyzeOld.MergeAllSpec | js/src/analyze.js:25 | the merge of a list of commodity maps holds exactly the commodities some map holds, each with the sum of its quantities |
| AnalyzeOld.ColumnInvert | js/src/analyze.js:26 | negating every map negates every commodity's quantities |
| AnalyzeOld.SumNeg | js/src/analyze.js:23-26 | the sum of the negations is the negated sum |
| AnalyzeOld.LastTouch | js/src/analyze.js:20-39 | the index of the last posting to an account, or -1 exactly when none posts to it |
| AnalyzeOld.PostingStep | js/src/analyze.js:20-22 | one reducePosting puts the posted account first with its amount merged into its old entry, keeps the other entries in order and keeps keys distinct |
| AnalyzeOld.PostingMapSpec | js/src/analyze.js:20-39 | a transaction's account map has one entry per account posted to, holding the merge of its postings' amounts, ordered by last posting, latest first |
| AnalyzeOld.FirstEmpty | js/src/analyze.js:30 | the index of the first entry whose commodity map is empty, or none exactly when no map is empty |
| AnalyzeOld.EmptyKey | js/src/analyze.js:30 | emptyKey is the key of the first empty entry, and undefined exactly when no entry is empty |
| AnalyzeOld.EmptyKeyOfPostings | js/src/analyze.js:30-39 | for a transaction's map, emptyKey is undefined iff every posted account has a non-empty total; otherwise it names the empty account posted to last |
| AnalyzeOld.EmptyKeyLookup | js/src/analyze.js:30 | with distinct keys, emptyKey names an empty entry, and finds none exactly when there is none |
| AnalyzeOld.LatestEmpty | js/src/analyze.js:30-39 | in a map ordered by last posting, the first empty entry is the most recently posted empty account |
| AnalyzeOld.ColumnNonEmpty | js/src/analyze.js:28 | dropping the empty maps changes no commodity's quantities |
| AnalyzeOld.BalancedAmountSpec | js/src/analyze.js:24-29 | balancedAmount holds every commodity some account holds, under it minus the sum of all its quantities |
| AnalyzeOld.BalancePostingsOldShape | js/src/analyze.js:31-35 | with no empty entry nothing changes; otherwise only the first empty entry changes, to the balancing amount, and keys stay distinct |
| AnalyzeOld.BalancedSumsToZero | js/src/analyze.js:31-35 | when an empty account exists and every quantity is known, the balanced map sums to zero in every commodity |
| AnalyzeOld.BalancedDistinct | js/src/analyze.js:36-41 | a transaction's balanced map has distinct keys |
| AnalyzeOld.BalanceTableSpec | js/src/analyze.js:36-52 | the running map has each account that received a balanced amount once, holding the merge of those amounts |
| AnalyzeOld.BalanceMapSpec | js/src/analyze.js:43-54 | balanceMap has each such account once, with the per-commodity sums, exactly when one of its summed quantities is nonzero |
| AnalyzeOld.FilterAccount | js/src/analyze.js:53 | keeps, in order and as often as they occur, exactly the `[account, map]` pairs whose account matches |
| AnalyzeOld.EmptyKeyExample | js/test/analyze.spec.js:78-89 | the test mapping's empty key is `Account 4` |
| AnalyzeOld.BalancedAmountExample | js/test/analyze.spec.js:91-95 | the test mapping balances to `{'$': 35.75, FOOBAR: 123.45}` |
| AnalyzeOld.BalancePostingsOldExample | js/test/analyze.spec.js:97-103 | `Account 4` receives `{'$': 35.75, FOOBAR: 123.45}` |
| AnalyzeOld.GroceryExample | js/test/analyze.spec.js:6-19 | the grocery transaction gives the groceries account 34.52 $, listed first (with lines 129-131) |
| AnalyzeOld.StockBuyExample | js/test/analyze.spec.js:20-35 | the stock purchase's two postings share one entry, so nothing is balanced and the account keeps `{CTC: -22.33, $: 22.33×23.45}` (with lines 138-141) |
| JsUtil.MatchAt | js/src/util.js:3 | a match starting at i fits in the text, and a well-formed pattern's match is at least one character long |
| JsUtil.Search | js/src/util.js:4 | `search` finds the leftmost match at or after a position, and none exactly when nothing matches there or later |
| JsUtil.FirstCut | js/src/util.js:3-5 | the first match starts where the left piece ends and ends where the right piece begins, inside the text |
| JsUtil.SplitN | js/src/util.js:6-23 | splitN gives at least one piece and at most one more than the number of splits allowed |
| JsUtil.SplitNBase | js/src/util.js:6-10 | with no match, or no split allowed, the text comes back as the only piece |
| JsUtil.SplitNCount | js/src/util.js:6-23 | splitN cuts at the smaller of n and the number of matches |
| JsUtil.BeforeFirstMatch | js/src/util.js:4 | the text before the first match holds no match |
| JsUtil.SplitNPieces | js/src/util.js:7-9 | every piece but the last holds no match |
| JsUtil.SplitNJoin | js/src/util.js:7-23 | for a literal separator, joining the pieces with it gives the text back |
| JsUtil.MatchCountBound | js/src/util.js:6 | a well-formed pattern matches at most as often as the text is long |
| JsUtil.SplitEveryMatch | js/src/parse.js:9 | `split` without a limit cuts at every match |
| JsUtil.SearchFinds | js/src/util.js:4 | `search` returns the first position that matches |
| JsUtil.SplitNChar | js/src/util.js:23 | splitN on a one-character literal is the split at its first n occurrences |
| JsUtil.FirstLine | js/src/util.js:12 | `.*` stops at the first line terminator |
| JsUtil.LTrim | js/src/util.js:12-26 | lTrim keeps the empty string; otherwise it drops the longest run of listed characters and keeps the rest of that line |
| JsUtil.SplitNExample | js/test/util.spec.js:4-22 | one split of the test text gives two pieces |
| JsUtil.SplitNFewerExample | js/test/util.spec.js:4-31 | at most 47 splits of the test text give three pieces, fewer than 47 |
| JsParse.Lines | js/src/parse.js:7 | splitting on newlines gives at least one line |
| JsParse.MapResult | js/src/parse.js:45-47 | mapping a throwing function succeeds iff every element succeeds, with the results in order; otherwise it fails with the first failure |
| JsParse.PrefixCommodity | js/src/parse.js:17-19 | the first character is the commodity and the rest is the quantity |
| JsParse.AmountOf | js/src/parse.js:35-43 | missing or empty amount text gives no amount |
| JsParse.PostfixRoundTrip | js/src/parse.js:28-38 | a quantity, optionally a space and a commodity, reads back as that quantity and commodity |
| JsParse.WithUnitPriceRoundTrip | js/src/parse.js:20-37 | quantity, commodity, `@` and a prefixed unit price read back as those three parts |
| JsParse.PrefixRoundTrip | js/src/parse.js:17-39 | a non-numeric character followed by a quantity reads back as that commodity and quantity |
| JsParse.PostingRoundTrip | js/src/parse.js:16-44 | an indented line of account, gap and amount text parses iff its amount does, to that account and amount |
| JsParse.PostingNoAmountRoundTrip | js/src/parse.js:16-44 | an indented account alone parses to that account and no amount |
| JsParse.TransactionHeader | js/src/parse.js:8-46 | the date is the token before the first space of the trimmed chunk's first line and the description the rest of it |
| JsParse.TransactionPostings | js/src/parse.js:45-46 | one posting per line after the first; the chunk parses iff every such line does |
| JsParse.SectionsSplit | js/src/parse.js:10 | sections without blank lines, joined by blank lines, split back into those sections |
| JsParse.LedgerSections | js/src/parse.js:9-48 | with four header sections, the ledger is one transaction per chunk of the fifth section |
| JsParse.LedgerTooShort | js/src/parse.js:10-48 | with fewer than four blank lines the fifth section is missing and reading it fails |
| JsParse.ExampleAmount | js/test/parse.spec.js:5-40 | `$288.10558392` is 288.10558392 under `$` |
| JsParse.ExampleTransaction | js/test/parse.spec.js:4-40 | the test transaction has date token `2014/02/14`, description `foo bar`, both accounts, a quantity on the first posting and none on the second |
| ImportModel.ParseRegEx | import_model.py:12-23 | reading a regex line succeeds exactly when it holds two slashes and the regex compiles; more or fewer slashes raise ValueError on unpacking, and a regex `re.compile` rejects raises `re.error` |
| ImportModel.ParseRegExSlashes | import_model.py:22 | with two slashes the regex is the stripped text between them and the account the stripped text after them, or `re.error` when that regex does not compile |
| ImportModel.RegExRoundTrip | import_model.py:12-23 | the text of a regex line, whose regex compiled when it was built, reads back as that regex and account |
| ImportModel.PostingLines | import_model.py:33-37 | one line per posting, in order (with line 79) |
| ImportModel.ComputeUniqueKey | import_model.py:49-73 | the loop over the postings sorted by account computes the date and max(positive total, abs(other total)) |
| ImportModel.TotalPermutation | import_model.py:67-71 | the totals depend on the postings and not on their order |
| ImportModel.UniqueKeyPermutation | import_model.py:58-67 | the same date and postings in any order give the same key |
| ImportModel.MirrorTotals | import_model.py:68-71 | with every sign flipped, the positive total becomes minus the other total and the other way round |
| ImportModel.UniqueKeyMirror | import_model.py:55-72 | a mirror-image transaction gets the same key value, so it counts as a duplicate wherever its totals print alike |
| ImportModel.UniqueKeyBalanced | import_model.py:58-72 | for a balanced transaction the key amount is the money moved |
| ImportModel.JournalTextOrder | import_model.py:98-103 | the journal text lists each account once in increasing order, then the regexes, then every transaction once in date order |
| ImportModel.ParsePostingWithAmount | import_model.py:136-140 | the account is the stripped text before the first `$`, and the quantity is the rest with commas removed |
| ImportModel.ParsePostingWithoutAmount | import_model.py:136-139 | a line without `$` gives the stripped account and quantity 0 |
| ImportModel.StepAppendsOnlyAtBlank | import_model.py:142-151 | only a blank line with a transaction open appends it, and records it under its key |
| ImportModel.StepOutcome | import_model.py:142-153 | a blank line never raises and closes the transaction; an unrecognised line raises `unexpected line` |
| ImportModel.ReadAccount | import_model.py:124-125 | an `account` line changes only the account set |
| ImportModel.ReadHeader | import_model.py:126-130 | a header line changes only the open transaction, and opens one |
| ImportModel.ReadRegEx | import_model.py:131-132 | a regex comment changes only the regex list |
| ImportModel.ReadPosting | import_model.py:135-141 | a posting line changes only the open transaction, and needs one open |
| ImportModel.RunNext | import_model.py:122 | line i is read on the state the earlier lines left |
| ImportModel.RunStops | import_model.py:122-153 | the first line that raises ends parse_file with that exception |
| ImportModel.ParseFile | import_model.py:105-158 | parse_file's loop reads the lines, then fills description_map, as the specification defines |
| ImportModel.ReadLine | import_model.py:123-153 | one pass of the loop body is one reading step |
| ImportModel.BuildDescriptionMap | import_model.py:155-156 | the final loop computes description_map |
| ImportModel.LastWithKeySpec | import_model.py:145-150 | the transaction found for a key is the last one with that key, and one is found iff some transaction has the key |
| ImportModel.LastWithKeyIndex | import_model.py:145-150 | the transaction found has the key, and no later one has it |
| ImportModel.UniqueIdMapKeepsLast | import_model.py:145-150 | unique_id_map holds exactly the keys of the transactions read, each under the last transaction with that key (keys compared by value) |
| ImportModel.DescriptionMapSpec | import_model.py:155-156 | a description is a key iff some transaction has it, mapped to all their posting accounts in file order |
| ImportModel.PostingLineRoundTrip | import_model.py:135-141 | a writable posting's line is read as a posting line and gives the posting back (with lines 33-37) |
| ImportModel.PostingsRoundTrip | import_model.py:135-141 | posting lines add their postings, in order, to the open transaction (with lines 33-37) |
| ImportModel.HeaderRoundTrip | import_model.py:126-130 | a header line opens a transaction with its date and description (with lines 76-78) |
| ImportModel.PlainKey | import_model.py:33-72 | reading back loses only what the key and the account list do not look at |
| ImportModel.TransactionTextLines | import_model.py:75-80 | str(t) is the header line and the posting lines, each ended by a newline |
| ImportModel.TransactionRoundTrip | import_model.py:121-158 | parsing the text of a transaction, then a blank line, gives a journal of just that transaction (less the commodity and unit price it does not write), keyed by its key and described by its accounts (with lines 75-80) |
| LedgerImport.ClassifyAsOtherReader | ledger_import.py:83-110 | where both whitespace notions agree, this reader classifies a line as the other journal reader does, with its regex comments read as comments |
| LedgerImport.ParsePosting | ledger_import.py:99-103 | a posting line fails only where it has a `$` and the text after it is not a decimal |
| LedgerImport.ReadAccount | ledger_import.py:91-92 | an `account` line appends one name, duplicates included, and changes nothing else |
| LedgerImport.ReadHeader | ledger_import.py:93-95 | a header line raises exactly when it has no space; otherwise it opens an empty transaction and changes nothing else |
| LedgerImport.ReadPosting | ledger_import.py:98-104 | a posting line needs an open transaction and adds one posting to it |
| LedgerImport.Close | ledger_import.py:105-108 | a blank line appends the open transaction, if any, and closes it |
| LedgerImport.StepAppendsOnlyAtBlank | ledger_import.py:89-110 | only a blank line appends a transaction; an unrecognised line raises `unexpected line` |
| LedgerImport.StepKind | ledger_import.py:91-104 | each kind of line is read by its own branch |
| LedgerImport.RunNext | ledger_import.py:89 | line i is read on the state the earlier lines left |
| LedgerImport.RunStops | ledger_import.py:89-110 | the first line that raises ends parse_file with that exception |
| LedgerImport.PostingRoundTrip | ledger_import.py:98-104 | a writable posting's line reads back as that posting, zero amounts included (with lines 52-56) |
| LedgerImport.PostingWithoutAmount | ledger_import.py:54 | an account line without `$` reads back with no quantity (with line 102) |
| LedgerImport.AccountLineStep | ledger_import.py:91-92 | `account NAME` appends NAME |
| LedgerImport.DuplicateAccountLines | ledger_import.py:20-23 | reading the same account line twice lists the name twice, which entering the name twice does not (with lines 91-92) |
| LedgerImport.TransactionTextLines | ledger_import.py:43-46 | str(t) is its header line then one line per posting, each ended by a newline |
| LedgerImport.HeaderStep | ledger_import.py:43-46 | a header line opens a transaction with its date text and description (with lines 93-95) |
| LedgerImport.PostingsRoundTrip | ledger_import.py:98-104 | posting lines add their postings, in order, to the open transaction (with lines 52-56) |
| LedgerImport.TransactionRoundTrip | ledger_import.py:89-108 | the text of a transaction, then a blank line, appends exactly that transaction (with lines 43-46) |
| LedgerImport.DescAcctMapSpec | ledger_import.py:74-76 | a description is a key iff some transaction has it, and an account is under it iff some such transaction posts to it |
| LedgerImport.AddAccount | ledger_import.py:20-23 | an entered account is appended unless known; the list is unchanged exactly when it was known |
| LedgerImport.AddAccountDistinct | ledger_import.py:20-23 | entering accounts never lists a name twice |
| LedgerImport.Completions | ledger_import.py:26-27 | the completions are exactly the known accounts that start with the typed text |
| LedgerImport.CompletionsAppend | ledger_import.py:26-27 | an appended account joins the end of the completions it matches |
| LedgerImport.CompletionsEmpty | ledger_import.py:26-27 | with nothing typed every account is offered, in list order |
| LedgerImport.Journal.constructor | ledger_import.py:63-66 | a new journal has no transactions, no accounts and an empty map |
| LedgerImport.Journal.BuildDescAcctMap | ledger_import.py:74-77 | the loop adds each transaction's accounts to the set under its description, and changes nothing else |
| LedgerImport.Journal.ParseFile | ledger_import.py:79-114 | parse_file fails iff the reading raises, with that exception; otherwise a fresh journal holds the accounts and transactions read and their description map |
| LedgerImport.ReadLine | ledger_import.py:90-110 | one pass of the loop body is one reading step |
| LedgerImport.LedgerImportCmd.Default | ledger_import.py:20-24 | entering a line updates the journal's accounts as AddAccount does, and nothing else |
| LedgerImport.LedgerImportCmd.CompleteNames | ledger_import.py:26-27 | completion offers exactly the journal's accounts that start with the text |
| InputParsers.DateAt | py/input_parsers.py:42-79 | reading a date column succeeds iff the column exists and strptime accepts it, giving strptime's date |
| InputParsers.DecimalAt | py/input_parsers.py:43 | reading a decimal column succeeds iff the column exists and is decimal text, giving its value (with lines 80, 147) |
| InputParsers.Fund | py/input_parsers.py:105-123 | a fund name is looked up in the funds table; a name it lacks raises `Unknown fund: ` with the name (with lines 151-153) |
| InputParsers.OtherAccount | py/input_parsers.py:155-157 | a type without another account raises `Unexpected transaction type: ` with the type |
| InputParsers.TruncCases | py/input_parsers.py:55-59 | trunc returns its input, or cuts off exactly a `00` that no further digit follows |
| InputParsers.TruncDecimalText | py/input_parsers.py:55-59 | on decimal text trunc drops the last two fraction digits exactly when the fraction has four digits ending in `00` |
| InputParsers.TruncKeepsValue | py/input_parsers.py:55-65 | trunc never changes the value a decimal reads as |
| InputParsers.WellsFargoFields | py/input_parsers.py:145-157 | a Wells Fargo row read to its fields has another account and a total of quantity times unit price |
| InputParsers.WellsFargoParser.constructor | py/input_parsers.py:137 | nothing is pending before the first row |
| InputParsers.WellsFargoParser.MakeTransactions | py/input_parsers.py:143-211 | the transactions and the new pending transfer are those of the row specification; a raising row leaves the pending transfer alone |
| InputParsers.WellsFargoParser.Build | py/input_parsers.py:159-211 | builds the trade, inserts the cash side at its place and updates the pending transfer as the specification says |
| InputParsers.RoundHalfEven | py/input_parsers.py:240 | the rounded integer is within one half of the value |
| InputParsers.Quantize4 | py/input_parsers.py:240 | quantizing to four places moves the value by at most half of the last place |
| InputParsers.BpasFields | py/input_parsers.py:234-251 | a BPAS row read to its fields has another account and a total of quantity times unit price |
| InputParsers.TiaaCrefFields | py/input_parsers.py:305-317 | a TIAA-CREF row read to its fields has another account and a total of quantity times unit price |
| InputParsers.FidelityFields | py/input_parsers.py:524-533 | a Fidelity row read to its fields keeps its type and date and has another account |
| ParserProperties.NecuSign | py/input_parsers.py:39-47 | a NECU row reads iff it has six fields, a date and an amount; it gives one transaction of one posting, negated exactly for DR rows |
| ParserProperties.NecuDebit | py/input_parsers.py:39-47 | a DR row is one withdrawal of its amount under its unquoted description |
| ParserProperties.NecuExample | test_ledger_import.py:9-25 | the test row gives one transaction on 2016-02-26 with its description and -68.47 on `Assets:NECU:Checking` |
| ParserProperties.UsBankShape | py/input_parsers.py:61-67 | a U.S. Bank row reads iff it has a date and a decimal amount after trunc; it gives one transaction posting that amount |
| ParserProperties.UsBankAmount | py/input_parsers.py:55-67 | a well-formed decimal amount is booked at the value it reads as, whether or not trunc cut it |
| ParserProperties.AllyShape | py/input_parsers.py:76-82 | an Ally row reads iff it has a date and an amount; it gives one transaction posting the signed amount |
| ParserProperties.KennebunkDebitCredit | py/input_parsers.py:572-581 | a non-empty debit is booked negated, otherwise the credit as it reads; an unreadable one raises |
| ParserProperties.WellsFargoFieldsSpec | py/input_parsers.py:144-157 | the fields are read iff the columns are, the fund is listed and the type has another account; an unknown fund raises before an unexpected type |
| ParserProperties.WellsFargoPlacement | py/input_parsers.py:179-211 | every type but Transfers gives a trade and its cash side, first for earnings and contributions and second otherwise, and leaves the pending transfer alone (with lines 159-162) |
| ParserProperties.WellsFargoFirstTransfer | py/input_parsers.py:163-196 | the first transfer of a pair is the trade alone and leaves its total pending |
| ParserProperties.WellsFargoSecondTransfer | py/input_parsers.py:175-178 | the second transfer takes the unit price that makes its total minus the pending one and clears it; a zero quantity raises |
| ParserProperties.WellsFargoTransferPair | py/input_parsers.py:170-178 | the two trades of a transfer pair cancel exactly |
| ParserProperties.BpasNaNQuantity | py/input_parsers.py:239-240 | a NaN quantity is the total over the unit price to four places; a zero price raises |
| ParserProperties.BpasListedQuantity | py/input_parsers.py:241-242 | any other quantity column is read as a decimal |
| ParserProperties.BpasFieldsSpec | py/input_parsers.py:232-251 | the fields are read iff the columns are, the fund named by the words between date and type is listed and the type has another account; an unknown fund raises first |
| ParserProperties.BpasOrder | py/input_parsers.py:253-284 | a BPAS row gives the cash side and then the trade, negated exactly for terminations and fees |
| ParserProperties.BpasBalanced | py/input_parsers.py:253-284 | the cash side is always the trade's quantity at its unit price (with line 243) |
| ParserProperties.TiaaCrefFieldsSpec | py/input_parsers.py:303-317 | the fields are read iff the columns are, the fund is listed and the type has another account; an unknown fund raises first |
| ParserProperties.TiaaCrefOrder | py/input_parsers.py:319-353 | a transfer is the trade alone; any other type is the cash side and then the trade |
| ParserProperties.VanguardSkipped | py/input_parsers.py:384-386 | dividend and capital-gain rows give nothing, whatever else the row holds |
| ParserProperties.VanguardExchange | py/input_parsers.py:388-410 | an exchange or buy is one transaction: the fund at its unit price and the cash paying for it |
| ParserProperties.VanguardReinvestment | py/input_parsers.py:388-430 | any other type is the cash side and then the trade; an unknown fund raises before an unexpected type |
| ParserProperties.CtcIraFieldsSpec | py/input_parsers.py:449-457 | a missing symbol is VMFXX, a missing quantity is zero with a zero price, otherwise the price is the positive total per unit |
| ParserProperties.CtcIraTypes | py/input_parsers.py:459-493 | a known type gives one transaction of two postings, a rollover nothing, any other type raises; a buy books its quantity and a sweep's postings cancel |
| ParserProperties.FidelityRealized | py/input_parsers.py:517-522 | realized gain/loss rows give nothing once their date reads |
| ParserProperties.FidelityFieldsSpec | py/input_parsers.py:524-533 | the fields are read iff the amounts are, the quantity is nonzero, the fund is listed and the type has another account, in that order of raising |
| ParserProperties.FidelityBalanced | py/input_parsers.py:524-526 | the trade is worth its cash side |
| ParserProperties.FidelityBuildSucceeds | py/input_parsers.py:535-562 | every type with another account has descriptions, so the last check never raises; the row gives the cash side and then the trade |
| ParserProperties.FidelityUnknownFundAsWritten | py/input_parsers.py:527-529 | as written, an unknown fund raises NameError for `raw_commodity` |
| ParserProperties.FidelityUnknownFund | py/input_parsers.py:527-529 | corrected, an unknown fund raises `Unknown fund: ` with its name |
| ParseFile.CheckKeys | py/input_parsers.py:225-229 | sorting succeeds iff every row has a date key; otherwise the first row without one raises |
| ParseFile.ByDateSorted | py/input_parsers.py:225-229 | sorting by date keeps every row and puts them in date order |
| ParseFile.ReversedOrder | py/input_parsers.py:36-37 | reversal keeps every row and lists them last to first |
| ParseFile.FeedNext | py/input_parsers.py:24-28 | a selected row runs make_transactions, any other row changes nothing |
| ParseFile.FeedRest | py/input_parsers.py:28 | the rows after the one that raised change nothing |
| ParseFile.ParseFile | py/input_parsers.py:19-29 | parse_file's loop computes the specification's transactions and pending transfer, or the first exception |
| ParseFile.LoopBody | py/input_parsers.py:25-28 | one pass of the loop extends the transactions by the row's, if it is selected and does not raise |
| ParseFile.RowTransactions | py/input_parsers.py:143-211 | only the Wells Fargo rows read and update the pending transfer (with line 28) |
| ParseFile.Extend | py/input_parsers.py:23-28 | extending by every row's transactions succeeds iff every row does |
| ParseFile.ParsePlain | py/input_parsers.py:19-29 | for a class without state, parse_file gives the transactions of the selected rows in the reordered order, or the first exception |
| ParseFile.SelectedRows | py/input_parsers.py:25-27 | the rows handed to make_transactions are exactly the selected ones |
| Qif.ReadLines | qif_to_ledger.py:32-52 | the loop over a blob's lines computes the line-by-line reading, stopping at the line that raises |
| Qif.MakeAccts | qif_to_ledger.py:27-57 | make_accts gives the accounts of its blobs, or the exception of the first line that raises |
| Qif.AcctsNext | qif_to_ledger.py:28-31 | an empty piece of the split is skipped; any other piece's blob is read and its account added |
| Qif.AcctsRaise | qif_to_ledger.py:31-52 | a blob that raises ends make_accts with its exception |
| Qif.TypeLines | qif_to_ledger.py:39-50 | each type line sets the blob's type to one of the four ledger types and leaves its name |
| Qif.NameLines | qif_to_ledger.py:37-38 | a line starting with `N` sets the name to the rest of the line and leaves the type |
| Qif.IgnoredLines | qif_to_ledger.py:36-46 | empty lines, the B, D, X and R fields and the bare `T` change nothing |
| Qif.OtherLinesRaise | qif_to_ledger.py:51-52 | a line raises exactly when it is none of the above, with the line as the exception |
| Qif.NameKept | qif_to_ledger.py:37-38 | lines without a name line leave the name as it was |
| Qif.KindKept | qif_to_ledger.py:39-50 | lines without a type line leave the type as it was |
| Qif.LastNameWins | qif_to_ledger.py:35-38 | the last name line of a blob decides its name |
| Qif.LastKindWins | qif_to_ledger.py:35-50 | the last type line of a blob decides its type |
| Qif.KindsAreLedgerTypes | qif_to_ledger.py:21-50 | a blob's type is unset or one of Assets, Liabilities, Income and Expenses |
| Qif.WhitespaceBlob | qif_to_ledger.py:28-54 | a blob of whitespace reads as nothing and adds no account |
| Qif.AccountsWellFormed | qif_to_ledger.py:54-55 | every account gathered is `Type:Name` with one of the four types and a non-empty name |
| Qif.AcctStepAdds | qif_to_ledger.py:31-55 | reading one blob either raises or adds exactly its own account |
| Qif.AccountsMembers | qif_to_ledger.py:29-57 | when nothing raises, every blob was read and an account is in the result iff some blob gave it |
| Qif.RepeatedBlob | qif_to_ledger.py:29-55 | a blob repeated straight after itself adds nothing more |
| Qif.SwappedBlobs | qif_to_ledger.py:29-55 | the order of two neighbouring blobs that read does not matter |

## Left out

- File and terminal I/O. The model takes lists of rows or lines as input and leaves out:
  - `open`, `csv.reader` and its delimiter;
  - the `readline` binding, the `Cmd` loop, `emptyline`, `do_EOF` and `main`;
  - `qif_to_ledger.parse` and the printing `make_acct`.
- `print` output is left out, including the duplicate `WARNING` that `import_model.py:146` prints.
- `logError` on a missing price (`src/lib/analyze.js:79`) and `trace` (`js/src/util.js:15`) are left out. Only the values they return are modelled.
- The UI components, chart rendering, browser storage and build files are not part of this model.
- Foreign date handling is supplied by the caller or kept as text:
  - `datetime.strptime` is a parameter of type `Strptime`, and a `None` from it is its `ValueError`;
  - `new Date(text)` is left out, so `js/src/parse.js` keeps the date as its text;
  - moment's time zones and daylight-saving shifts are not modelled, and dates are civil `(year, month, day)` values.
- The round trip of `overTime` bucket keys through date strings (`src/lib/analyze.js:100, 110`) is modelled as the date itself.
- SHA-1 in `Transaction.unique_id` is left out. The model keeps the pre-hash key `(date, max(...))`:
  - it keeps the date and the decimal's value, not the text `str(date)` and `str(Decimal)` that the program hashes;
  - so two keys whose amounts are equal but print differently (`5.00` and `5`) are one key in the model and two ids in the program.
- ImportModel.UniqueKeyMirror: it compares key values. The program's ids agree for a mirror-image transaction only when its amount prints alike, because `str(Decimal)` keeps trailing zeros and `max` returns its first argument on a tie (for example `$ 5.00 / $ -5` against `$ -5.00 / $ 5`).
- ImportModel.UniqueIdMapKeepsLast: it merges transactions whose keys are equal in value, including ones the program keeps apart because their amounts print differently.
- Decimal arithmetic is exact on `real`:
  - Python's 28-digit context is not modelled;
  - a division is exact, and a zero divisor raises `DivisionByZero`, which also stands for the `InvalidOperation` of `0/0`;
  - `quantize(Decimal('.0001'))` is `InputParsers.Quantize4`, round-half-even to four places.
- Decimal text is read in the form `[+|-]digits[.digits]`, where one of the digit runs may be empty (`.5`, `5.`), and written as `[-]digits[.digits]`:
  - exponents, `NaN` and infinities are not read or written, except where a parser tests for `NaN` text itself;
  - `str(Decimal)` in the text forms is a `show` parameter.
- Whitespace is modelled for the characters Python and JavaScript treat as whitespace on each side:
  - Unicode normalisation and case folding are not modelled;
  - `ledger_import.py` uses Python 2's byte-string whitespace, and `import_model.py` uses Python 3's;
  - `\d` in `import_model.py`'s patterns is taken as the ASCII digits, while Python 3's `re` on `str` also matches other Unicode decimal digits.
- Regular expressions are written as predicates:
  - the account patterns of the analyzers are `string -> bool` parameters;
  - which patterns `re.compile` accepts in `AccountRegEx` (`import_model.py:15`) is the `compiles` parameter of the journal reader;
  - `escapeRe` in `lTrim` (`js/src/util.js:11`) is modelled by treating the listed characters literally.
- The base `AllyParser` and `VanguardParser` classes have no account, so using them directly raises `AttributeError`. Only their subclasses, which set the account, are modelled.
- Sort stability is not modelled: `sorted`, `R.sortBy` and `list.sort` are an insertion sort. This matches them wherever keys are distinct, or where equal keys are equal elements.
- `set_suggestion`'s `random.choice` is not modelled: it needs randomness and only prints.
- Code that tests call but the shown code does not define is not part of this model:
  - `NecuParser.make_transaction` in `test_ledger_import.py:19`;
  - `parseTransaction` and the postings' `name` in `js/test/parse.spec.js`;
  - the helpers of the unshown `src/lib/util`, which the model defines as exact decimal operations.
- `ImportModel.TransactionRoundTrip`: a transaction read back from its text has lost the commodity and unit price of its postings, because `Posting.__str__` does not write them.
- `LedgerImport.ClassifyAsOtherReader` relates the two journal readers only on lines where Python 2's and Python 3's whitespace agree.

## Findings

| source | as written | input that shows it | evidently intended | confidence | as-written member | corrected member |
|---|---|---|---|---|---|---|
| src/lib/analyze.js:143-146 | `maxTs` reduces with `R.max` from the seed `0`, so it returns 0 (1970-01-01) when every series ends before 1970 | one series ending on 1969-12-01: `maxTs` gives 1970-01-01 and `normalizeMax` pads the series past its end | the latest last date of the series | not executed | Series.MaxTsBeforeEpoch | Series.MaxTsSpec |
| py/input_parsers.py:527-529 | the unknown-fund branch of Fidelity's `make_transactions` concatenates the undefined name `raw_commodity` | a row whose fund is not listed raises `NameError` instead of the intended exception | `raise Exception('Unknown fund: ' + parts[1])`, as every other parser does | not executed | ParserProperties.FidelityUnknownFundAsWritten | ParserProperties.FidelityUnknownFund |

`ParseFile.FidelityParser`, the Fidelity entry of the `parse_file` parser table, uses the corrected `InputParsers.Fidelity`. `ParseFile.FidelityParserAsWritten` is the same class with `InputParsers.FidelityAsWritten`, which raises `NameError` as the program does.
