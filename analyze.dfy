/**
  The newer balancing and aggregation engine (src/lib/analyze.js): amounts as
  commodity -> quantity maps, balancing of the elided last posting, price
  conversion, per-account balances, transaction filters and ids.
*/
module Analyze {
  import opened Wrappers
  import opened Decimal
  import opened Calendar
  import opened Assoc
  import opened Seqs
  import opened Text

  // ---- data -------------------------------------------------------------

  datatype UnitPrice = UnitPrice(quantity: Quantity, commodity: string)

  /**
    A posting's amount object.  Each field is None when the key is absent, so
    the elided amount `{}` has all three None; a quantity of Some(Unknown) is a
    present key holding undefined.
  */
  datatype Amount = Amount(quantity: Option<Quantity>, commodity: Option<string>, unitPrice: Option<UnitPrice>)

  const Elided: Amount := Amount(None, None, None)

  datatype Posting = Posting(account: string, amount: Amount)

  datatype Transaction = Transaction(date: CivilDate, desc: string, postings: seq<Posting>, id: Option<nat>)

  /** commodity -> quantity */
  type Amounts = map<string, Quantity>

  /** Reading a possibly absent quantity: an absent key reads as undefined. */
  function QuantityOf(q: Option<Quantity>): Quantity {
    if q.Some? then q.value else Unknown
  }

  // ---- amounts ------------------------------------------------------------

  /** mergeAmounts = mergeWith(addDecimal): union of the commodities, shared ones added. */
  function MergeAmounts(a: Amounts, b: Amounts): (r: Amounts)
    ensures r.Keys == a.Keys + b.Keys
    ensures forall c :: c in a && c in b ==> r[c] == Add(a[c], b[c])
    ensures forall c :: c in a && c !in b ==> r[c] == a[c]
    ensures forall c :: c !in a && c in b ==> r[c] == b[c]
  {
    map c | c in a.Keys + b.Keys :: if c in a && c in b then Add(a[c], b[c]) else if c in a then a[c] else b[c]
  }

  lemma MergeAmountsCommutes(a: Amounts, b: Amounts)
    ensures MergeAmounts(a, b) == MergeAmounts(b, a)
  {
    forall c | c in a && c in b ensures Add(a[c], b[c]) == Add(b[c], a[c]) {
      AddCommutes(a[c], b[c]);
    }
  }

  lemma MergeAmountsAssociates(a: Amounts, b: Amounts, c: Amounts)
    ensures MergeAmounts(MergeAmounts(a, b), c) == MergeAmounts(a, MergeAmounts(b, c))
  {
    forall k | k in a && k in b && k in c ensures Add(Add(a[k], b[k]), c[k]) == Add(a[k], Add(b[k], c[k])) {
      AddAssociates(a[k], b[k], c[k]);
    }
  }

  lemma MergeAmountsEmpty(a: Amounts)
    ensures MergeAmounts(map[], a) == a && MergeAmounts(a, map[]) == a
  {
  }

  /**
    amount(p): {commodity: quantity} merged, right side winning, with
    {unit commodity: -1 * unit quantity * quantity} when there is a unit price.
  */
  function AmountOf(a: Amount): (r: Amounts)
    ensures a == Elided ==> r == map[]
    ensures |r| <= 2
  {
    var own: Amounts := if a.commodity.Some? then map[a.commodity.value := QuantityOf(a.quantity)] else map[];
    var price: Amounts :=
      if a.unitPrice.Some?
      then map[a.unitPrice.value.commodity := Mul(Mul(Known(-1.0), a.unitPrice.value.quantity), QuantityOf(a.quantity))]
      else map[];
    own + price
  }

  /** The amount example for a plain amount: its quantity under its commodity. */
  lemma AmountExamplePlain()
    ensures AmountOf(Amount(Some(Known(-34.52)), Some("$"), None)) == map["$" := Known(-34.52)]
  {
  }

  /** The amount example for a stock purchase: the shares and, under the price commodity, minus their cost. */
  lemma AmountExampleUnitPrice()
    ensures AmountOf(Amount(Some(Known(-22.33)), Some("CTC"), Some(UnitPrice(Known(23.45), "$"))))
            == map["CTC" := Known(-22.33), "$" := Known(523.6385)]
  {
    assert Mul(Mul(Known(-1.0), Known(23.45)), Known(-22.33)) == Known(523.6385);
  }

  /** The merge examples: disjoint commodities are kept, a shared one is added. */
  lemma MergeExamples()
    ensures MergeAmounts(map["FOOBAR" := Known(11.11)], map["BAZBUZ" := Known(11.11)])
            == map["FOOBAR" := Known(11.11), "BAZBUZ" := Known(11.11)]
    ensures MergeAmounts(map["FOOBAR" := Known(11.11)], map["FOOBAR" := Known(11.11)]) == map["FOOBAR" := Known(22.22)]
  {
    var m := MergeAmounts(map["FOOBAR" := Known(11.11)], map["BAZBUZ" := Known(11.11)]);
    assert m.Keys == {"FOOBAR", "BAZBUZ"};
  }

  // ---- balancing the elided posting --------------------------------------

  /** sumQuantities: quantities added, every other key taken from the right when present. */
  function SumQuantities(l: Amount, r: Amount): Amount {
    Amount(
      if l.quantity.Some? && r.quantity.Some? then Some(Add(l.quantity.value, r.quantity.value))
      else if r.quantity.Some? then r.quantity else l.quantity,
      if r.commodity.Some? then r.commodity else l.commodity,
      if r.unitPrice.Some? then r.unitPrice else l.unitPrice)
  }

  /** R.reduce(sumQuantities, seed, amounts) */
  function SumAmounts(seed: Amount, amounts: seq<Amount>): Amount {
    if amounts == [] then seed else SumQuantities(SumAmounts(seed, amounts[..|amounts| - 1]), amounts[|amounts| - 1])
  }

  /** The seed {quantity: 0, commodity: ''}. */
  const BalanceSeed: Amount := Amount(Some(Zero), Some(""), None)

  function AmountsOf(ps: seq<Posting>): (r: seq<Amount>)
    ensures |r| == |ps| && forall i :: 0 <= i < |ps| ==> r[i] == ps[i].amount
  {
    Map((p: Posting) => p.amount, ps)
  }

  /** balanceAmounts: the negated sum over every posting but the last. */
  function BalanceAmounts(ps: seq<Posting>): Amount {
    var init := if ps == [] then [] else ps[..|ps| - 1];
    var s := SumAmounts(BalanceSeed, AmountsOf(init));
    Amount(Some(Neg(QuantityOf(s.quantity))), s.commodity, s.unitPrice)
  }

  /**
    balancePostings: every posting but the last unchanged, the last one with
    the balancing amount.  With no postings at all the source produces one
    posting without an account; here its account is "".
  */
  function BalancePostings(ps: seq<Posting>): (r: seq<Posting>)
    ensures |r| == if ps == [] then 1 else |ps|
  {
    if ps == [] then [Posting("", BalanceAmounts(ps))]
    else ps[..|ps| - 1] + [Posting(ps[|ps| - 1].account, BalanceAmounts(ps))]
  }

  function BalanceTransaction(t: Transaction): Transaction {
    t.(postings := BalancePostings(t.postings))
  }

  function BalanceTransactions(txns: seq<Transaction>): (r: seq<Transaction>)
    ensures |r| == |txns| && forall i :: 0 <= i < |txns| ==> r[i] == BalanceTransaction(txns[i])
  {
    Map(BalanceTransaction, txns)
  }

  /** The quantities that are present, in order. */
  function PresentQuantities(amounts: seq<Amount>): seq<Quantity> {
    if amounts == [] then []
    else
      var init := PresentQuantities(amounts[..|amounts| - 1]);
      var a := amounts[|amounts| - 1];
      if a.quantity.Some? then init + [a.quantity.value] else init
  }

  /** The last present value of an optional field, or the default. */
  function LastPresent<T>(xs: seq<Option<T>>, default: Option<T>): Option<T> {
    if xs == [] then default
    else if xs[|xs| - 1].Some? then xs[|xs| - 1] else LastPresent(xs[..|xs| - 1], default)
  }

  function Commodities(amounts: seq<Amount>): (r: seq<Option<string>>)
    ensures |r| == |amounts| && forall i :: 0 <= i < |r| ==> r[i] == amounts[i].commodity
  {
    Map((a: Amount) => a.commodity, amounts)
  }

  function UnitPrices(amounts: seq<Amount>): (r: seq<Option<UnitPrice>>)
    ensures |r| == |amounts| && forall i :: 0 <= i < |r| ==> r[i] == amounts[i].unitPrice
  {
    Map((a: Amount) => a.unitPrice, amounts)
  }

  /** The fold adds every present quantity, and takes the last present commodity and unit price. */
  lemma {:induction false} SumAmountsSpec(amounts: seq<Amount>)
    ensures SumAmounts(BalanceSeed, amounts).quantity == Some(Sum(PresentQuantities(amounts)))
    ensures SumAmounts(BalanceSeed, amounts).commodity == LastPresent(Commodities(amounts), Some(""))
    ensures SumAmounts(BalanceSeed, amounts).unitPrice == LastPresent(UnitPrices(amounts), None)
  {
    if amounts != [] {
      var init := amounts[..|amounts| - 1];
      SumAmountsSpec(init);
      assert Commodities(amounts)[..|amounts| - 1] == Commodities(init);
      assert UnitPrices(amounts)[..|amounts| - 1] == UnitPrices(init);
      var a := amounts[|amounts| - 1];
      if a.quantity.Some? {
        var qs := PresentQuantities(init) + [a.quantity.value];
        assert qs[..|qs| - 1] == PresentQuantities(init);
      }
    }
  }

  /**
    balancePostings keeps the count and every posting but the last; the last
    keeps its account, and its amount has quantity minus the sum of all the
    other present quantities, the last commodity seen (or "") and the last
    unit price seen.
  */
  lemma BalancePostingsSpec(ps: seq<Posting>)
    requires ps != []
    ensures var r := BalancePostings(ps);
            var others := AmountsOf(ps[..|ps| - 1]);
            && |r| == |ps|
            && r[..|ps| - 1] == ps[..|ps| - 1]
            && r[|ps| - 1].account == ps[|ps| - 1].account
            && r[|ps| - 1].amount == Amount(Some(Neg(Sum(PresentQuantities(others)))),
                                            LastPresent(Commodities(others), Some("")),
                                            LastPresent(UnitPrices(others), None))
  {
    SumAmountsSpec(AmountsOf(ps[..|ps| - 1]));
  }

  /** The balancing examples: -1.01 FOO and -1.01 $ are balanced by 2.02 $. */
  lemma BalanceExample()
    ensures BalancePostings([Posting("a", Amount(Some(Known(-1.01)), Some("FOO"), None)),
                             Posting("b", Amount(Some(Known(-1.01)), Some("$"), None)),
                             Posting("c", Elided)])[2].amount
            == Amount(Some(Known(2.02)), Some("$"), None)
  {
    var ps := [Posting("a", Amount(Some(Known(-1.01)), Some("FOO"), None)),
               Posting("b", Amount(Some(Known(-1.01)), Some("$"), None)),
               Posting("c", Elided)];
    assert ps[..2] == [ps[0], ps[1]];
    var amounts := AmountsOf(ps[..2]);
    assert amounts[..1] == [ps[0].amount];
    assert SumAmounts(BalanceSeed, amounts[..1]) == Amount(Some(Known(-1.01)), Some("FOO"), None);
  }

  /** The merged amounts of every posting of a list, in order. */
  function TotalAmounts(ps: seq<Posting>): Amounts {
    if ps == [] then map[] else MergeAmounts(TotalAmounts(ps[..|ps| - 1]), AmountOf(ps[|ps| - 1].amount))
  }

  /** Postings that all carry a known quantity of commodity c and no unit price. */
  predicate AllIn(ps: seq<Posting>, c: string) {
    forall i :: 0 <= i < |ps| ==> ps[i].amount.commodity == Some(c) && ps[i].amount.quantity.Some?
                                   && ps[i].amount.quantity.value.Known? && ps[i].amount.unitPrice.None?
  }

  lemma {:induction false} TotalAmountsAllIn(ps: seq<Posting>, c: string)
    requires ps != [] && AllIn(ps, c)
    ensures TotalAmounts(ps) == map[c := Sum(PresentQuantities(AmountsOf(ps)))]
    ensures Sum(PresentQuantities(AmountsOf(ps))).Known?
  {
    var init := ps[..|ps| - 1];
    var q := ps[|ps| - 1].amount.quantity.value;
    assert AmountsOf(ps)[..|ps| - 1] == AmountsOf(init);
    var qs := PresentQuantities(AmountsOf(ps));
    var initQs := PresentQuantities(AmountsOf(init));
    assert qs == initQs + [q];
    assert qs[..|qs| - 1] == initQs;
    assert Sum(qs) == Add(Sum(initQs), q);
    assert AmountOf(ps[|ps| - 1].amount) == map[c := q];
    if init == [] {
      assert initQs == [];
      MergeAmountsEmpty(map[c := q]);
    } else {
      assert AllIn(init, c);
      TotalAmountsAllIn(init, c);
      MergeSingletons(c, Sum(initQs), q);
    }
  }

  lemma MergeSingletons(c: string, a: Quantity, b: Quantity)
    ensures MergeAmounts(map[c := a], map[c := b]) == map[c := Add(a, b)]
  {
  }

  /**
    After balancing, a transaction whose other postings are all known
    quantities of one commodity (and at least one exists) sums to exactly zero
    in that commodity.
  */
  lemma BalancedSumsToZero(ps: seq<Posting>, c: string)
    requires |ps| >= 2 && AllIn(ps[..|ps| - 1], c)
    ensures TotalAmounts(BalancePostings(ps)) == map[c := Known(0.0)]
  {
    var init := ps[..|ps| - 1];
    var r := BalancePostings(ps);
    var s := Sum(PresentQuantities(AmountsOf(init)));
    TotalAmountsAllIn(init, c);
    BalancedLast(ps, c);
    var total := TotalAmounts(r);
    assert total == MergeAmounts(TotalAmounts(r[..|r| - 1]), AmountOf(r[|r| - 1].amount));
    assert total == MergeAmounts(map[c := s], map[c := Neg(s)]);
    MergeSingletons(c, s, Neg(s));
    assert Add(s, Neg(s)) == Known(0.0);
  }

  /** The balancing posting of such a transaction holds minus the sum, in the same commodity. */
  lemma BalancedLast(ps: seq<Posting>, c: string)
    requires |ps| >= 2 && AllIn(ps[..|ps| - 1], c)
    ensures var r := BalancePostings(ps);
            r[..|r| - 1] == ps[..|ps| - 1]
            && AmountOf(r[|r| - 1].amount) == map[c := Neg(Sum(PresentQuantities(AmountsOf(ps[..|ps| - 1]))))]
  {
    var init := ps[..|ps| - 1];
    var r := BalancePostings(ps);
    BalancePostingsSpec(ps);
    var s := Sum(PresentQuantities(AmountsOf(init)));
    assert LastPresent(Commodities(AmountsOf(init)), Some("")) == Some(c) by {
      assert Commodities(AmountsOf(init))[|init| - 1] == Some(c);
    }
    assert LastPresent(UnitPrices(AmountsOf(init)), None) == None by {
      NoUnitPrices(AmountsOf(init));
    }
    assert r[|r| - 1].amount == Amount(Some(Neg(s)), Some(c), None);
  }

  lemma {:induction false} NoUnitPrices(amounts: seq<Amount>)
    requires forall i :: 0 <= i < |amounts| ==> amounts[i].unitPrice.None?
    ensures LastPresent(UnitPrices(amounts), None) == None
  {
    if amounts != [] {
      assert UnitPrices(amounts)[..|amounts| - 1] == UnitPrices(amounts[..|amounts| - 1]);
      NoUnitPrices(amounts[..|amounts| - 1]);
    }
  }

  // ---- conversion -----------------------------------------------------------

  /** commodity -> price in the target commodity */
  type Prices = map<string, real>

  /**
    An amount already in the target commodity is kept; any other becomes
    {commodity: target, quantity: price * quantity}, undefined when the
    commodity has no price.  The unit price is dropped.
  */
  function ConvertAmount(target: string, prices: Prices, a: Amount): Amount {
    if a.commodity == Some(target) then a
    else
      var q := if a.commodity.Some? && a.commodity.value in prices
               then Mul(Known(prices[a.commodity.value]), QuantityOf(a.quantity))
               else Unknown;
      Amount(Some(q), Some(target), None)
  }

  function ConvertPosting(target: string, prices: Prices, p: Posting): Posting {
    p.(amount := ConvertAmount(target, prices, p.amount))
  }

  function ConvertTransaction(target: string, prices: Prices, t: Transaction): Transaction {
    t.(postings := Map((p: Posting) => ConvertPosting(target, prices, p), t.postings))
  }

  function ConvertTransactions(target: string, prices: Prices, txns: seq<Transaction>): seq<Transaction> {
    Map((t: Transaction) => ConvertTransaction(target, prices, t), txns)
  }

  /**
    Conversion keeps every transaction, posting and account; amounts in the
    target commodity are untouched, all others end up in the target commodity
    with no unit price and a quantity that is the priced product, or unknown.
  */
  lemma ConvertSpec(target: string, prices: Prices, txns: seq<Transaction>, i: nat, j: nat)
    requires i < |txns| && j < |txns[i].postings|
    ensures var r := ConvertTransactions(target, prices, txns);
            var p := txns[i].postings[j];
            var c := p.amount.commodity;
            && |r| == |txns|
            && r[i].date == txns[i].date && r[i].desc == txns[i].desc && r[i].id == txns[i].id
            && |r[i].postings| == |txns[i].postings|
            && r[i].postings[j].account == p.account
            && (c == Some(target) ==> r[i].postings[j].amount == p.amount)
            && (c != Some(target) ==>
                  && r[i].postings[j].amount.commodity == Some(target)
                  && r[i].postings[j].amount.unitPrice.None?
                  && r[i].postings[j].amount.quantity
                     == Some(if c.Some? && c.value in prices then Mul(Known(prices[c.value]), QuantityOf(p.amount.quantity))
                             else Unknown))
  {
  }

  /** Converting twice to the same commodity is converting once. */
  lemma ConvertIdempotent(target: string, prices: Prices, txns: seq<Transaction>)
    ensures ConvertTransactions(target, prices, ConvertTransactions(target, prices, txns))
            == ConvertTransactions(target, prices, txns)
  {
    var once := ConvertTransactions(target, prices, txns);
    var twice := ConvertTransactions(target, prices, once);
    forall i | 0 <= i < |txns| ensures twice[i] == once[i] {
      assert twice[i].postings == once[i].postings;
    }
  }

  /** The conversion examples: $ kept, 2.34 FOO at 2 gives 4.68 $, no price gives an unknown $ quantity. */
  lemma ConvertExamples()
    ensures ConvertAmount("$", map["FOO" := 2.0], Amount(Some(Known(1.23)), Some("$"), None))
            == Amount(Some(Known(1.23)), Some("$"), None)
    ensures ConvertAmount("$", map["FOO" := 2.0], Amount(Some(Known(2.34)), Some("FOO"), None))
            == Amount(Some(Known(4.68)), Some("$"), None)
    ensures ConvertAmount("$", map["FOO" := 2.0], Amount(Some(Known(2.34)), Some("UNKNOWN"), None))
            == Amount(Some(Unknown), Some("$"), None)
  {
  }

  // ---- balances ---------------------------------------------------------

  /** Account names are compared like JavaScript strings. */
  lemma AccountOrder()
    ensures StrictOrder(LexLess)
  {
    forall a ensures !LexLess(a, a) { LexLessIrreflexive(a); }
    forall a, b, c | LexLess(a, b) && LexLess(b, c) ensures LexLess(a, c) { LexLessTransitive(a, b, c); }
    forall a, b ensures a == b || LexLess(a, b) || LexLess(b, a) { LexLessTotal(a, b); }
  }

  type Table = seq<(string, Amounts)>

  /** reducePosting: merge the posting's amount map into its account's entry. */
  function ReducePosting(acc: Table, p: Posting): Table {
    Upsert(LexLess, acc, p.account, AmountOf(p.amount), (o: Amounts, n: Amounts) => MergeAmounts(n, o))
  }

  /** R.reduce(reducePosting, {}) over one transaction's postings. */
  function TransactionTable(ps: seq<Posting>): Table {
    if ps == [] then [] else ReducePosting(TransactionTable(ps[..|ps| - 1]), ps[|ps| - 1])
  }

  /** reduceTrans: merge a transaction's table into the running one. */
  function ReduceTrans(acc: Table, t: Transaction): Table {
    MergeWith(LexLess, acc, TransactionTable(t.postings), MergeAmounts)
  }

  function BalanceTable(txns: seq<Transaction>): Table {
    if txns == [] then [] else ReduceTrans(BalanceTable(txns[..|txns| - 1]), txns[|txns| - 1])
  }

  /** Some commodity holds a quantity that is not a known zero. */
  predicate HasNonzero(m: Amounts) {
    exists c | c in m :: !IsZero(m[c])
  }

  /** removeZeroes: drop accounts none of whose quantities is nonzero. */
  function RemoveZeroes(t: Table): Table {
    FilterEntries((a: string, m: Amounts) => HasNonzero(m), t)
  }

  /** balances(acctRE): [account, amounts] pairs for matching accounts, ascending by account. */
  function Balances(acctRE: string -> bool, txns: seq<Transaction>): Table {
    FilterEntries((a: string, m: Amounts) => acctRE(a), RemoveZeroes(BalanceTable(txns)))
  }

  // Reference definitions: what an account's balance is, posting by posting.

  predicate Touches(ps: seq<Posting>, a: string) {
    exists i :: 0 <= i < |ps| && ps[i].account == a
  }

  /** The merged amounts of the postings to account a. */
  function PostingTotal(ps: seq<Posting>, a: string): Amounts {
    if ps == [] then map[]
    else
      var rest := PostingTotal(ps[..|ps| - 1], a);
      if ps[|ps| - 1].account == a then MergeAmounts(rest, AmountOf(ps[|ps| - 1].amount)) else rest
  }

  predicate Touched(txns: seq<Transaction>, a: string) {
    exists i :: 0 <= i < |txns| && Touches(txns[i].postings, a)
  }

  /** The merged amounts of every posting to account a in every transaction. */
  function AccountTotal(txns: seq<Transaction>, a: string): Amounts {
    if txns == [] then map[]
    else MergeAmounts(AccountTotal(txns[..|txns| - 1], a), PostingTotal(txns[|txns| - 1].postings, a))
  }

  lemma {:induction false} PostingTotalUntouched(ps: seq<Posting>, a: string)
    requires !Touches(ps, a)
    ensures PostingTotal(ps, a) == map[]
  {
    if ps != [] {
      var init := ps[..|ps| - 1];
      assert !Touches(init, a) by {
        forall i | 0 <= i < |init| ensures init[i].account != a {
          assert init[i] == ps[i];
        }
      }
      PostingTotalUntouched(ps[..|ps| - 1], a);
    }
  }

  lemma {:induction false} AccountTotalUntouched(txns: seq<Transaction>, a: string)
    requires !Touched(txns, a)
    ensures AccountTotal(txns, a) == map[]
  {
    if txns != [] {
      var init := txns[..|txns| - 1];
      assert !Touched(init, a) by {
        forall i | 0 <= i < |init| ensures !Touches(init[i].postings, a) {
          assert txns[i] == init[i];
        }
      }
      AccountTotalUntouched(init, a);
      PostingTotalUntouched(txns[|txns| - 1].postings, a);
    }
  }

  /** One transaction's table holds, for each account it touches, that account's merged amounts. */
  lemma {:induction false} TransactionTableSpec(ps: seq<Posting>)
    ensures Sorted(LexLess, TransactionTable(ps))
    ensures forall a :: Lookup(TransactionTable(ps), a) == if Touches(ps, a) then Some(PostingTotal(ps, a)) else None
  {
    AccountOrder();
    if ps != [] {
      var init := ps[..|ps| - 1];
      var p := ps[|ps| - 1];
      TransactionTableSpec(init);
      var f := (o: Amounts, n: Amounts) => MergeAmounts(n, o);
      UpsertSorted(LexLess, TransactionTable(init), p.account, AmountOf(p.amount), f);
      UpsertLookup(LexLess, TransactionTable(init), p.account, AmountOf(p.amount), f);
      forall a ensures Lookup(TransactionTable(ps), a) == if Touches(ps, a) then Some(PostingTotal(ps, a)) else None {
        assert Touches(ps, a) <==> Touches(init, a) || p.account == a by {
          if Touches(ps, a) {
            var i :| 0 <= i < |ps| && ps[i].account == a;
            if i < |init| { assert init[i] == ps[i]; }
          }
          if Touches(init, a) {
            var i :| 0 <= i < |init| && init[i].account == a;
            assert ps[i] == init[i];
          }
        }
        if a == p.account {
          if Touches(init, a) {
            MergeAmountsCommutes(AmountOf(p.amount), PostingTotal(init, a));
          } else {
            PostingTotalUntouched(init, a);
            MergeAmountsEmpty(AmountOf(p.amount));
          }
        }
      }
    }
  }

  /** The running table holds, for each account ever touched, its merged amounts over all transactions. */
  lemma {:induction false} BalanceTableSpec(txns: seq<Transaction>)
    ensures Sorted(LexLess, BalanceTable(txns))
    ensures forall a :: Lookup(BalanceTable(txns), a) == if Touched(txns, a) then Some(AccountTotal(txns, a)) else None
  {
    AccountOrder();
    if txns != [] {
      var init := txns[..|txns| - 1];
      var t := txns[|txns| - 1];
      BalanceTableSpec(init);
      TransactionTableSpec(t.postings);
      MergeWithSpec(LexLess, BalanceTable(init), TransactionTable(t.postings), MergeAmounts);
      forall a ensures Lookup(BalanceTable(txns), a) == if Touched(txns, a) then Some(AccountTotal(txns, a)) else None {
        assert Touched(txns, a) <==> Touched(init, a) || Touches(t.postings, a) by {
          if Touched(txns, a) {
            var i :| 0 <= i < |txns| && Touches(txns[i].postings, a);
            if i < |init| { assert init[i] == txns[i]; }
          }
          if Touched(init, a) {
            var i :| 0 <= i < |init| && Touches(init[i].postings, a);
            assert txns[i] == init[i];
          }
        }
        if !Touches(t.postings, a) {
          PostingTotalUntouched(t.postings, a);
          MergeAmountsEmpty(AccountTotal(init, a));
        } else if !Touched(init, a) {
          AccountTotalUntouched(init, a);
          MergeAmountsEmpty(PostingTotal(t.postings, a));
        }
      }
    }
  }

  /**
    balances: ascending by account, only matching accounts, and an account is
    present exactly when it matches, some posting touches it and one of its
    summed commodity quantities is nonzero; its entry is then that sum.
  */
  lemma BalancesSpec(acctRE: string -> bool, txns: seq<Transaction>)
    ensures var r := Balances(acctRE, txns);
            && Sorted(LexLess, r)
            && (forall i :: 0 <= i < |r| ==> acctRE(r[i].0))
            && forall a :: Lookup(r, a)
                           == if acctRE(a) && Touched(txns, a) && HasNonzero(AccountTotal(txns, a))
                              then Some(AccountTotal(txns, a)) else None
  {
    AccountOrder();
    BalanceTableSpec(txns);
    FilterEntriesSpec(LexLess, (a: string, m: Amounts) => HasNonzero(m), BalanceTable(txns));
    FilterEntriesSpec(LexLess, (a: string, m: Amounts) => acctRE(a), RemoveZeroes(BalanceTable(txns)));
  }

  // ---- filters and ids ----------------------------------------------------

  predicate AnyPostingMatches(re: string -> bool, t: Transaction) {
    exists i :: 0 <= i < |t.postings| && re(t.postings[i].account)
  }

  /** filterAccount: the transactions with at least one posting to a matching account. */
  function FilterAccount(re: string -> bool, txns: seq<Transaction>): (r: seq<Transaction>)
    ensures forall i :: 0 <= i < |r| ==> r[i] in txns && AnyPostingMatches(re, r[i])
    ensures forall i :: 0 <= i < |txns| && AnyPostingMatches(re, txns[i]) ==> txns[i] in r
    ensures Subsequence(r, txns)
    ensures forall x :: multiset(r)[x] == if AnyPostingMatches(re, x) then multiset(txns)[x] else 0
  {
    FilterSubsequence((t: Transaction) => AnyPostingMatches(re, t), txns);
    FilterCount((t: Transaction) => AnyPostingMatches(re, t), txns);
    Filter((t: Transaction) => AnyPostingMatches(re, t), txns)
  }

  /** filterBefore(d): the transactions dated strictly before d. */
  function FilterBefore(d: CivilDate, txns: seq<Transaction>): (r: seq<Transaction>)
    ensures forall i :: 0 <= i < |r| ==> r[i] in txns && Before(r[i].date, d)
    ensures forall i :: 0 <= i < |txns| && Before(txns[i].date, d) ==> txns[i] in r
    ensures Subsequence(r, txns)
    ensures forall x :: multiset(r)[x] == if Before(x.date, d) then multiset(txns)[x] else 0
  {
    FilterSubsequence((t: Transaction) => Before(t.date, d), txns);
    FilterCount((t: Transaction) => Before(t.date, d), txns);
    Filter((t: Transaction) => Before(t.date, d), txns)
  }

  /** filterAfter(d): the transactions dated strictly after d. */
  function FilterAfter(d: CivilDate, txns: seq<Transaction>): (r: seq<Transaction>)
    ensures forall i :: 0 <= i < |r| ==> r[i] in txns && Before(d, r[i].date)
    ensures forall i :: 0 <= i < |txns| && Before(d, txns[i].date) ==> txns[i] in r
    ensures Subsequence(r, txns)
    ensures forall x :: multiset(r)[x] == if Before(d, x.date) then multiset(txns)[x] else 0
  {
    FilterSubsequence((t: Transaction) => Before(d, t.date), txns);
    FilterCount((t: Transaction) => Before(d, t.date), txns);
    Filter((t: Transaction) => Before(d, t.date), txns)
  }

  function Accounts(ps: seq<Posting>): (r: seq<string>)
    ensures |r| == |ps| && forall i :: 0 <= i < |ps| ==> r[i] == ps[i].account
  {
    Map((p: Posting) => p.account, ps)
  }

  /** filterNoOp's test: more than one distinct account. */
  predicate MovesMoney(t: Transaction) {
    |Uniq(Accounts(t.postings))| > 1
  }

  /** A transaction moves money exactly when two of its postings name different accounts. */
  lemma MovesMoneySpec(t: Transaction)
    ensures MovesMoney(t) <==> exists i, j :: 0 <= i < |t.postings| && 0 <= j < |t.postings|
                                              && t.postings[i].account != t.postings[j].account
  {
    var accts := Accounts(t.postings);
    UniqMoreThanOne(accts);
    if exists i, j :: 0 <= i < |accts| && 0 <= j < |accts| && accts[i] != accts[j] {
      var i, j :| 0 <= i < |accts| && 0 <= j < |accts| && accts[i] != accts[j];
      assert t.postings[i].account != t.postings[j].account;
    }
  }

  /** filterNoOp: the transactions touching at least two distinct accounts. */
  function FilterNoOp(txns: seq<Transaction>): (r: seq<Transaction>)
    ensures forall i :: 0 <= i < |r| ==> r[i] in txns && MovesMoney(r[i])
    ensures forall i :: 0 <= i < |txns| && MovesMoney(txns[i]) ==> txns[i] in r
    ensures Subsequence(r, txns)
    ensures forall x :: multiset(r)[x] == if MovesMoney(x) then multiset(txns)[x] else 0
  {
    FilterSubsequence(MovesMoney, txns);
    FilterCount(MovesMoney, txns);
    Filter(MovesMoney, txns)
  }

  lemma FilterNoOpIdempotent(txns: seq<Transaction>)
    ensures FilterNoOp(FilterNoOp(txns)) == FilterNoOp(txns)
  {
    FilterIdempotent(MovesMoney, txns);
  }

  /** identifyTransactions: ids 1..n in list order. */
  function IdentifyTransactions(txns: seq<Transaction>): (r: seq<Transaction>)
    ensures |r| == |txns|
    ensures forall i :: 0 <= i < |txns| ==> r[i] == txns[i].(id := Some(i + 1))
  {
    ZipWith((n: int, t: Transaction) => t.(id := Some(if n < 0 then 0 else n)), Range(1, |txns| + 1), txns)
  }
}
