/**
  Exact decimal quantities with an explicit "unknown" value.  The source's
  addDecimal/multDecimal/invertDecimal return undefined when an operand is
  undefined, and callers treat such a result as a gap; Unknown plays that role.
  Decimal values are exact reals here.
*/
module Decimal {

  datatype Quantity = Known(value: real) | Unknown

  /** addDecimal: exact sum, unknown when either operand is unknown. */
  function Add(a: Quantity, b: Quantity): Quantity {
    if a.Known? && b.Known? then Known(a.value + b.value) else Unknown
  }

  /** multDecimal */
  function Mul(a: Quantity, b: Quantity): Quantity {
    if a.Known? && b.Known? then Known(a.value * b.value) else Unknown
  }

  /** invertDecimal: the negation. */
  function Neg(a: Quantity): Quantity {
    if a.Known? then Known(-a.value) else Unknown
  }

  /** decimalIsZero: only a known zero is zero. */
  predicate IsZero(a: Quantity) {
    a.Known? && a.value == 0.0
  }

  const Zero: Quantity := Known(0.0)

  /** Left-to-right sum starting from zero, the shape of R.reduce(addDecimal, 0). */
  function Sum(qs: seq<Quantity>): Quantity {
    if qs == [] then Zero else Add(Sum(qs[..|qs| - 1]), qs[|qs| - 1])
  }

  lemma AddCommutes(a: Quantity, b: Quantity)
    ensures Add(a, b) == Add(b, a)
  {
  }

  lemma AddAssociates(a: Quantity, b: Quantity, c: Quantity)
    ensures Add(Add(a, b), c) == Add(a, Add(b, c))
  {
  }

  /** Sum distributes over concatenation. */
  lemma {:induction false} SumAppend(xs: seq<Quantity>, ys: seq<Quantity>)
    ensures Sum(xs + ys) == Add(Sum(xs), Sum(ys))
  {
    if ys == [] {
      assert xs + ys == xs;
      assert Sum(xs).Known? ==> Add(Sum(xs), Zero) == Sum(xs);
    } else {
      var zs := xs + ys;
      assert zs[..|zs| - 1] == xs + ys[..|ys| - 1];
      assert zs[|zs| - 1] == ys[|ys| - 1];
      SumAppend(xs, ys[..|ys| - 1]);
    }
  }

  lemma SumSingleton(q: Quantity)
    ensures Sum([q]) == Add(Zero, q)
  {
    assert [q][..0] == [];
  }

  /** A sum is unknown exactly when one of its terms is unknown. */
  lemma {:induction false} SumUnknown(qs: seq<Quantity>)
    ensures Sum(qs) == Unknown <==> Unknown in qs
  {
    if qs != [] {
      var init := qs[..|qs| - 1];
      SumUnknown(init);
      assert qs == init + [qs[|qs| - 1]];
    }
  }

  /** Adding zero changes nothing, for known and unknown values alike. */
  lemma AddZero(q: Quantity)
    ensures Add(Zero, q) == q && Add(q, Zero) == q
  {
  }
}
