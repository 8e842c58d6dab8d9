/**
 * `FilterBuilder<TEntity>`: a list of predicates over an entity, folded into one conjunction.
 * A predicate is data: `AcceptAll` (the `_ => true` lambda), an atomic condition, or the
 * `AndAlso` of two predicates; `Eval` gives it meaning once an interpretation of the atomic
 * conditions on one entity is fixed.
 */
module FilterBuilder {
  datatype Expr<C> = AcceptAll | Atom(condition: C) | AndAlso(left: Expr<C>, right: Expr<C>)

  /** Whether the predicate accepts the entity whose atomic conditions `holds` decides. */
  predicate Eval<C>(e: Expr<C>, holds: C -> bool) {
    match e
    case AcceptAll => true
    case Atom(c) => holds(c)
    case AndAlso(l, r) => Eval(l, holds) && Eval(r, holds)
  }

  /** Every predicate of the list accepts the entity. */
  predicate AllAccept<C>(filters: seq<Expr<C>>, holds: C -> bool) {
    forall i :: 0 <= i < |filters| ==> Eval(filters[i], holds)
  }

  /** `CombineFilters`: a predicate that invokes both on the same parameter, joined by `&&`. */
  function CombineFilters<C>(baseExpression: Expr<C>, filterExpression: Expr<C>): Expr<C> {
    AndAlso(baseExpression, filterExpression)
  }

  lemma CombineFiltersAccepts<C>(baseExpression: Expr<C>, filterExpression: Expr<C>, holds: C -> bool)
    ensures Eval(CombineFilters(baseExpression, filterExpression), holds) <==>
            Eval(baseExpression, holds) && Eval(filterExpression, holds)
  {
  }

  /** Adding a filter can only shrink the set of accepted entities. */
  lemma AppendShrinks<C>(filters: seq<Expr<C>>, f: Expr<C>, holds: C -> bool)
    ensures AllAccept(filters + [f], holds) <==> AllAccept(filters, holds) && Eval(f, holds)
  {
    var all := filters + [f];
    assert forall i :: 0 <= i < |filters| ==> all[i] == filters[i];
    assert all[|filters|] == f;
  }

  class FilterBuilder<C> {
    /** The protected `FilterExpression` list. */
    var FilterExpression: seq<Expr<C>>

    constructor ()
      ensures FilterExpression == []
    {
      FilterExpression := [];
    }

    /** `FilterExpression.Add(f)`, as the derived builders use it. */
    method Add(f: Expr<C>)
      modifies this
      ensures FilterExpression == old(FilterExpression) + [f]
    {
      FilterExpression := FilterExpression + [f];
    }

    /**
     * `Build`: accepts an entity iff every filter in the list does; with no filter that is the
     * always-true predicate, and a single filter comes back unchanged. The list is not modified.
     */
    method Build() returns (r: Expr<C>)
      ensures forall holds: C -> bool :: Eval(r, holds) <==> AllAccept(FilterExpression, holds)
      ensures |FilterExpression| == 0 ==> r == AcceptAll
      ensures |FilterExpression| == 1 ==> r == FilterExpression[0]
    {
      if |FilterExpression| == 0 {
        return AcceptAll;
      }
      r := FilterExpression[0];
      for i := 1 to |FilterExpression|
        invariant forall holds: C -> bool :: Eval(r, holds) <==> AllAccept(FilterExpression[..i], holds)
        invariant i == 1 ==> r == FilterExpression[0]
      {
        r := CombineFilters(r, FilterExpression[i]);
        assert FilterExpression[..i + 1] == FilterExpression[..i] + [FilterExpression[i]];
        forall holds: C -> bool ensures Eval(r, holds) <==> AllAccept(FilterExpression[..i + 1], holds) {
          AppendShrinks(FilterExpression[..i], FilterExpression[i], holds);
        }
      }
      assert FilterExpression[..|FilterExpression|] == FilterExpression;
    }
  }
}
