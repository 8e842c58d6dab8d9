/** `CatalogFilterBuilder`: the filter builder over catalogs, with optional type and brand ids. */
module CatalogFilterBuilder {
  import opened Wrappers
  import opened CatalogModel
  import opened FilterBuilder

  /** The two atomic conditions the catalog builder adds. */
  datatype CatalogCondition = TypeIdIs(typeId: int) | BrandIdIs(brandId: int)

  /** What an atomic condition says about one catalog. */
  function HoldsOn(c: Catalog): CatalogCondition -> bool {
    (cond: CatalogCondition) => match cond
      case TypeIdIs(t) => c.CatalogTypeId == t
      case BrandIdIs(b) => c.CatalogBrandId == b
  }

  /** The catalogs that a builder given these optional ids should accept. */
  predicate MatchesIds(c: Catalog, typeId: Option<int>, brandId: Option<int>) {
    (typeId.Some? ==> c.CatalogTypeId == typeId.value) && (brandId.Some? ==> c.CatalogBrandId == brandId.value)
  }

  class CatalogFilterBuilder {
    /** The inherited `FilterBuilder<Catalog>` state. */
    const filters: FilterBuilder<CatalogCondition>

    constructor ()
      ensures fresh(filters) && filters.FilterExpression == []
    {
      filters := new FilterBuilder();
    }

    /** `WithTypeId`: with an id, appends `CatalogTypeId == typeId`; returns this builder. */
    method WithTypeId(typeId: Option<int>) returns (r: CatalogFilterBuilder)
      modifies filters
      ensures r == this
      ensures typeId.None? ==> filters.FilterExpression == old(filters.FilterExpression)
      ensures typeId.Some? ==> filters.FilterExpression == old(filters.FilterExpression) + [Atom(TypeIdIs(typeId.value))]
    {
      if typeId.Some? {
        filters.Add(Atom(TypeIdIs(typeId.value)));
      }
      return this;
    }

    /** `WithBrandId`: with an id, appends `CatalogBrandId == brandId`; returns this builder. */
    method WithBrandId(brandId: Option<int>) returns (r: CatalogFilterBuilder)
      modifies filters
      ensures r == this
      ensures brandId.None? ==> filters.FilterExpression == old(filters.FilterExpression)
      ensures brandId.Some? ==> filters.FilterExpression == old(filters.FilterExpression) + [Atom(BrandIdIs(brandId.value))]
    {
      if brandId.Some? {
        filters.Add(Atom(BrandIdIs(brandId.value)));
      }
      return this;
    }
  }

  /**
   * `new CatalogFilterBuilder().WithTypeId(typeId).WithBrandId(brandId).Build()`: accepts exactly
   * the catalogs that match every id supplied, and every catalog when neither is.
   */
  method BuildCondition(typeId: Option<int>, brandId: Option<int>) returns (r: Expr<CatalogCondition>)
    ensures forall c :: Eval(r, HoldsOn(c)) <==> MatchesIds(c, typeId, brandId)
    ensures typeId.None? && brandId.None? ==> r == AcceptAll
  {
    var builder := new CatalogFilterBuilder();
    var b1 := builder.WithTypeId(typeId);
    var b2 := b1.WithBrandId(brandId);
    var fs := b2.filters.FilterExpression;
    r := b2.filters.Build();
    forall c ensures Eval(r, HoldsOn(c)) <==> MatchesIds(c, typeId, brandId) {
      assert AllAccept(fs, HoldsOn(c)) <==> MatchesIds(c, typeId, brandId) by {
        if typeId.Some? && brandId.Some? {
          assert fs == [Atom(TypeIdIs(typeId.value)), Atom(BrandIdIs(brandId.value))];
          assert Eval(fs[0], HoldsOn(c)) <==> c.CatalogTypeId == typeId.value;
          assert Eval(fs[1], HoldsOn(c)) <==> c.CatalogBrandId == brandId.value;
        } else if typeId.Some? {
          assert Eval(fs[0], HoldsOn(c)) <==> c.CatalogTypeId == typeId.value;
        } else if brandId.Some? {
          assert Eval(fs[0], HoldsOn(c)) <==> c.CatalogBrandId == brandId.value;
        }
      }
    }
  }
}
