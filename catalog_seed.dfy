/**
 * `CatalogContextSeed.SeedAsync`: fills an empty catalog database from the entries of
 * `Setup/catalog.json`. The entries arrive already deserialised, the clock reading is the
 * `now` parameter, and the identities the database assigns on saving are the `brandIdAt` and
 * `typeIdAt` parameters (the id of the k-th saved row).
 */
module CatalogSeed {
  import opened Wrappers
  import opened Text
  import opened Collections
  import opened CatalogModel

  /** `CatalogSourceEntry`: one item of the seed file; every text field may be missing. */
  datatype CatalogSourceEntry = CatalogSourceEntry(
    Id: int, Type: Option<string>, Brand: Option<string>, Name: Option<string>,
    Description: Option<string>, Price: Decimal)

  /**
   * The loop's local state: the three `HashSet`s that remember the brand names, type names and
   * catalog ids already taken, and the three lists of new rows.
   */
  datatype SeedState = SeedState(
    brandNameSet: set<string>, typeNameSet: set<string>, catalogIdSet: set<int>,
    catalogBrands: seq<CatalogBrand>, catalogTypes: seq<CatalogType>, catalogs: seq<Catalog>)

  const InitialState := SeedState({}, {}, {}, [], [], [])

  /** Every seeded row is created and updated by user 0 at the seeding instant. */
  function SeedAudit(now: DateTime): Audit {
    Audit(0, now, 0, now)
  }

  function NewBrand(name: string, now: DateTime): CatalogBrand {
    CatalogBrand(0, name, SeedAudit(now))
  }

  function NewType(name: string, now: DateTime): CatalogType {
    CatalogType(0, name, SeedAudit(now))
  }

  /** The catalog row made from a source item: stock 100, restock at 10, at most 200, `<Id>.webp`. */
  function NewCatalog(item: CatalogSourceEntry, brand: CatalogBrand, catalogType: CatalogType, now: DateTime): Catalog {
    Catalog(item.Id, item.Name.GetOr(""), item.Description, item.Price, IntToString(item.Id) + ".webp",
            0, catalogType, 0, brand, 100, 10, 200, false, SeedAudit(now))
  }

  /** `brandNameSet.Add(name)` after the blank check: the brand a new name creates. */
  function AddBrand(st: SeedState, brand: Option<string>, now: DateTime): SeedState {
    if !IsNullOrWhiteSpace(brand) && brand.value !in st.brandNameSet then
      st.(brandNameSet := st.brandNameSet + {brand.value},
          catalogBrands := st.catalogBrands + [NewBrand(brand.value, now)])
    else st
  }

  function AddType(st: SeedState, catalogType: Option<string>, now: DateTime): SeedState {
    if !IsNullOrWhiteSpace(catalogType) && catalogType.value !in st.typeNameSet then
      st.(typeNameSet := st.typeNameSet + {catalogType.value},
          catalogTypes := st.catalogTypes + [NewType(catalogType.value, now)])
    else st
  }

  /**
   * One iteration of the seeding loop as written: a catalog row is added only when this very
   * item created a new brand and a new type, and its id is not yet taken.
   */
  function Step(st: SeedState, item: CatalogSourceEntry, now: DateTime): SeedState {
    var brandCreated := !IsNullOrWhiteSpace(item.Brand) && item.Brand.value !in st.brandNameSet;
    var typeCreated := !IsNullOrWhiteSpace(item.Type) && item.Type.value !in st.typeNameSet;
    var st1 := AddType(AddBrand(st, item.Brand, now), item.Type, now);
    if brandCreated && typeCreated && item.Id !in st.catalogIdSet then
      st1.(catalogIdSet := st1.catalogIdSet + {item.Id},
           catalogs := st1.catalogs + [NewCatalog(item, NewBrand(item.Brand.value, now),
                                                  NewType(item.Type.value, now), now)])
    else st1
  }

  /** The loop over all the items, in file order. */
  function Fold(items: seq<CatalogSourceEntry>, now: DateTime): SeedState {
    if |items| == 0 then InitialState
    else Step(Fold(items[..|items| - 1], now), items[|items| - 1], now)
  }

  /**
   * The `foreach` over the source items, with the sets and lists it updates; it computes the
   * fold of `Step`.
   */
  method BuildSeedData(items: seq<CatalogSourceEntry>, now: DateTime) returns (r: SeedState)
    ensures r == Fold(items, now)
  {
    var brandNameSet: set<string> := {};
    var typeNameSet: set<string> := {};
    var catalogIdSet: set<int> := {};
    var catalogBrands: seq<CatalogBrand> := [];
    var catalogTypes: seq<CatalogType> := [];
    var catalogs: seq<Catalog> := [];
    for i := 0 to |items|
      invariant SeedState(brandNameSet, typeNameSet, catalogIdSet, catalogBrands, catalogTypes, catalogs)
                == Fold(items[..i], now)
    {
      assert items[..i + 1][..i] == items[..i];
      var item := items[i];
      var catalogBrand: Option<CatalogBrand> := None;
      var catalogType: Option<CatalogType> := None;
      if !IsNullOrWhiteSpace(item.Brand) && item.Brand.value !in brandNameSet {
        brandNameSet := brandNameSet + {item.Brand.value};
        catalogBrand := Some(NewBrand(item.Brand.value, now));
        catalogBrands := catalogBrands + [catalogBrand.value];
      }
      if !IsNullOrWhiteSpace(item.Type) && item.Type.value !in typeNameSet {
        typeNameSet := typeNameSet + {item.Type.value};
        catalogType := Some(NewType(item.Type.value, now));
        catalogTypes := catalogTypes + [catalogType.value];
      }
      if catalogBrand.Some? && catalogType.Some? && item.Id !in catalogIdSet {
        catalogIdSet := catalogIdSet + {item.Id};
        catalogs := catalogs + [NewCatalog(item, catalogBrand.value, catalogType.value, now)];
      }
    }
    assert items[..|items|] == items;
    r := SeedState(brandNameSet, typeNameSet, catalogIdSet, catalogBrands, catalogTypes, catalogs);
  }

  /* ---------- what the loop keeps ---------- */

  function BrandNames(bs: seq<CatalogBrand>): (r: seq<string>)
    ensures |r| == |bs| && forall k :: 0 <= k < |bs| ==> r[k] == bs[k].Name
  {
    seq(|bs|, k requires 0 <= k < |bs| => bs[k].Name)
  }

  function TypeNames(ts: seq<CatalogType>): (r: seq<string>)
    ensures |r| == |ts| && forall k :: 0 <= k < |ts| ==> r[k] == ts[k].Name
  {
    seq(|ts|, k requires 0 <= k < |ts| => ts[k].Name)
  }

  function CatalogIds(cs: seq<Catalog>): (r: seq<int>)
    ensures |r| == |cs| && forall k :: 0 <= k < |cs| ==> r[k] == cs[k].Id
  {
    seq(|cs|, k requires 0 <= k < |cs| => cs[k].Id)
  }

  /** A seeded row has the fixed stock figures, the picture named after its id and no ids yet. */
  predicate SeededShape(c: Catalog, now: DateTime) {
    && c.PictureFileName == IntToString(c.Id) + ".webp"
    && c.AvailableStock == 100 && c.RestockThreshold == 10 && c.MaxStockThreshold == 200
    && c.CatalogBrandId == 0 && c.CatalogTypeId == 0 && !c.OnReorder
    && c.Audit == SeedAudit(now)
  }

  /**
   * The sets mirror the lists; brand and type names are distinct and not blank; ids are
   * distinct; every row refers to a brand and a type of the lists; and, since a row is only
   * added together with a new brand and a new type, there are no more rows than brands or types.
   */
  ghost predicate SeedInvariant(st: SeedState, now: DateTime) {
    && RowsInvariant(st, now)
    && |st.catalogs| <= |st.catalogBrands| && |st.catalogs| <= |st.catalogTypes|
  }

  /** The part of `SeedInvariant` that does not bound the number of rows. */
  ghost predicate RowsInvariant(st: SeedState, now: DateTime) {
    && (forall x :: x in st.brandNameSet <==> x in BrandNames(st.catalogBrands))
    && (forall x :: x in st.typeNameSet <==> x in TypeNames(st.catalogTypes))
    && (forall x :: x in st.catalogIdSet <==> x in CatalogIds(st.catalogs))
    && Distinct(BrandNames(st.catalogBrands)) && Distinct(TypeNames(st.catalogTypes))
    && Distinct(CatalogIds(st.catalogs))
    && (forall k :: 0 <= k < |st.catalogBrands| ==>
          st.catalogBrands[k] == NewBrand(st.catalogBrands[k].Name, now) && !IsBlank(st.catalogBrands[k].Name))
    && (forall k :: 0 <= k < |st.catalogTypes| ==>
          st.catalogTypes[k] == NewType(st.catalogTypes[k].Name, now) && !IsBlank(st.catalogTypes[k].Name))
    && (forall k :: 0 <= k < |st.catalogs| ==>
          SeededShape(st.catalogs[k], now)
          && st.catalogs[k].CatalogBrand in st.catalogBrands && st.catalogs[k].CatalogType in st.catalogTypes)
  }

  lemma AddBrandKeeps(st: SeedState, brand: Option<string>, now: DateTime)
    requires RowsInvariant(st, now)
    ensures RowsInvariant(AddBrand(st, brand, now), now)
    ensures AddBrand(st, brand, now).catalogs == st.catalogs && AddBrand(st, brand, now).catalogTypes == st.catalogTypes
    ensures |st.catalogBrands| <= |AddBrand(st, brand, now).catalogBrands| <= |st.catalogBrands| + 1
  {
    var st1 := AddBrand(st, brand, now);
    if st1 != st {
      assert BrandNames(st1.catalogBrands) == BrandNames(st.catalogBrands) + [brand.value];
    }
  }

  lemma AddTypeKeeps(st: SeedState, catalogType: Option<string>, now: DateTime)
    requires RowsInvariant(st, now)
    ensures RowsInvariant(AddType(st, catalogType, now), now)
    ensures AddType(st, catalogType, now).catalogs == st.catalogs && AddType(st, catalogType, now).catalogBrands == st.catalogBrands
    ensures |st.catalogTypes| <= |AddType(st, catalogType, now).catalogTypes| <= |st.catalogTypes| + 1
  {
    var st1 := AddType(st, catalogType, now);
    if st1 != st {
      assert TypeNames(st1.catalogTypes) == TypeNames(st.catalogTypes) + [catalogType.value];
    }
  }

  /** Adding a row of the seeded shape, with a new id and a listed brand and type, keeps the row-level facts. */
  lemma AddRowKeeps(st: SeedState, c: Catalog, now: DateTime)
    requires RowsInvariant(st, now)
    requires SeededShape(c, now) && c.Id !in st.catalogIdSet
    requires c.CatalogBrand in st.catalogBrands && c.CatalogType in st.catalogTypes
    ensures RowsInvariant(st.(catalogIdSet := st.catalogIdSet + {c.Id}, catalogs := st.catalogs + [c]), now)
  {
    var st2 := st.(catalogIdSet := st.catalogIdSet + {c.Id}, catalogs := st.catalogs + [c]);
    assert CatalogIds(st2.catalogs) == CatalogIds(st.catalogs) + [c.Id];
  }

  lemma StepKeeps(st: SeedState, item: CatalogSourceEntry, now: DateTime)
    requires SeedInvariant(st, now)
    ensures SeedInvariant(Step(st, item, now), now)
    ensures |Step(st, item, now).catalogBrands| <= |st.catalogBrands| + 1
    ensures |Step(st, item, now).catalogTypes| <= |st.catalogTypes| + 1
  {
    var brandCreated := !IsNullOrWhiteSpace(item.Brand) && item.Brand.value !in st.brandNameSet;
    var typeCreated := !IsNullOrWhiteSpace(item.Type) && item.Type.value !in st.typeNameSet;
    var st0 := AddBrand(st, item.Brand, now);
    AddBrandKeeps(st, item.Brand, now);
    var st1 := AddType(st0, item.Type, now);
    AddTypeKeeps(st0, item.Type, now);
    if brandCreated && typeCreated && item.Id !in st.catalogIdSet {
      var c := NewCatalog(item, NewBrand(item.Brand.value, now), NewType(item.Type.value, now), now);
      assert st1.catalogBrands[|st1.catalogBrands| - 1] == c.CatalogBrand;
      assert st1.catalogTypes[|st1.catalogTypes| - 1] == c.CatalogType;
      AddRowKeeps(st1, c, now);
    }
  }

  /** Whatever the items, the loop's result satisfies the invariant and has at most one brand and one type per item. */
  lemma {:induction false} FoldKeepsInvariant(items: seq<CatalogSourceEntry>, now: DateTime)
    ensures SeedInvariant(Fold(items, now), now)
    ensures |Fold(items, now).catalogBrands| <= |items| && |Fold(items, now).catalogTypes| <= |items|
  {
    if |items| > 0 {
      FoldKeepsInvariant(items[..|items| - 1], now);
      StepKeeps(Fold(items[..|items| - 1], now), items[|items| - 1], now);
    }
  }

  /** The fields a seeded row copies from its source item; a missing name becomes empty. */
  predicate SeededFrom(c: Catalog, item: CatalogSourceEntry) {
    c.Id == item.Id && c.Name == item.Name.GetOr("") && c.Description == item.Description && c.Price == item.Price
  }

  /** A step keeps the rows so far and adds at most one, copied from its item. */
  lemma StepAppendsRow(st: SeedState, item: CatalogSourceEntry, now: DateTime)
    ensures var after := Step(st, item, now).catalogs;
            && |st.catalogs| <= |after| <= |st.catalogs| + 1
            && after[..|st.catalogs|] == st.catalogs
            && (|after| > |st.catalogs| ==> SeededFrom(after[|st.catalogs|], item))
  {
    var after := Step(st, item, now).catalogs;
    if |after| > |st.catalogs| {
      assert after[..|st.catalogs|] == st.catalogs;
    } else {
      assert after == st.catalogs;
    }
  }

  /** Every seeded row copies the fields of some item of the file. */
  lemma {:induction false} FoldRowsFromItems(items: seq<CatalogSourceEntry>, now: DateTime)
    ensures forall k :: 0 <= k < |Fold(items, now).catalogs| ==>
              exists j :: 0 <= j < |items| && SeededFrom(Fold(items, now).catalogs[k], items[j])
  {
    if |items| > 0 {
      var init := items[..|items| - 1];
      FoldRowsFromItems(init, now);
      var before := Fold(init, now);
      var after := Fold(items, now);
      StepAppendsRow(before, items[|items| - 1], now);
      forall k | 0 <= k < |after.catalogs|
        ensures exists j :: 0 <= j < |items| && SeededFrom(after.catalogs[k], items[j])
      {
        if k < |before.catalogs| {
          assert after.catalogs[k] == after.catalogs[..|before.catalogs|][k] == before.catalogs[k];
          var j :| 0 <= j < |init| && SeededFrom(before.catalogs[k], init[j]);
          assert items[j] == init[j];
        } else {
          assert SeededFrom(after.catalogs[k], items[|items| - 1]);
        }
      }
    } else {
      assert Fold(items, now) == InitialState;
    }
  }

  /** The names that are present and not blank, in order. */
  function NonBlank(names: seq<Option<string>>): (r: seq<string>)
    ensures forall k :: 0 <= k < |r| ==> !IsBlank(r[k])
  {
    if |names| == 0 then []
    else
      var last := names[|names| - 1];
      NonBlank(names[..|names| - 1]) + (if IsNullOrWhiteSpace(last) then [] else [last.value])
  }

  function ItemBrands(items: seq<CatalogSourceEntry>): seq<Option<string>> {
    seq(|items|, k requires 0 <= k < |items| => items[k].Brand)
  }

  function ItemTypes(items: seq<CatalogSourceEntry>): seq<Option<string>> {
    seq(|items|, k requires 0 <= k < |items| => items[k].Type)
  }

  /** A step appends the item's brand name exactly when it is not blank and not yet listed. */
  lemma StepBrandNames(st: SeedState, item: CatalogSourceEntry, now: DateTime)
    requires SeedInvariant(st, now)
    ensures BrandNames(Step(st, item, now).catalogBrands)
            == BrandNames(st.catalogBrands) + NewName(BrandNames(st.catalogBrands), item.Brand)
  {
    var st0 := AddBrand(st, item.Brand, now);
    assert Step(st, item, now).catalogBrands == st0.catalogBrands;
    if st0 != st {
      assert BrandNames(st0.catalogBrands) == BrandNames(st.catalogBrands) + [item.Brand.value];
    }
  }

  lemma StepTypeNames(st: SeedState, item: CatalogSourceEntry, now: DateTime)
    requires SeedInvariant(st, now)
    ensures TypeNames(Step(st, item, now).catalogTypes)
            == TypeNames(st.catalogTypes) + NewName(TypeNames(st.catalogTypes), item.Type)
  {
    var st1 := AddType(AddBrand(st, item.Brand, now), item.Type, now);
    assert Step(st, item, now).catalogTypes == st1.catalogTypes;
    if st1.catalogTypes != st.catalogTypes {
      assert TypeNames(st1.catalogTypes) == TypeNames(st.catalogTypes) + [item.Type.value];
    }
  }

  /** The name as a one-element list when it is not blank and not among `seen`. */
  function NewName(seen: seq<string>, name: Option<string>): seq<string> {
    if !IsNullOrWhiteSpace(name) && name.value !in seen then [name.value] else []
  }

  /** The brand list holds the non-blank brand names of the file, each once, in order of first occurrence. */
  lemma {:induction false} FoldBrandsInFirstOccurrenceOrder(items: seq<CatalogSourceEntry>, now: DateTime)
    ensures BrandNames(Fold(items, now).catalogBrands) == Dedupe(NonBlank(ItemBrands(items)))
  {
    if |items| > 0 {
      var init := items[..|items| - 1];
      var item := items[|items| - 1];
      var st := Fold(init, now);
      var nb := NonBlank(ItemBrands(init));
      FoldBrandsInFirstOccurrenceOrder(init, now);
      FoldKeepsInvariant(init, now);
      StepBrandNames(st, item, now);
      assert ItemBrands(items)[..|items| - 1] == ItemBrands(init);
      assert ItemBrands(items)[|items| - 1] == item.Brand;
      assert NonBlank(ItemBrands(items)) == nb + (if IsNullOrWhiteSpace(item.Brand) then [] else [item.Brand.value]);
      assert Fold(items, now) == Step(st, item, now);
      if !IsNullOrWhiteSpace(item.Brand) {
        var name := item.Brand.value;
        DedupeSnoc(nb, name);
        DedupeSameMembers(nb, name);
        assert Dedupe(NonBlank(ItemBrands(items))) == Dedupe(nb) + (if name in nb then [] else [name]);
      } else {
        assert NonBlank(ItemBrands(items)) == nb;
      }
    } else {
      assert Fold(items, now) == InitialState;
    }
  }

  /** The type list holds the non-blank type names of the file, each once, in order of first occurrence. */
  lemma {:induction false} FoldTypesInFirstOccurrenceOrder(items: seq<CatalogSourceEntry>, now: DateTime)
    ensures TypeNames(Fold(items, now).catalogTypes) == Dedupe(NonBlank(ItemTypes(items)))
  {
    if |items| > 0 {
      var init := items[..|items| - 1];
      var item := items[|items| - 1];
      var st := Fold(init, now);
      var nb := NonBlank(ItemTypes(init));
      FoldTypesInFirstOccurrenceOrder(init, now);
      FoldKeepsInvariant(init, now);
      StepTypeNames(st, item, now);
      assert ItemTypes(items)[..|items| - 1] == ItemTypes(init);
      assert ItemTypes(items)[|items| - 1] == item.Type;
      assert NonBlank(ItemTypes(items)) == nb + (if IsNullOrWhiteSpace(item.Type) then [] else [item.Type.value]);
      assert Fold(items, now) == Step(st, item, now);
      if !IsNullOrWhiteSpace(item.Type) {
        var name := item.Type.value;
        DedupeSnoc(nb, name);
        DedupeSameMembers(nb, name);
        assert Dedupe(NonBlank(ItemTypes(items))) == Dedupe(nb) + (if name in nb then [] else [name]);
      } else {
        assert NonBlank(ItemTypes(items)) == nb;
      }
    } else {
      assert Fold(items, now) == InitialState;
    }
  }

  /* ---------- the repeated-brand defect and the intended loop ---------- */

  /** The item has a brand and a type that are not blank. */
  predicate Seedable(item: CatalogSourceEntry) {
    !IsNullOrWhiteSpace(item.Brand) && !IsNullOrWhiteSpace(item.Type)
  }

  /**
   * Two items of one brand, with different types and ids, are both seedable, yet the loop as
   * written seeds only the first: the second created no new brand.
   */
  lemma SeedDropsRepeatedBrand(now: DateTime)
    ensures var items := [CatalogSourceEntry(1, Some("T1"), Some("B"), Some("first"), None, 1.0),
                          CatalogSourceEntry(2, Some("T2"), Some("B"), Some("second"), None, 1.0)];
            Seedable(items[0]) && Seedable(items[1]) && items[0].Id != items[1].Id
            && CatalogIds(Fold(items, now).catalogs) == [1]
  {
    var items := [CatalogSourceEntry(1, Some("T1"), Some("B"), Some("first"), None, 1.0),
                  CatalogSourceEntry(2, Some("T2"), Some("B"), Some("second"), None, 1.0)];
    assert !IsBlank("B") by { assert !IsWhiteSpace("B"[0]); }
    assert !IsBlank("T1") by { assert !IsWhiteSpace("T1"[0]); }
    assert !IsBlank("T2") by { assert !IsWhiteSpace("T2"[0]); }
    assert items[..1][..0] == [];
    assert items[..1] == [items[0]];
    assert Fold(items[..1][..0], now) == InitialState;
    var st1 := Fold(items[..1], now);
    assert st1 == Step(InitialState, items[0], now);
    assert st1.brandNameSet == {"B"};
    assert |st1.catalogs| == 1 && st1.catalogs[0].Id == 1;
    assert CatalogIds(st1.catalogs) == [1];
    assert Fold(items, now) == Step(st1, items[1], now);
    assert Fold(items, now).catalogs == st1.catalogs;
  }

  /**
   * The loop as evidently intended: every seedable item with an id not yet taken gets a row,
   * whether or not an earlier item already created its brand and type.
   */
  function StepIntended(st: SeedState, item: CatalogSourceEntry, now: DateTime): SeedState {
    var st1 := AddType(AddBrand(st, item.Brand, now), item.Type, now);
    if Seedable(item) && item.Id !in st.catalogIdSet then
      st1.(catalogIdSet := st1.catalogIdSet + {item.Id},
           catalogs := st1.catalogs + [NewCatalog(item, NewBrand(item.Brand.value, now),
                                                  NewType(item.Type.value, now), now)])
    else st1
  }

  function FoldIntended(items: seq<CatalogSourceEntry>, now: DateTime): SeedState {
    if |items| == 0 then InitialState
    else StepIntended(FoldIntended(items[..|items| - 1], now), items[|items| - 1], now)
  }

  /** The ids of the seedable items. */
  function SeedableIds(items: seq<CatalogSourceEntry>): set<int> {
    if |items| == 0 then {}
    else SeedableIds(items[..|items| - 1]) + (if Seedable(items[|items| - 1]) then {items[|items| - 1].Id} else {})
  }

  /**
   * The intended loop seeds one row for each distinct id among the seedable items, and no other:
   * the seeded ids are distinct and are exactly the seedable items' ids.
   */
  lemma {:induction false} IntendedSeedsEverySeedableItem(items: seq<CatalogSourceEntry>, now: DateTime)
    ensures Distinct(CatalogIds(FoldIntended(items, now).catalogs))
    ensures forall x :: x in FoldIntended(items, now).catalogIdSet <==> x in CatalogIds(FoldIntended(items, now).catalogs)
    ensures forall x :: x in CatalogIds(FoldIntended(items, now).catalogs) <==> x in SeedableIds(items)
  {
    if |items| > 0 {
      var init := items[..|items| - 1];
      var item := items[|items| - 1];
      IntendedSeedsEverySeedableItem(init, now);
      var before := FoldIntended(init, now);
      var after := FoldIntended(items, now);
      var st1 := AddType(AddBrand(before, item.Brand, now), item.Type, now);
      assert st1.catalogs == before.catalogs && st1.catalogIdSet == before.catalogIdSet;
      if Seedable(item) && item.Id !in before.catalogIdSet {
        assert CatalogIds(after.catalogs) == CatalogIds(before.catalogs) + [item.Id];
      } else {
        assert CatalogIds(after.catalogs) == CatalogIds(before.catalogs);
      }
    }
  }

  /** The intended step keeps every row-level fact of the invariant. */
  lemma StepIntendedKeeps(st: SeedState, item: CatalogSourceEntry, now: DateTime)
    requires RowsInvariant(st, now)
    ensures RowsInvariant(StepIntended(st, item, now), now)
  {
    var st0 := AddBrand(st, item.Brand, now);
    AddBrandKeeps(st, item.Brand, now);
    var st1 := AddType(st0, item.Type, now);
    AddTypeKeeps(st0, item.Type, now);
    if Seedable(item) && item.Id !in st.catalogIdSet {
      var c := NewCatalog(item, NewBrand(item.Brand.value, now), NewType(item.Type.value, now), now);
      ListedBrand(st1, item.Brand.value, now);
      ListedType(st1, item.Type.value, now);
      AddRowKeeps(st1, c, now);
    }
  }

  /** A brand name in the set is a listed brand of the seeded shape. */
  lemma ListedBrand(st: SeedState, name: string, now: DateTime)
    requires RowsInvariant(st, now) && name in st.brandNameSet
    ensures NewBrand(name, now) in st.catalogBrands
  {
    var b :| 0 <= b < |st.catalogBrands| && BrandNames(st.catalogBrands)[b] == name;
    assert st.catalogBrands[b] == NewBrand(name, now);
  }

  /** A type name in the set is a listed type of the seeded shape. */
  lemma ListedType(st: SeedState, name: string, now: DateTime)
    requires RowsInvariant(st, now) && name in st.typeNameSet
    ensures NewType(name, now) in st.catalogTypes
  {
    var t :| 0 <= t < |st.catalogTypes| && TypeNames(st.catalogTypes)[t] == name;
    assert st.catalogTypes[t] == NewType(name, now);
  }

  lemma {:induction false} FoldIntendedKeeps(items: seq<CatalogSourceEntry>, now: DateTime)
    ensures RowsInvariant(FoldIntended(items, now), now)
  {
    if |items| > 0 {
      FoldIntendedKeeps(items[..|items| - 1], now);
      StepIntendedKeeps(FoldIntended(items[..|items| - 1], now), items[|items| - 1], now);
    }
  }

  /* ---------- saving and assigning the generated ids ---------- */

  /** `SaveChangesAsync` on the brand list: the k-th new brand receives the k-th generated id. */
  function SaveBrands(bs: seq<CatalogBrand>, brandIdAt: nat -> int): (r: seq<CatalogBrand>)
    ensures |r| == |bs| && BrandNames(r) == BrandNames(bs)
    ensures forall k :: 0 <= k < |bs| ==> r[k] == bs[k].(Id := brandIdAt(k))
  {
    seq(|bs|, k requires 0 <= k < |bs| => bs[k].(Id := brandIdAt(k)))
  }

  function SaveTypes(ts: seq<CatalogType>, typeIdAt: nat -> int): (r: seq<CatalogType>)
    ensures |r| == |ts| && TypeNames(r) == TypeNames(ts)
    ensures forall k :: 0 <= k < |ts| ==> r[k] == ts[k].(Id := typeIdAt(k))
  {
    seq(|ts|, k requires 0 <= k < |ts| => ts[k].(Id := typeIdAt(k)))
  }

  /**
   * `ToDictionaryAsync(key, value)`: the map from each key to its value, or `None` (an
   * `ArgumentException`) when a key repeats.
   */
  function ToDictionary(keys: seq<string>, values: seq<int>): (r: Option<map<string, int>>)
    requires |keys| == |values|
    ensures r.Some? <==> Distinct(keys)
    ensures r.Some? ==> r.value.Keys == set k | k in keys
    ensures r.Some? ==> forall k :: 0 <= k < |keys| ==> r.value[keys[k]] == values[k]
  {
    if |keys| == 0 then Some(map[])
    else
      var n := |keys| - 1;
      var rest := ToDictionary(keys[..n], values[..n]);
      DistinctSnoc(keys);
      if rest.None? || keys[n] in rest.value then None
      else
        KeySetSnoc(keys, keys[..n]);
        Some(rest.value[keys[n] := values[n]])
  }

  /** The keys of a list are the keys of its front and its last key. */
  lemma KeySetSnoc(keys: seq<string>, front: seq<string>)
    requires |keys| > 0 && front == keys[..|keys| - 1]
    ensures (set k | k in keys) == (set k | k in front) + {keys[|keys| - 1]}
  {
    assert keys == front + [keys[|keys| - 1]];
  }

  /** The ids of a saved list, in list order. */
  function BrandIds(bs: seq<CatalogBrand>): (r: seq<int>)
    ensures |r| == |bs| && forall k :: 0 <= k < |bs| ==> r[k] == bs[k].Id
  {
    seq(|bs|, k requires 0 <= k < |bs| => bs[k].Id)
  }

  function TypeIds(ts: seq<CatalogType>): (r: seq<int>)
    ensures |r| == |ts| && forall k :: 0 <= k < |ts| ==> r[k] == ts[k].Id
  {
    seq(|ts|, k requires 0 <= k < |ts| => ts[k].Id)
  }

  /** The body of the second `foreach`: look both names up and set the ids that are found. */
  function WithIds(c: Catalog, brandIds: map<string, int>, typeIds: map<string, int>): Catalog {
    var c1 := if c.CatalogBrand.Name in brandIds then c.(CatalogBrandId := brandIds[c.CatalogBrand.Name]) else c;
    if c.CatalogType.Name in typeIds then c1.(CatalogTypeId := typeIds[c.CatalogType.Name]) else c1
  }

  /** The second `foreach`: gives every seeded row the saved ids of its brand and type names. */
  method AssignIds(catalogs: seq<Catalog>, brandIds: map<string, int>, typeIds: map<string, int>)
    returns (r: seq<Catalog>)
    ensures |r| == |catalogs|
    ensures forall k :: 0 <= k < |r| ==> r[k] == WithIds(catalogs[k], brandIds, typeIds)
  {
    r := catalogs;
    for k := 0 to |r|
      invariant |r| == |catalogs|
      invariant forall j :: 0 <= j < k ==> r[j] == WithIds(catalogs[j], brandIds, typeIds)
      invariant forall j :: k <= j < |r| ==> r[j] == catalogs[j]
    {
      var catalog := r[k];
      if catalog.CatalogBrand.Name in brandIds {
        catalog := catalog.(CatalogBrandId := brandIds[catalog.CatalogBrand.Name]);
      }
      if catalog.CatalogType.Name in typeIds {
        catalog := catalog.(CatalogTypeId := typeIds[catalog.CatalogType.Name]);
      }
      r := r[k := catalog];
    }
  }

  /**
   * With the dictionaries of the saved lists, a seeded row gets the saved ids of its brand and
   * type names, and keeps all its other fields.
   */
  lemma AssignedRowIsSaved(st: SeedState, now: DateTime, brands: seq<CatalogBrand>, types: seq<CatalogType>,
                           brandIds: map<string, int>, typeIds: map<string, int>, k: nat)
    requires RowsInvariant(st, now) && k < |st.catalogs|
    requires |brands| == |st.catalogBrands| && BrandNames(brands) == BrandNames(st.catalogBrands)
    requires |types| == |st.catalogTypes| && TypeNames(types) == TypeNames(st.catalogTypes)
    requires ToDictionary(BrandNames(brands), BrandIds(brands)) == Some(brandIds)
    requires ToDictionary(TypeNames(types), TypeIds(types)) == Some(typeIds)
    ensures var c := WithIds(st.catalogs[k], brandIds, typeIds);
            && (exists b :: 0 <= b < |brands| && brands[b].Name == c.CatalogBrand.Name && c.CatalogBrandId == brands[b].Id)
            && (exists t :: 0 <= t < |types| && types[t].Name == c.CatalogType.Name && c.CatalogTypeId == types[t].Id)
            && c == st.catalogs[k].(CatalogBrandId := c.CatalogBrandId, CatalogTypeId := c.CatalogTypeId)
  {
    var b :| 0 <= b < |st.catalogBrands| && st.catalogBrands[b] == st.catalogs[k].CatalogBrand;
    assert BrandNames(brands)[b] == brands[b].Name == st.catalogs[k].CatalogBrand.Name;
    assert brandIds[BrandNames(brands)[b]] == BrandIds(brands)[b];
    var t :| 0 <= t < |st.catalogTypes| && st.catalogTypes[t] == st.catalogs[k].CatalogType;
    assert TypeNames(types)[t] == types[t].Name == st.catalogs[k].CatalogType.Name;
    assert typeIds[TypeNames(types)[t]] == TypeIds(types)[t];
  }

  /** The row points at the saved id of a brand with its brand's name. */
  predicate LinkedToSavedBrand(c: Catalog, brands: seq<CatalogBrand>) {
    exists b :: 0 <= b < |brands| && brands[b].Name == c.CatalogBrand.Name && c.CatalogBrandId == brands[b].Id
  }

  /** The row points at the saved id of a type with its type's name. */
  predicate LinkedToSavedType(c: Catalog, types: seq<CatalogType>) {
    exists t :: 0 <= t < |types| && types[t].Name == c.CatalogType.Name && c.CatalogTypeId == types[t].Id
  }

  /** The three tables after seeding, or the seed skipped. */
  datatype SeedOutcome =
    | Skipped
    | Seeded(brands: seq<CatalogBrand>, types: seq<CatalogType>, catalogs: seq<Catalog>)

  /**
   * Lines after the loop: replace the brand and type tables by the new lists, save (the rows
   * receive their generated ids), read both tables back into name-to-id dictionaries and point
   * every new catalog at the saved ids of its brand and type.
   */
  method SaveAndAssign(st: SeedState, now: DateTime, brandIdAt: nat -> int, typeIdAt: nat -> int)
    returns (r: SeedOutcome)
    requires RowsInvariant(st, now)
    ensures r.Seeded?
    ensures r.brands == SaveBrands(st.catalogBrands, brandIdAt) && r.types == SaveTypes(st.catalogTypes, typeIdAt)
    ensures |r.catalogs| == |st.catalogs|
    ensures forall k :: 0 <= k < |r.catalogs| ==>
              r.catalogs[k] == st.catalogs[k].(CatalogBrandId := r.catalogs[k].CatalogBrandId,
                                               CatalogTypeId := r.catalogs[k].CatalogTypeId)
    ensures Distinct(BrandNames(r.brands)) && Distinct(TypeNames(r.types))
    ensures forall k :: 0 <= k < |r.catalogs| ==>
              LinkedToSavedBrand(r.catalogs[k], r.brands) && LinkedToSavedType(r.catalogs[k], r.types)
  {
    var brands := SaveBrands(st.catalogBrands, brandIdAt);
    var types := SaveTypes(st.catalogTypes, typeIdAt);
    var brandDictionary := ToDictionary(BrandNames(brands), BrandIds(brands));
    var typeDictionary := ToDictionary(TypeNames(types), TypeIds(types));
    var catalogs := AssignIds(st.catalogs, brandDictionary.value, typeDictionary.value);
    forall k | 0 <= k < |catalogs|
      ensures LinkedToSavedBrand(catalogs[k], brands) && LinkedToSavedType(catalogs[k], types)
      ensures catalogs[k] == st.catalogs[k].(CatalogBrandId := catalogs[k].CatalogBrandId,
                                             CatalogTypeId := catalogs[k].CatalogTypeId)
    {
      AssignedRowIsSaved(st, now, brands, types, brandDictionary.value, typeDictionary.value, k);
    }
    r := Seeded(brands, types, catalogs);
  }

  /**
   * `SeedAsync`: only an empty catalog table with a readable seed file is seeded; then the
   * tables hold what the loop built, saved and linked by `SaveAndAssign`.
   */
  method SeedAsync(existing: seq<Catalog>, source: Option<seq<CatalogSourceEntry>>, now: DateTime,
                   brandIdAt: nat -> int, typeIdAt: nat -> int)
    returns (r: SeedOutcome)
    ensures r.Skipped? <==> |existing| > 0 || source.None?
    ensures r.Seeded? ==>
              var st := Fold(source.value, now);
              && r.brands == SaveBrands(st.catalogBrands, brandIdAt)
              && r.types == SaveTypes(st.catalogTypes, typeIdAt)
              && |r.catalogs| == |st.catalogs|
              && Distinct(BrandNames(r.brands)) && Distinct(TypeNames(r.types))
              && Distinct(CatalogIds(r.catalogs))
              && |r.catalogs| <= |r.brands| <= |source.value|
              && |r.catalogs| <= |r.types| <= |source.value|
    ensures r.Seeded? ==> forall k :: 0 <= k < |r.catalogs| ==>
              && r.catalogs[k] == Fold(source.value, now).catalogs[k].(CatalogBrandId := r.catalogs[k].CatalogBrandId,
                                                                       CatalogTypeId := r.catalogs[k].CatalogTypeId)
              && LinkedToSavedBrand(r.catalogs[k], r.brands) && LinkedToSavedType(r.catalogs[k], r.types)
  {
    if |existing| > 0 || source.None? {
      return Skipped;
    }
    var st := BuildSeedData(source.value, now);
    FoldKeepsInvariant(source.value, now);
    r := SaveAndAssign(st, now, brandIdAt, typeIdAt);
    assert CatalogIds(r.catalogs) == CatalogIds(st.catalogs);
  }

  /**
   * `SeedAsync` with the intended loop: the same guard, saving and id assignment, but one row
   * for every seedable item whose id is new, and each row points at the saved ids of its brand
   * and type.
   */
  method SeedAsyncIntended(existing: seq<Catalog>, source: Option<seq<CatalogSourceEntry>>, now: DateTime,
                           brandIdAt: nat -> int, typeIdAt: nat -> int)
    returns (r: SeedOutcome)
    ensures r.Skipped? <==> |existing| > 0 || source.None?
    ensures r.Seeded? ==>
              var st := FoldIntended(source.value, now);
              && r.brands == SaveBrands(st.catalogBrands, brandIdAt)
              && r.types == SaveTypes(st.catalogTypes, typeIdAt)
              && |r.catalogs| == |st.catalogs|
              && Distinct(BrandNames(r.brands)) && Distinct(TypeNames(r.types))
              && Distinct(CatalogIds(r.catalogs))
              && (forall x :: x in CatalogIds(r.catalogs) <==> x in SeedableIds(source.value))
    ensures r.Seeded? ==> forall k :: 0 <= k < |r.catalogs| ==>
              && r.catalogs[k] == FoldIntended(source.value, now).catalogs[k].(CatalogBrandId := r.catalogs[k].CatalogBrandId,
                                                                               CatalogTypeId := r.catalogs[k].CatalogTypeId)
              && LinkedToSavedBrand(r.catalogs[k], r.brands) && LinkedToSavedType(r.catalogs[k], r.types)
  {
    if |existing| > 0 || source.None? {
      return Skipped;
    }
    var st := FoldIntended(source.value, now);
    FoldIntendedKeeps(source.value, now);
    IntendedSeedsEverySeedableItem(source.value, now);
    r := SaveAndAssign(st, now, brandIdAt, typeIdAt);
    assert CatalogIds(r.catalogs) == CatalogIds(st.catalogs);
  }
}
