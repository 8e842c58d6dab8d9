/**
 * `CatalogService` of the web front end: the relative URIs it requests from the catalog API.
 * The HTTP calls and the JSON bodies they return are not part of this model.
 */
module CatalogService {
  import opened Wrappers
  import opened Text

  const RemoteServiceBaseUrl := "api/catalog/"

  /** `GetCatalogBrandsAsync` requests this URI. */
  const CatalogBrandsUri := RemoteServiceBaseUrl + "catalogBrands"

  /** `GetCatalogTypesAsync` requests this URI. */
  const CatalogTypesUri := RemoteServiceBaseUrl + "catalogTypes"

  const ItemsPrefix := RemoteServiceBaseUrl + "items"

  /** The arguments of `GetCatalogItemsAsync`. */
  datatype CatalogItemsQuery = CatalogItemsQuery(pageIndex: int, pageSize: int, brandId: Option<int>, typeId: Option<int>)

  /**
   * The filter part: with a type id, `/type/<type>/brand/<brand or nothing>`; with only a brand
   * id, `/type/all/brand/<brand>`; with neither, nothing.
   */
  function FilterSegment(brandId: Option<int>, typeId: Option<int>): string {
    if typeId.Some? then
      var brandQs := if brandId.Some? then IntToString(brandId.value) else "";
      "/type/" + IntToString(typeId.value) + "/brand/" + brandQs
    else if brandId.Some? then
      "/type/all/brand/" + IntToString(brandId.value)
    else ""
  }

  /** The query part, `pageIndex=<i>&pageSize=<s>`. */
  function QueryString(pageIndex: int, pageSize: int): string {
    "pageIndex=" + IntToString(pageIndex) + "&pageSize=" + IntToString(pageSize)
  }

  /** `GetCatalogItemsUri`: `api/catalog/items<filter>?pageIndex=<i>&pageSize=<s>`. */
  function GetCatalogItemsUri(pageIndex: int, pageSize: int, brandId: Option<int>, typeId: Option<int>): (r: string)
    ensures StartsWith(r, ItemsPrefix)
    ensures brandId.None? && typeId.None? ==> r == ItemsPrefix + "?" + QueryString(pageIndex, pageSize)
  {
    ItemsPrefix + FilterSegment(brandId, typeId) + "?" + QueryString(pageIndex, pageSize)
  }

  /** Reads a filter part back into the optional brand and type ids. */
  function ParseFilterSegment(filter: string): Option<(Option<int>, Option<int>)> {
    if filter == "" then Some((None, None))
    else
      var parts := Split(filter, "/");
      if |parts| != 5 || parts[0] != "" || parts[1] != "type" || parts[3] != "brand" then None
      else if parts[2] == "all" then
        match ParseInt(parts[4])
        case None => None
        case Some(b) => Some((Some(b), None))
      else
        match ParseInt(parts[2])
        case None => None
        case Some(t) =>
          if parts[4] == "" then Some((None, Some(t)))
          else
            match ParseInt(parts[4])
            case None => None
            case Some(b) => Some((Some(b), Some(t)))
  }

  /** Reads `pageIndex=<i>&pageSize=<s>` back. */
  function ParseQueryString(query: string): Option<(int, int)> {
    var parts := Split(query, "&");
    if |parts| != 2 || !StartsWith(parts[0], "pageIndex=") || !StartsWith(parts[1], "pageSize=") then None
    else
      match ParseInt(parts[0][|"pageIndex="|..])
      case None => None
      case Some(i) =>
        match ParseInt(parts[1][|"pageSize="|..])
        case None => None
        case Some(s) => Some((i, s))
  }

  /** Reads a catalog items URI back into the request's arguments. */
  function ParseCatalogItemsUri(uri: string): Option<CatalogItemsQuery> {
    if !StartsWith(uri, ItemsPrefix) then None
    else
      var parts := Split(uri[|ItemsPrefix|..], "?");
      if |parts| != 2 then None
      else
        match ParseFilterSegment(parts[0])
        case None => None
        case Some(ids) =>
          match ParseQueryString(parts[1])
          case None => None
          case Some(page) => Some(CatalogItemsQuery(page.0, page.1, ids.0, ids.1))
  }

  /** No separator of the URI occurs in the decimal text of an integer. */
  lemma NoSeparatorInInt(n: int)
    ensures '/' !in IntToString(n) && '?' !in IntToString(n) && '&' !in IntToString(n)
  {
    IntToStringChars(n);
  }

  lemma FilterRoundTrip(brandId: Option<int>, typeId: Option<int>)
    ensures '?' !in FilterSegment(brandId, typeId)
    ensures ParseFilterSegment(FilterSegment(brandId, typeId)) == Some((brandId, typeId))
  {
    if typeId.Some? {
      FilterWithTypeRoundTrip(brandId, typeId.value);
    } else if brandId.Some? {
      FilterWithBrandRoundTrip(brandId.value);
    }
  }

  lemma FilterWithTypeRoundTrip(brandId: Option<int>, typeId: int)
    ensures '?' !in FilterSegment(brandId, Some(typeId))
    ensures ParseFilterSegment(FilterSegment(brandId, Some(typeId))) == Some((brandId, Some(typeId)))
  {
    var t := IntToString(typeId);
    var b := if brandId.Some? then IntToString(brandId.value) else "";
    var filter := FilterSegment(brandId, Some(typeId));
    assert filter == "/type/" + t + "/brand/" + b;
    NoSeparatorInInt(typeId);
    ParseIntToString(typeId);
    if brandId.Some? {
      NoSeparatorInInt(brandId.value);
      ParseIntToString(brandId.value);
    }
    FilterPieces(t, b);
    FilterNoQuery(t, b);
    IntToStringChars(typeId);
    assert t[0] == '-' || IsDigit(t[0]);
    ParseTypeFilter(filter, t, b, brandId, typeId);
  }

  /** A type filter split into its five pieces reads back the type and the brand, if any. */
  lemma ParseTypeFilter(filter: string, t: string, b: string, brandId: Option<int>, typeId: int)
    requires filter != "" && Split(filter, "/") == ["", "type", t, "brand", b]
    requires |t| > 0 && t[0] != 'a' && ParseInt(t) == Some(typeId)
    requires brandId.None? ==> b == ""
    requires brandId.Some? ==> ParseInt(b) == brandId
    ensures ParseFilterSegment(filter) == Some((brandId, Some(typeId)))
  {
    assert t != "all";
    assert ParseInt("") == None;
  }

  lemma FilterWithBrandRoundTrip(brandId: int)
    ensures '?' !in FilterSegment(Some(brandId), None)
    ensures ParseFilterSegment(FilterSegment(Some(brandId), None)) == Some((Some(brandId), None))
  {
    var b := IntToString(brandId);
    NoSeparatorInInt(brandId);
    ParseIntToString(brandId);
    AllTypesFilter(b);
    FilterPieces("all", b);
    FilterNoQuery("all", b);
  }

  /** The brand-only filter is the general filter with `all` for the type. */
  lemma AllTypesFilter(b: string)
    ensures "/type/all/brand/" + b == "/type/" + "all" + "/brand/" + b
  {
  }

  /** `/type/<t>/brand/<b>` splits on `/` into its five pieces. */
  lemma FilterPieces(t: string, b: string)
    requires '/' !in t && '/' !in b
    ensures Split("/type/" + t + "/brand/" + b, "/") == ["", "type", t, "brand", b]
  {
    FilterNested(t, b);
    SplitFive("", "type", t, "brand", b, '/');
  }

  /** The filter text with its separators written out, nested to the right. */
  lemma FilterNested(t: string, b: string)
    ensures "/type/" + t + "/brand/" + b == "" + ['/'] + ("type" + ['/'] + (t + ['/'] + ("brand" + ['/'] + b)))
    ensures "/" == ['/']
  {
  }

  /** The filter part holds no `?` when its ids do not. */
  lemma FilterNoQuery(t: string, b: string)
    requires '?' !in t && '?' !in b
    ensures '?' !in "/type/" + t + "/brand/" + b
  {
  }

  /** The query part splits on `&` into its two assignments, and holds no `?`. */
  lemma QueryPieces(pageIndex: int, pageSize: int)
    ensures Split(QueryString(pageIndex, pageSize), "&")
            == ["pageIndex=" + IntToString(pageIndex), "pageSize=" + IntToString(pageSize)]
    ensures '?' !in QueryString(pageIndex, pageSize)
  {
    var a := "pageIndex=" + IntToString(pageIndex);
    var b := "pageSize=" + IntToString(pageSize);
    NoSeparatorInInt(pageIndex);
    NoSeparatorInInt(pageSize);
    QueryNested(IntToString(pageIndex), IntToString(pageSize));
    SplitAtFirst(a, '&', b);
    SplitAbsent(b, '&');
  }

  /** The query text with its `&` written out, and the separators it holds. */
  lemma QueryNested(i: string, s: string)
    requires '&' !in i && '&' !in s && '?' !in i && '?' !in s
    ensures "pageIndex=" + i + "&pageSize=" + s == ("pageIndex=" + i) + ['&'] + ("pageSize=" + s)
    ensures "&" == ['&']
    ensures '&' !in "pageIndex=" + i && '&' !in "pageSize=" + s
    ensures '?' !in "pageIndex=" + i + "&pageSize=" + s
  {
  }

  lemma QueryRoundTrip(pageIndex: int, pageSize: int)
    ensures ParseQueryString(QueryString(pageIndex, pageSize)) == Some((pageIndex, pageSize))
    ensures '?' !in QueryString(pageIndex, pageSize)
  {
    QueryPieces(pageIndex, pageSize);
    var a := "pageIndex=" + IntToString(pageIndex);
    var b := "pageSize=" + IntToString(pageSize);
    assert StartsWith(a, "pageIndex=") && a[|"pageIndex="|..] == IntToString(pageIndex);
    assert StartsWith(b, "pageSize=") && b[|"pageSize="|..] == IntToString(pageSize);
    ParseIntToString(pageIndex);
    ParseIntToString(pageSize);
  }

  /** Every catalog items URI reads back as the arguments that made it, so different requests get different URIs. */
  lemma ItemsUriRoundTrip(pageIndex: int, pageSize: int, brandId: Option<int>, typeId: Option<int>)
    ensures ParseCatalogItemsUri(GetCatalogItemsUri(pageIndex, pageSize, brandId, typeId))
            == Some(CatalogItemsQuery(pageIndex, pageSize, brandId, typeId))
  {
    var f := FilterSegment(brandId, typeId);
    var q := QueryString(pageIndex, pageSize);
    FilterRoundTrip(brandId, typeId);
    QueryRoundTrip(pageIndex, pageSize);
    UriNested(f, q);
    SplitAtFirst(f, '?', q);
    SplitAbsent(q, '?');
  }

  /** After the prefix, the URI is the filter part, a `?` and the query part. */
  lemma UriNested(f: string, q: string)
    ensures (ItemsPrefix + f + "?" + q)[|ItemsPrefix|..] == f + ['?'] + q
    ensures StartsWith(ItemsPrefix + f + "?" + q, ItemsPrefix)
    ensures "?" == ['?']
  {
    var u := ItemsPrefix + f + "?" + q;
    assert u[..|ItemsPrefix|] == ItemsPrefix;
  }

  lemma ItemsUriInjective(a: CatalogItemsQuery, b: CatalogItemsQuery)
    requires GetCatalogItemsUri(a.pageIndex, a.pageSize, a.brandId, a.typeId)
             == GetCatalogItemsUri(b.pageIndex, b.pageSize, b.brandId, b.typeId)
    ensures a == b
  {
    ItemsUriRoundTrip(a.pageIndex, a.pageSize, a.brandId, a.typeId);
    ItemsUriRoundTrip(b.pageIndex, b.pageSize, b.brandId, b.typeId);
  }
}
