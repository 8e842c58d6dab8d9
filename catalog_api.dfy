/**
 * `CatalogApi`: the catalog endpoints. The `Catalogs` table is a sequence of rows in storage
 * order; an endpoint is a query over it, and its typed HTTP result is a datatype.
 */
module CatalogApi {
  import opened Wrappers
  import opened Int32
  import opened Text
  import opened CatalogModel
  import opened FilterBuilder
  import opened CatalogFilterBuilder

  /* ---------- GET api/catalog/{id} ---------- */

  /** `Results<Ok<Catalog>, NotFound, BadRequest<ProblemDetails>>`. */
  datatype CatalogByIdResult = Ok(catalog: Catalog) | NotFound | BadRequest(detail: string)

  /** The problem detail sent back for an id that is not positive. */
  const InvalidIdDetail := "目录id无效"

  /** `FirstOrDefault(catalog => catalog.Id == id)`: the index of the first row with that id. */
  function FirstWithId(catalogs: seq<Catalog>, id: int): (r: Option<nat>)
    ensures r.Some? ==> r.value < |catalogs| && catalogs[r.value].Id == id
    ensures r.Some? ==> forall k :: 0 <= k < r.value ==> catalogs[k].Id != id
    ensures r.None? <==> forall k :: 0 <= k < |catalogs| ==> catalogs[k].Id != id
  {
    if |catalogs| == 0 then None
    else if catalogs[0].Id == id then Some(0)
    else
      match FirstWithId(catalogs[1..], id)
      case None => None
      case Some(k) => Some(k + 1)
  }

  /**
   * `GetCatalogByIdAsync`: a non-positive id is a bad request; otherwise the first row with the
   * id, or not found.
   */
  function GetCatalogById(catalogs: seq<Catalog>, id: int): (r: CatalogByIdResult)
    ensures r.BadRequest? <==> id <= 0
    ensures r.BadRequest? ==> r.detail == InvalidIdDetail
    ensures r.NotFound? <==> id > 0 && forall k :: 0 <= k < |catalogs| ==> catalogs[k].Id != id
    ensures r.Ok? ==> r.catalog in catalogs && r.catalog.Id == id
    ensures r.Ok? ==> exists k :: 0 <= k < |catalogs| && catalogs[k] == r.catalog &&
                                  forall j :: 0 <= j < k ==> catalogs[j].Id != id
  {
    if id <= 0 then BadRequest(InvalidIdDetail)
    else
      match FirstWithId(catalogs, id)
      case None => NotFound
      case Some(k) => Ok(catalogs[k])
  }

  /* ---------- filtering, ordering and paging ---------- */

  /** `Where(p)`: the elements that satisfy `p`, in their original order. */
  function Where(s: seq<Catalog>, p: Catalog -> bool): (r: seq<Catalog>)
    ensures |r| <= |s|
    ensures forall k :: 0 <= k < |r| ==> p(r[k])
    ensures forall x :: x in r <==> x in s && p(x)
  {
    if |s| == 0 then []
    else
      var rest := Where(s[..|s| - 1], p);
      assert s == s[..|s| - 1] + [s[|s| - 1]];
      if p(s[|s| - 1]) then rest + [s[|s| - 1]] else rest
  }

  /** `Where` keeps every satisfying element as often as it occurs, and no other. */
  lemma {:induction false} WhereCounts(s: seq<Catalog>, p: Catalog -> bool, x: Catalog)
    ensures multiset(Where(s, p))[x] == if p(x) then multiset(s)[x] else 0
  {
    if |s| > 0 {
      var init := s[..|s| - 1];
      WhereCounts(init, p, x);
      assert s == init + [s[|s| - 1]];
    }
  }

  /** Two predicates that agree on every element select the same elements. */
  lemma {:induction false} WhereExt(s: seq<Catalog>, p: Catalog -> bool, q: Catalog -> bool)
    requires forall x :: p(x) == q(x)
    ensures Where(s, p) == Where(s, q)
  {
    if |s| > 0 {
      WhereExt(s[..|s| - 1], p, q);
    }
  }

  /** The compiled builder expression, as a predicate on catalogs. */
  function ExprMatcher(cond: Expr<CatalogCondition>): Catalog -> bool {
    c => Eval(cond, HoldsOn(c))
  }

  /** The catalogs the optional type and brand ids select. */
  function IdMatcher(typeId: Option<int>, brandId: Option<int>): Catalog -> bool {
    c => MatchesIds(c, typeId, brandId)
  }

  /** The rows are in ordinal order of their names. */
  predicate SortedByName(s: seq<Catalog>) {
    forall i, j :: 0 <= i < j < |s| ==> OrdinalLessOrEqual(s[i].Name, s[j].Name)
  }

  lemma SortedByNameCons(x: Catalog, t: seq<Catalog>)
    requires SortedByName(t)
    requires forall k :: 0 <= k < |t| ==> OrdinalLessOrEqual(x.Name, t[k].Name)
    ensures SortedByName([x] + t)
  {
    var r := [x] + t;
    forall i, j | 0 <= i < j < |r| ensures OrdinalLessOrEqual(r[i].Name, r[j].Name) {
      assert r[j] == t[j - 1];
      if i > 0 {
        assert r[i] == t[i - 1];
      }
    }
  }

  /** The step case of the insertion: `s[0]` goes in front of `e` inserted into the rest. */
  lemma InsertByNameStep(e: Catalog, s: seq<Catalog>, tail: seq<Catalog>)
    requires |s| > 0 && SortedByName(s) && !OrdinalLessOrEqual(e.Name, s[0].Name)
    requires SortedByName(tail)
    requires multiset(tail) == multiset(s[1..]) + multiset{e}
    ensures SortedByName([s[0]] + tail)
    ensures multiset([s[0]] + tail) == multiset(s) + multiset{e}
  {
    assert s == [s[0]] + s[1..];
    OrdinalTotal(e.Name, s[0].Name);
    forall k | 0 <= k < |tail| ensures OrdinalLessOrEqual(s[0].Name, tail[k].Name) {
      assert tail[k] in multiset(tail);
      if tail[k] != e {
        assert tail[k] in multiset(s[1..]);
        var j :| 0 <= j < |s[1..]| && s[1..][j] == tail[k];
        assert s[j + 1] == tail[k];
      }
    }
    SortedByNameCons(s[0], tail);
  }

  /** Places `e` before the first row whose name it does not exceed. */
  function InsertByName(e: Catalog, s: seq<Catalog>): (r: seq<Catalog>)
    requires SortedByName(s)
    ensures SortedByName(r)
    ensures multiset(r) == multiset(s) + multiset{e}
  {
    if |s| == 0 || OrdinalLessOrEqual(e.Name, s[0].Name) then
      forall k | 0 <= k < |s| ensures OrdinalLessOrEqual(e.Name, s[k].Name) {
        if k > 0 {
          OrdinalTransitive(e.Name, s[0].Name, s[k].Name);
        }
      }
      SortedByNameCons(e, s);
      [e] + s
    else
      var tail := InsertByName(e, s[1..]);
      InsertByNameStep(e, s, tail);
      [s[0]] + tail
  }

  /** `OrderBy(catalog => catalog.Name)`: the same rows, by name; equal names keep their order. */
  function OrderByName(s: seq<Catalog>): (r: seq<Catalog>)
    ensures SortedByName(r)
    ensures multiset(r) == multiset(s)
  {
    if |s| == 0 then []
    else
      assert s == [s[0]] + s[1..];
      InsertByName(s[0], OrderByName(s[1..]))
  }

  /** `Skip(n)`: everything from position `n` on; a count that is not positive skips nothing. */
  function Skip<T>(s: seq<T>, n: int): (r: seq<T>)
    ensures n <= 0 ==> r == s
    ensures n >= |s| ==> r == []
    ensures 0 <= n <= |s| ==> |r| == |s| - n && forall k :: 0 <= k < |r| ==> r[k] == s[n + k]
  {
    if n <= 0 then s else if n >= |s| then [] else s[n..]
  }

  /** `Take(n)`: the first `n` elements, or all of them; a count that is not positive takes none. */
  function Take<T>(s: seq<T>, n: int): (r: seq<T>)
    ensures n <= 0 ==> r == []
    ensures n >= |s| ==> r == s
    ensures 0 <= n <= |s| ==> |r| == n && forall k :: 0 <= k < n ==> r[k] == s[k]
  {
    if n <= 0 then [] else if n >= |s| then s else s[..n]
  }

  /** `Skip(PageSize * PageIndex).Take(PageSize)`, the product taken in 32-bit arithmetic. */
  function Page<T>(s: seq<T>, request: PaginationRequest): seq<T> {
    Take(Skip(s, Mul(request.PageSize, request.PageIndex) as int), request.PageSize as int)
  }

  /**
   * A request whose offset fits in 32 bits gets exactly the rows between `PageSize * PageIndex`
   * and the next page's start, cut at the end of the sequence.
   */
  lemma PageIsSlice<T>(s: seq<T>, request: PaginationRequest)
    requires 0 <= request.PageSize as int && 0 <= request.PageIndex as int
    requires request.PageSize as int * request.PageIndex as int <= MaxValue
    ensures var lo := Min(request.PageSize as int * request.PageIndex as int, |s|);
            var hi := Min(lo + request.PageSize as int, |s|);
            Page(s, request) == s[lo..hi]
  {
    var size, index := request.PageSize as int, request.PageIndex as int;
    assert 0 <= size * index by {
      MulNonNegative(size, index);
    }
    assert Mul(request.PageSize, request.PageIndex) as int == size * index;
  }

  lemma MulNonNegative(a: int, b: int)
    requires 0 <= a && 0 <= b
    ensures 0 <= a * b
  {
  }

  function Min(a: int, b: int): int {
    if a <= b then a else b
  }

  /**
   * The offset wraps: 65536 rows per page at page 65536 multiply to 2^32, which is 0 in 32 bits,
   * so that request is answered with the first page instead of an empty one.
   */
  lemma PageOffsetWraps<T>(s: seq<T>)
    requires |s| > 0
    ensures Page(s, PaginationRequest(65536, 65536)) == Take(s, 65536)
    ensures |Page(s, PaginationRequest(65536, 65536))| > 0
  {
    assert Mul(65536, 65536) == 0;
  }

  /**
   * `GetCatalogByConditionAsync` over an accepting predicate: the selected rows are counted,
   * ordered by name and paged; the response echoes the request.
   */
  function Query(catalogs: seq<Catalog>, request: PaginationRequest, accepts: Catalog -> bool): PaginatedData<Catalog> {
    var selected := Where(catalogs, accepts);
    PaginatedData(request.PageIndex, request.PageSize, |selected|, Page(OrderByName(selected), request))
  }

  /** Where a page starts: the 32-bit offset, cut to the range of the sequence. */
  function PageStart(length: nat, request: PaginationRequest): (r: nat)
    ensures r <= length
  {
    var off := Mul(request.PageSize, request.PageIndex) as int;
    if off <= 0 then 0 else if off >= length then length else off
  }

  /** A page is a window of the sequence, no longer than the page size. */
  lemma PageWindow<T>(s: seq<T>, request: PaginationRequest)
    ensures PageStart(|s|, request) + |Page(s, request)| <= |s|
    ensures Page(s, request) == s[PageStart(|s|, request)..PageStart(|s|, request) + |Page(s, request)|]
    ensures |Page(s, request)| <= if request.PageSize < 0 then 0 else request.PageSize as int
  {
  }

  /** A window of rows in name order is in name order. */
  lemma SortedWindow(s: seq<Catalog>, lo: nat, hi: nat)
    requires lo <= hi <= |s| && SortedByName(s)
    ensures SortedByName(s[lo..hi])
  {
    forall i, j | 0 <= i < j < hi - lo ensures OrdinalLessOrEqual(s[lo..hi][i].Name, s[lo..hi][j].Name) {
      assert s[lo..hi][i] == s[lo + i] && s[lo..hi][j] == s[lo + j];
    }
  }

  /** A page of rows put in name order is in name order, no longer than the rows or the page size, and holds only those rows. */
  lemma PageOfOrdered(selected: seq<Catalog>, request: PaginationRequest)
    ensures var page := Page(OrderByName(selected), request);
            && SortedByName(page)
            && |page| <= |selected|
            && |page| <= (if request.PageSize < 0 then 0 else request.PageSize as int)
            && forall k :: 0 <= k < |page| ==> page[k] in selected
  {
    var ordered := OrderByName(selected);
    assert |ordered| == |selected| by {
      assert |multiset(ordered)| == |multiset(selected)|;
    }
    PageWindow(ordered, request);
    PageSorted(ordered, request);
    PageMembers(ordered, selected, request);
  }

  /** A page of a name-ordered sequence is name-ordered. */
  lemma PageSorted(ordered: seq<Catalog>, request: PaginationRequest)
    requires SortedByName(ordered)
    ensures SortedByName(Page(ordered, request))
  {
    PageWindow(ordered, request);
    var lo := PageStart(|ordered|, request);
    SortedWindow(ordered, lo, lo + |Page(ordered, request)|);
  }

  /** A page holds only rows of the sequence it is cut from, and so of any permutation of it. */
  lemma PageMembers<T>(ordered: seq<T>, selected: seq<T>, request: PaginationRequest)
    requires multiset(ordered) == multiset(selected)
    ensures forall k :: 0 <= k < |Page(ordered, request)| ==> Page(ordered, request)[k] in selected
  {
    var page := Page(ordered, request);
    PageWindow(ordered, request);
    var lo := PageStart(|ordered|, request);
    forall k | 0 <= k < |page| ensures page[k] in selected {
      assert page[k] == ordered[lo + k];
      assert page[k] in multiset(ordered);
    }
  }

  /**
   * What a page response holds: the request's index and size, the number of accepted rows,
   * and at most `PageSize` accepted rows of the table, in name order.
   */
  lemma QueryMeaning(catalogs: seq<Catalog>, request: PaginationRequest, accepts: Catalog -> bool)
    ensures var r := Query(catalogs, request, accepts);
            && r.PageIndex == request.PageIndex && r.PageSize == request.PageSize
            && r.TotalCount == |multiset(Where(catalogs, accepts))|
            && (forall k :: 0 <= k < |r.Data| ==> accepts(r.Data[k]) && r.Data[k] in catalogs)
            && SortedByName(r.Data)
            && |r.Data| <= r.TotalCount
            && |r.Data| <= if request.PageSize < 0 then 0 else request.PageSize as int
  {
    var selected := Where(catalogs, accepts);
    PageOfOrdered(selected, request);
    var page := Page(OrderByName(selected), request);
    forall k | 0 <= k < |page| ensures accepts(page[k]) && page[k] in catalogs {
      assert page[k] in selected;
    }
  }

  /** A predicate that accepts every row counts the whole table and pages all of it by name. */
  lemma QueryAcceptingAll(catalogs: seq<Catalog>, request: PaginationRequest, accepts: Catalog -> bool)
    requires forall c :: accepts(c)
    ensures Query(catalogs, request, accepts).TotalCount == |catalogs|
    ensures Query(catalogs, request, accepts).Data == Page(OrderByName(catalogs), request)
  {
    assert Where(catalogs, accepts) == catalogs by {
      WhereAll(catalogs, accepts);
    }
  }

  lemma {:induction false} WhereAll(s: seq<Catalog>, p: Catalog -> bool)
    requires forall x :: p(x)
    ensures Where(s, p) == s
  {
    if |s| > 0 {
      WhereAll(s[..|s| - 1], p);
      assert s == s[..|s| - 1] + [s[|s| - 1]];
    }
  }

  /**
   * `GetCatalogByConditionAsync(context, request, typeId, brandId)`: builds the condition with
   * the catalog filter builder and answers the page of matching rows.
   */
  method GetCatalogByConditionAsync(catalogs: seq<Catalog>, request: PaginationRequest,
                                    typeId: Option<int>, brandId: Option<int>)
    returns (r: PaginatedData<Catalog>)
    ensures r == Query(catalogs, request, IdMatcher(typeId, brandId))
  {
    var condition := BuildCondition(typeId, brandId);
    WhereExt(catalogs, ExprMatcher(condition), IdMatcher(typeId, brandId));
    r := Query(catalogs, request, ExprMatcher(condition));
  }

  /** `GET api/catalog/paging`: every row is counted and paged. */
  method GetPaginatedCatalogAsync(catalogs: seq<Catalog>, request: PaginationRequest)
    returns (r: PaginatedData<Catalog>)
    ensures r.TotalCount == |catalogs|
    ensures r.Data == Page(OrderByName(catalogs), request)
    ensures r.PageIndex == request.PageIndex && r.PageSize == request.PageSize
  {
    r := GetCatalogByConditionAsync(catalogs, request, None, None);
    QueryAcceptingAll(catalogs, request, IdMatcher(None, None));
  }

  /** `GET api/catalog/paging/type/{typeId}`. */
  method GetPaginatedCatalogByTypeIdAsync(catalogs: seq<Catalog>, request: PaginationRequest, typeId: int)
    returns (r: PaginatedData<Catalog>)
    ensures r == Query(catalogs, request, IdMatcher(Some(typeId), None))
    ensures forall k :: 0 <= k < |r.Data| ==> r.Data[k].CatalogTypeId == typeId && r.Data[k] in catalogs
  {
    r := GetCatalogByConditionAsync(catalogs, request, Some(typeId), None);
    QueryMeaning(catalogs, request, IdMatcher(Some(typeId), None));
  }

  /** `GET api/catalog/paging/brand/{brandId}`. */
  method GetPaginatedCatalogByBrandIdAsync(catalogs: seq<Catalog>, request: PaginationRequest, brandId: int)
    returns (r: PaginatedData<Catalog>)
    ensures r == Query(catalogs, request, IdMatcher(None, Some(brandId)))
    ensures forall k :: 0 <= k < |r.Data| ==> r.Data[k].CatalogBrandId == brandId && r.Data[k] in catalogs
  {
    r := GetCatalogByConditionAsync(catalogs, request, None, Some(brandId));
    QueryMeaning(catalogs, request, IdMatcher(None, Some(brandId)));
  }

  /** `GET api/catalog/paging/type/{typeId}/brand/{brandId}`. */
  method GetPaginatedCatalogByTypeIdAndBrandIdAsync(catalogs: seq<Catalog>, request: PaginationRequest,
                                                    typeId: int, brandId: int)
    returns (r: PaginatedData<Catalog>)
    ensures r == Query(catalogs, request, IdMatcher(Some(typeId), Some(brandId)))
    ensures forall k :: 0 <= k < |r.Data| ==>
              r.Data[k].CatalogTypeId == typeId && r.Data[k].CatalogBrandId == brandId && r.Data[k] in catalogs
  {
    r := GetCatalogByConditionAsync(catalogs, request, Some(typeId), Some(brandId));
    QueryMeaning(catalogs, request, IdMatcher(Some(typeId), Some(brandId)));
  }

  /* ---------- GET api/catalog/{id}/pic ---------- */

  /** The content types of the image extensions the endpoint knows. */
  const ImageMimeTypes: map<string, string> := map[
    ".png" := "image/png", ".jpg" := "image/jpeg", ".jpeg" := "image/jpeg", ".gif" := "image/gif",
    ".tiff" := "image/tiff", ".bmp" := "image/bmp", ".wmf" := "image/wmf", ".jp2" := "image/jp2",
    ".svg" := "image/svg+xml", ".webp" := "image/webp"]

  const OctetStream := "application/octet-stream"

  /** `GetImageMimeTypeFromImageFileExtension`: a known extension's type, else a byte stream. */
  function GetImageMimeType(extension: string): (r: string)
    ensures extension in ImageMimeTypes ==> r == ImageMimeTypes[extension]
    ensures extension !in ImageMimeTypes ==> r == OctetStream
  {
    match extension
    case ".png" => "image/png"
    case ".jpg" => "image/jpeg"
    case ".jpeg" => "image/jpeg"
    case ".gif" => "image/gif"
    case ".tiff" => "image/tiff"
    case ".bmp" => "image/bmp"
    case ".wmf" => "image/wmf"
    case ".jp2" => "image/jp2"
    case ".svg" => "image/svg+xml"
    case ".webp" => "image/webp"
    case _ => OctetStream
  }

  /** Only the two JPEG spellings map to `image/jpeg`; the match is case-sensitive. */
  lemma MimeTypeCases(extension: string)
    ensures GetImageMimeType(extension) == "image/jpeg" <==> extension == ".jpg" || extension == ".jpeg"
    ensures GetImageMimeType(".PNG") == OctetStream && GetImageMimeType("") == OctetStream
  {
    assert ".PNG" !in ImageMimeTypes;
    assert "" !in ImageMimeTypes;
  }

  /**
   * `Path.GetExtension`: from the last `.` of the file name to its end, or empty when the name
   * has no `.` after its last `/`, or ends in the `.`.
   */
  function GetExtension(path: string): (r: string)
    ensures r == [] || (|r| >= 2 && r[0] == '.' && EndsWith(path, r) && '.' !in r[1..] && '/' !in r)
    ensures '.' !in path ==> r == []
  {
    if |path| == 0 then []
    else if path[|path| - 1] == '/' then []
    else if path[|path| - 1] == '.' then []
    else ExtensionFrom(path, |path| - 1)
  }

  /** The extension that begins at the last `.` before position `i`, where `path[i..]` has none. */
  function ExtensionFrom(path: string, i: nat): (r: string)
    requires i < |path| && '.' !in path[i..] && '/' !in path[i..]
    ensures r == [] || (|r| >= 2 && r[0] == '.' && EndsWith(path, r) && '.' !in r[1..] && '/' !in r)
    ensures '.' !in path ==> r == []
    decreases i
  {
    if i == 0 then []
    else
      var c := path[i - 1];
      assert path[i - 1..] == [c] + path[i..];
      if c == '.' then path[i - 1..]
      else if c == '/' then []
      else ExtensionFrom(path, i - 1)
  }

  lemma {:induction false} ExtensionFromDot(path: string, i: nat, d: nat)
    requires d < i < |path| && path[d] == '.'
    requires '.' !in path[d + 1..] && '/' !in path[d + 1..]
    ensures '.' !in path[i..] && '/' !in path[i..]
    ensures ExtensionFrom(path, i) == path[d..]
    decreases i
  {
    assert path[i..] == path[d + 1..][i - d - 1..];
    if i - 1 > d {
      assert path[i - 1] in path[d + 1..];
      ExtensionFromDot(path, i - 1, d);
    }
  }

  /** A name whose last `.` is followed by something other than `/` has the extension from there. */
  lemma ExtensionOfLastDot(path: string, d: nat)
    requires d + 1 < |path| && path[d] == '.'
    requires '.' !in path[d + 1..] && '/' !in path[d + 1..]
    ensures GetExtension(path) == path[d..]
  {
    assert path[|path| - 1] in path[d + 1..];
    ExtensionFromDot(path, |path| - 1, d);
  }

  /** `Results<PhysicalFileHttpResult, NotFound>`: a file is named by its path segments. */
  datatype PictureResult = PhysicalFile(path: seq<string>, contentType: string, lastModified: DateTime) | PictureNotFound

  /**
   * `GetCatalogPictureByIdAsync`: the picture file of the row with that id under the content
   * root's `pics` directory, typed by its extension; no such row is not found. The file's
   * modification time is the `lastWriteTime` parameter.
   */
  function GetCatalogPictureById(catalogs: seq<Catalog>, contentRoot: string, id: int,
                                 lastWriteTime: seq<string> -> DateTime): (r: PictureResult)
    ensures r.PictureNotFound? <==> forall k :: 0 <= k < |catalogs| ==> catalogs[k].Id != id
    ensures r.PhysicalFile? ==>
              exists k :: (0 <= k < |catalogs| && catalogs[k].Id == id &&
                           r.path == [contentRoot, "pics", catalogs[k].PictureFileName] &&
                           r.contentType == GetImageMimeType(GetExtension(catalogs[k].PictureFileName)))
  {
    match FirstWithId(catalogs, id)
    case None => PictureNotFound
    case Some(k) =>
      var path := [contentRoot, "pics", catalogs[k].PictureFileName];
      PhysicalFile(path, GetImageMimeType(GetExtension(catalogs[k].PictureFileName)), lastWriteTime(path))
  }

  /** A seeded picture `"<Id>.webp"` is served as `image/webp`. */
  lemma WebpPictureType(id: int)
    ensures GetImageMimeType(GetExtension(IntToString(id) + ".webp")) == "image/webp"
  {
    var name := IntToString(id) + ".webp";
    assert '.' !in IntToString(id) && '/' !in IntToString(id) by {
      IntToStringChars(id);
    }
    assert GetExtension(name) == ".webp" by {
      assert name[|name| - 5..] == ".webp";
      ExtensionOfLastDot(name, |name| - 5);
    }
  }
}
