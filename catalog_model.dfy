/** The catalog entities and the paging request/response records. */
module CatalogModel {
  import opened Wrappers
  import opened Int32

  /** Date-times are abstract instants; the seed stamps every row with one "now". */
  type DateTime = int

  /** `decimal` prices are carried, never computed with. */
  type Decimal = real

  /** The audit columns every entity inherits from `BaseEntity`. */
  datatype Audit = Audit(CreatedBy: int, CreatedAt: DateTime, UpdatedBy: int, UpdatedAt: DateTime)

  datatype CatalogBrand = CatalogBrand(Id: int, Name: string, Audit: Audit)

  datatype CatalogType = CatalogType(Id: int, Name: string, Audit: Audit)

  datatype Catalog = Catalog(
    Id: int,
    Name: string,
    Description: Option<string>,
    Price: Decimal,
    PictureFileName: string,
    CatalogTypeId: int,
    CatalogType: CatalogType,
    CatalogBrandId: int,
    CatalogBrand: CatalogBrand,
    AvailableStock: int,
    RestockThreshold: int,
    MaxStockThreshold: int,
    OnReorder: bool,
    Audit: Audit)

  /** `PaginationRequest(PageSize, PageIndex)`. */
  datatype PaginationRequest = PaginationRequest(PageSize: int32, PageIndex: int32)

  const DefaultPageSize: int32 := 10
  const DefaultPageIndex: int32 := 0

  /** The request a client gets when it passes neither query parameter. */
  function DefaultRequest(): (r: PaginationRequest)
    ensures r.PageSize == 10 && r.PageIndex == 0
  {
    PaginationRequest(DefaultPageSize, DefaultPageIndex)
  }

  /** `PaginatedData<T>(pageIndex, pageSize, totalCount, data)`. */
  datatype PaginatedData<T> = PaginatedData(PageIndex: int32, PageSize: int32, TotalCount: int, Data: seq<T>)
}
