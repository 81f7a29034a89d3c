/** The catalogue's wire format for one document, and its mapping to a domain `Book`. */
module SearchResponse {
  import opened Wrappers
  import opened Books

  datatype Meta = Meta(isEnd: bool, pageableCount: int, totalCount: int)

  datatype BookResponseDTO = BookResponseDTO(
    title: string,
    contents: string,
    url: string,
    isbn: string,
    datetime: string,
    authors: seq<string>,
    publisher: string,
    translators: seq<string>,
    price: int,
    salePrice: int,
    thumbnail: string,
    status: string)

  datatype BookSearchResponseDTO = BookSearchResponseDTO(meta: Meta, documents: seq<BookResponseDTO>)

  /**
   * `toDomain()`. ISO-8601 parsing and `URL(string:)` are foreign conversions passed in as
   * `parseDate` and `parseUrl`; `now` is `Date()`, used when the date does not parse.
   */
  function ToDomain(dto: BookResponseDTO, parseDate: string -> Option<Timestamp>,
                    parseUrl: string -> Option<string>, now: Timestamp): (b: Book)
    ensures b.title == dto.title && b.authors == dto.authors
    ensures b.contents == dto.contents && b.publisher == dto.publisher
    ensures b.price == dto.price
    ensures b.salePrice.Some? <==> dto.salePrice > 0
    ensures b.salePrice.Some? ==> b.salePrice.value == dto.salePrice
    ensures b.status == DefaultStatus
    ensures b.publishedDate == parseDate(dto.datetime).GetOr(now)
    ensures b.thumbnail == parseUrl(dto.thumbnail)
  {
    NewBook(dto.title, dto.authors, dto.contents, parseDate(dto.datetime).GetOr(now), dto.publisher,
            dto.price, if dto.salePrice > 0 then Some(dto.salePrice) else None, parseUrl(dto.thumbnail))
  }

  /** The wire `url`, `isbn`, `translators` and `status` have no bearing on the mapped book. */
  lemma IgnoredFields(dto: BookResponseDTO, url: string, isbn: string, translators: seq<string>, status: string,
                      parseDate: string -> Option<Timestamp>, parseUrl: string -> Option<string>, now: Timestamp)
    ensures ToDomain(dto.(url := url, isbn := isbn, translators := translators, status := status), parseDate, parseUrl, now)
         == ToDomain(dto, parseDate, parseUrl, now)
  {
  }

  /** A zero or negative wire sale price means "no discount". */
  lemma NonPositiveSalePriceIsAbsent(dto: BookResponseDTO, parseDate: string -> Option<Timestamp>,
                                     parseUrl: string -> Option<string>, now: Timestamp)
    requires dto.salePrice <= 0
    ensures ToDomain(dto, parseDate, parseUrl, now).salePrice == None
  {
  }
}
