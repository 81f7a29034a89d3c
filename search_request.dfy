/** The query parameters sent to the catalogue search endpoint. */
module SearchRequest {
  import opened Wrappers

  /** Result ordering; the raw value is what goes on the wire. */
  datatype SearchSort = Accuracy | Latest

  /** Which field the query is matched against. */
  datatype Target = Title | Isbn | Publisher | Person

  function SortRawValue(s: SearchSort): string {
    match s
    case Accuracy => "accuracy"
    case Latest => "latest"
  }

  /** `SearchSort(rawValue:)`. */
  function SortFromRawValue(raw: string): Option<SearchSort> {
    if raw == "accuracy" then Some(Accuracy)
    else if raw == "latest" then Some(Latest)
    else None
  }

  function TargetRawValue(t: Target): string {
    match t
    case Title => "title"
    case Isbn => "isbn"
    case Publisher => "publisher"
    case Person => "person"
  }

  /** `Target(rawValue:)`. */
  function TargetFromRawValue(raw: string): Option<Target> {
    if raw == "title" then Some(Title)
    else if raw == "isbn" then Some(Isbn)
    else if raw == "publisher" then Some(Publisher)
    else if raw == "person" then Some(Person)
    else None
  }

  /** Raw values are the lower-case case names, and decoding a raw value recovers its case. */
  lemma SortRawValues(s: SearchSort)
    ensures SortRawValue(Accuracy) == "accuracy" && SortRawValue(Latest) == "latest"
    ensures SortFromRawValue(SortRawValue(s)) == Some(s)
  {
  }

  /** Raw values are the lower-case case names, and decoding a raw value recovers its case. */
  lemma TargetRawValues(t: Target)
    ensures TargetRawValue(Title) == "title" && TargetRawValue(Isbn) == "isbn"
    ensures TargetRawValue(Publisher) == "publisher" && TargetRawValue(Person) == "person"
    ensures TargetFromRawValue(TargetRawValue(t)) == Some(t)
  {
  }

  /** A decoded raw value is the raw value of what it decodes to. */
  lemma RawValuesInverse(raw: string)
    ensures SortFromRawValue(raw).Some? ==> SortRawValue(SortFromRawValue(raw).value) == raw
    ensures TargetFromRawValue(raw).Some? ==> TargetRawValue(TargetFromRawValue(raw).value) == raw
  {
  }

  const PageSize: int := 20

  /** `BookSearchRequestDTO`: only `query` and `page` are settable; the rest are fixed `let` defaults. */
  datatype BookSearchRequestDTO = BookSearchRequestDTO(
    query: string, page: int, sort: Option<SearchSort>, size: int, target: Target)

  /** The memberwise initialiser, which takes only `query` and `page`. */
  function MakeRequest(query: string, page: int): (r: BookSearchRequestDTO)
    ensures r.query == query && r.page == page
    ensures r.sort == Some(Accuracy) && r.size == PageSize && r.target == Title
  {
    BookSearchRequestDTO(query, page, Some(Accuracy), PageSize, Title)
  }

  /** The fixed parameters do not depend on what the request was built from. */
  lemma FixedParametersIgnoreInputs(q1: string, p1: int, q2: string, p2: int)
    ensures MakeRequest(q1, p1).(query := q2, page := p2) == MakeRequest(q2, p2)
  {
  }
}
