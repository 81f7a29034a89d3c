/** The domain `Book` value and the fixture catalogue used by previews and mocks. */
module Books {
  import opened Wrappers

  /** A point in time, as whole seconds since 1970-01-01T00:00:00Z. */
  type Timestamp = nat

  /** The status given to a book when none is passed. */
  const DefaultStatus: string := "정상판매"

  /**
   * A book. Every field is immutable and equality is over all nine of them.
   * `thumbnail` is the cover URL, kept as its absolute string.
   */
  datatype Book = Book(
    title: string,
    authors: seq<string>,
    contents: string,
    publishedDate: Timestamp,
    publisher: string,
    price: int,
    salePrice: Option<int>,
    thumbnail: Option<string>,
    status: string)

  /** A page of search results and whether it is the last one. */
  datatype BookSearchResult = BookSearchResult(books: seq<Book>, isEnd: bool)

  /** The initialiser called without its `status` argument. */
  function NewBook(title: string, authors: seq<string>, contents: string, publishedDate: Timestamp,
                   publisher: string, price: int, salePrice: Option<int>, thumbnail: Option<string>): (b: Book)
    ensures b.status == DefaultStatus
    ensures b.title == title && b.authors == authors && b.contents == contents
    ensures b.publishedDate == publishedDate && b.publisher == publisher
    ensures b.price == price && b.salePrice == salePrice && b.thumbnail == thumbnail
  {
    Book(title, authors, contents, publishedDate, publisher, price, salePrice, thumbnail, DefaultStatus)
  }

  /** Two books are equal exactly when all nine fields are. */
  lemma EqualIffFieldsEqual(a: Book, b: Book)
    ensures a == b <==>
      && a.title == b.title && a.authors == b.authors && a.contents == b.contents
      && a.publishedDate == b.publishedDate && a.publisher == b.publisher && a.price == b.price
      && a.salePrice == b.salePrice && a.thumbnail == b.thumbnail && a.status == b.status
  {
  }

  /** The thumbnail service URL that every fixture cover shares, up to the image id. */
  const ThumbBase: string := "https://search1.kakaocdn.net/thumb/R120x174.q85/?fname=http%3A%2F%2Ft1.daumcdn.net%2Flbook%2Fimage%2F"

  function Thumb(id: string): Option<string> {
    Some(ThumbBase + id)
  }

  /** The sixteen fixture books, in declaration order. */
  function MockData(): seq<Book> {
    [Mock1, Mock2, Mock3, Mock4, Mock5, Mock6, Mock7, Mock8, Mock9, Mock10, Mock11, Mock12, Mock13, Mock14, Mock15, Mock16]
  }

  const Mock1Contents: string := "인간은 변할 수 있고, 누구나 행복해 질 수 있다. 단 그러기 위해서는 '용기'가 필요하다고 말한 철학자가 있다. 바로 프로이트, 융과 함께 '심리학의 3대 거장'으로 일컬어지고 있는 알프레드 아들러다."
  const Mock1: Book := Book("미움받을 용기", ["기시미 이치로", "고가 후미타케"], Mock1Contents, 1416150000, "인플루엔셜", 14900, Some(13410), Thumb("1467038"), DefaultStatus)

  const Mock2Contents: string := "지구상에 존재했던 세 종류의 인간 중 마지막까지 살아남은 호모 사피엔스. 그들은 어떻게 지구의 정복자가 되었을까?"
  const Mock2: Book := Book("사피엔스", ["유발 하라리"], Mock2Contents, 1446390000, "김영사", 19800, Some(17820), Thumb("1561237"), DefaultStatus)

  const Mock3Contents: string := "우주에 대한 인간의 지적 탐구의 역사를 다룬 과학 교양서. 천문학, 물리학, 화학, 생물학을 아우르며 우주와 생명에 대한 경이로운 이야기를 펼쳐낸다."
  const Mock3: Book := Book("코스모스", ["칼 세이건"], Mock3Contents, 1166540400, "사이언스북스", 17000, None, Thumb("587193"), DefaultStatus)

  const Mock4Contents: string := "애자일 소프트웨어 장인 정신의 핵심을 다루는 프로그래밍 필독서. 읽기 쉽고 이해하기 쉬운 코드를 작성하는 방법을 알려준다."
  const Mock4: Book := Book("클린 코드", ["로버트 C. 마틴"], Mock4Contents, 1387810800, "인사이트", 32000, Some(28800), Thumb("1628508"), DefaultStatus)

  const Mock5Contents: string := "Swift 언어의 기본 문법부터 고급 기능까지 체계적으로 학습할 수 있는 완벽한 Swift 입문서."
  const Mock5: Book := Book("스위프트 프로그래밍", ["야곰"], Mock5Contents, 1650812400, "한빛미디어", 35000, Some(31500), Thumb("5967868"), DefaultStatus)

  const Mock6Contents: string := "소프트웨어 설계에서 자주 발생하는 문제들을 해결하기 위한 재사용 가능한 해결책들을 정리한 고전적인 프로그래밍 서적."
  const Mock6: Book := Book("디자인 패턴", ["에리히 감마", "리처드 헬름", "랄프 존슨", "존 블리시디스"], Mock6Contents, 1427295600, "한빛미디어", 45000, Some(40500), Thumb("831142"), DefaultStatus)

  const Mock7Contents: string := "마법사 소년 해리 포터의 모험을 그린 판타지 소설. 호그와트 마법학교에서 벌어지는 흥미진진한 이야기."
  const Mock7: Book := Book("해리 포터와 마법사의 돌", ["J.K. 롤링"], Mock7Contents, 944060400, "문학수첩", 12000, Some(10800), Thumb("1291045"), DefaultStatus)

  const Mock8Contents: string := "전체주의 사회를 그린 디스토피아 소설. 빅 브라더의 감시 아래 살아가는 윈스턴 스미스의 이야기."
  const Mock8: Book := Book("1984", ["조지 오웰"], Mock8Contents, 1057762800, "민음사", 11000, None, Thumb("560147"), DefaultStatus)

  const Mock9Contents: string := "개인주의 철학을 바탕으로 한 거대한 서사시. 사회의 붕괴와 재건을 그린 대작 소설."
  const Mock9: Book := Book("아틀라스 쉬러그드", ["아인 랜드"], Mock9Contents, 1195052400, "청림출판", 28000, Some(25200), Thumb("1267988"), DefaultStatus)

  const Mock10Contents: string := "한 소년의 성장과 자아 찾기를 그린 성장소설. 선악의 이분법을 넘어선 인간 본성에 대한 탐구."
  const Mock10: Book := Book("데미안", ["헤르만 헤세"], Mock10Contents, 1011452400, "민음사", 9500, Some(8550), Thumb("527421"), DefaultStatus)

  const Mock11Contents: string := "사막에 불시착한 비행사가 만난 어린 왕자의 이야기. 순수함과 사랑에 대한 철학적 동화."
  const Mock11: Book := Book("어린 왕자", ["생텍쥐페리"], Mock11Contents, 953478000, "문학동네", 10000, Some(9000), Thumb("511613"), DefaultStatus)

  const Mock12Contents: string := "인류 문명의 발전 과정을 지리적, 환경적 요인으로 설명한 역사서."
  const Mock12: Book := Book("총, 균, 쇠", ["재레드 다이아몬드"], Mock12Contents, 1133362800, "문학사상", 24000, Some(21600), Thumb("664298"), DefaultStatus)

  const Mock13Contents: string := "인류의 미래를 예측한 책. 인공지능과 생명공학이 인간을 어떻게 변화시킬 것인가?"
  const Mock13: Book := Book("호모 데우스", ["유발 하라리"], Mock13Contents, 1494774000, "김영사", 21000, Some(18900), Thumb("3315498"), DefaultStatus)

  const Mock14Contents: string := "평범한 여성 김지영의 일생을 통해 한국 사회의 성차별 문제를 다룬 소설."
  const Mock14: Book := Book("82년생 김지영", ["조남주"], Mock14Contents, 1476370800, "민음사", 13800, Some(12420), Thumb("3028311"), DefaultStatus)

  const Mock15Contents: string := "하버드대 철학 강의. 정의와 도덕에 대한 근본적인 질문들을 탐구한다."
  const Mock15: Book := Book("정의란 무엇인가", ["마이클 샌델"], Mock15Contents, 1273849200, "김영사", 15000, None, Thumb("1283774"), DefaultStatus)

  const Mock16Contents: string := "양치기 소년 산티아고가 자신의 꿈을 찾아 떠나는 여정을 그린 우화적 소설."
  const Mock16: Book := Book("연금술사", ["파울로 코엘료"], Mock16Contents, 1007046000, "문학동네", 11000, Some(9900), Thumb("466133"), DefaultStatus)

  /** The titles of `books`, in order. */
  function Titles(books: seq<Book>): (ts: seq<string>)
    ensures |ts| == |books|
    ensures forall i :: 0 <= i < |books| ==> ts[i] == books[i].title
  {
    if books == [] then [] else [books[0].title] + Titles(books[1..])
  }

  /** The books of `books` that have no sale price, in order. */
  function WithoutSalePrice(books: seq<Book>): (r: seq<Book>)
    ensures |r| <= |books|
  {
    WithoutSalePriceFrom(books, 0)
  }

  function WithoutSalePriceFrom(books: seq<Book>, k: nat): (r: seq<Book>)
    requires k <= |books|
    ensures |r| <= |books| - k
    decreases |books| - k
  {
    if k == |books| then []
    else if books[k].salePrice.None? then [books[k]] + WithoutSalePriceFrom(books, k + 1)
    else WithoutSalePriceFrom(books, k + 1)
  }

  predicate DistinctTitles(books: seq<Book>) {
    forall i, j :: 0 <= i < j < |books| ==> books[i].title != books[j].title
  }

  /**
   * Proof helper: the position in the fixture of the book whose title starts with `c`. The first
   * characters differ, so distinct positions have distinct titles.
   */
  ghost function MockSlot(c: char): int {
    if c == '미' then 0
    else if c == '사' then 1
    else if c == '코' then 2
    else if c == '클' then 3
    else if c == '스' then 4
    else if c == '디' then 5
    else if c == '해' then 6
    else if c == '1' then 7
    else if c == '아' then 8
    else if c == '데' then 9
    else if c == '어' then 10
    else if c == '총' then 11
    else if c == '호' then 12
    else if c == '8' then 13
    else if c == '정' then 14
    else if c == '연' then 15
    else 16
  }

  /** From index `k` on, each fixture title starts with the character whose slot is its own index. */
  ghost predicate SlottedFrom(m: seq<Book>, k: nat)
    decreases |m| - k
  {
    k >= |m| || (m[k].title != [] && MockSlot(m[k].title[0]) == k && SlottedFrom(m, k + 1))
  }

  lemma {:induction false} SlottedAt(m: seq<Book>, k: nat, i: nat)
    requires SlottedFrom(m, k) && k <= i < |m|
    ensures m[i].title != [] && MockSlot(m[i].title[0]) == i
    decreases i - k
  {
    if k < i {
      SlottedAt(m, k + 1, i);
    }
  }

  /** Proof helper for `MockDataTitlesDistinct`: the second half of the fixture, checked on its own. */
  lemma MockDataSlottedFromEight()
    ensures SlottedFrom(MockData(), 8)
  {
    var m := MockData();
    assert SlottedFrom(m, 16);
    assert SlottedFrom(m, 15);
    assert SlottedFrom(m, 14);
    assert SlottedFrom(m, 13);
    assert SlottedFrom(m, 12);
    assert SlottedFrom(m, 11);
    assert SlottedFrom(m, 10);
    assert SlottedFrom(m, 9);
    assert SlottedFrom(m, 8);
  }

  /** The fixture has sixteen books and no two share a title. */
  lemma MockDataTitlesDistinct()
    ensures |MockData()| == 16
    ensures DistinctTitles(MockData())
  {
    var m := MockData();
    MockDataSlottedFromEight();
    assert SlottedFrom(m, 7);
    assert SlottedFrom(m, 6);
    assert SlottedFrom(m, 5);
    assert SlottedFrom(m, 4);
    assert SlottedFrom(m, 3);
    assert SlottedFrom(m, 2);
    assert SlottedFrom(m, 1);
    assert SlottedFrom(m, 0);
    forall i, j | 0 <= i < j < |m|
      ensures m[i].title != m[j].title
    {
      SlottedAt(m, 0, i);
      SlottedAt(m, 0, j);
    }
  }

  /** Every discounted fixture price is at most the list price, and every fixture book has an author. */
  lemma MockDataPricesAndAuthors()
    ensures forall i :: 0 <= i < |MockData()| && MockData()[i].salePrice.Some? ==>
      MockData()[i].salePrice.value <= MockData()[i].price
    ensures forall i :: 0 <= i < |MockData()| ==> |MockData()[i].authors| >= 1
  {
  }

  /** Proof helper for `MockDataWithoutSalePrice`: the second half of the fixture, checked on its own. */
  lemma MockDataWithoutSalePriceFromEight()
    ensures WithoutSalePriceFrom(MockData(), 8) == [MockData()[14]]
  {
    var m := MockData();
    assert WithoutSalePriceFrom(m, 16) == [];
    assert WithoutSalePriceFrom(m, 15) == [];
    assert WithoutSalePriceFrom(m, 14) == [m[14]];
    assert WithoutSalePriceFrom(m, 13) == [m[14]];
    assert WithoutSalePriceFrom(m, 12) == [m[14]];
    assert WithoutSalePriceFrom(m, 11) == [m[14]];
    assert WithoutSalePriceFrom(m, 10) == [m[14]];
    assert WithoutSalePriceFrom(m, 9) == [m[14]];
    assert WithoutSalePriceFrom(m, 8) == [m[14]];
  }

  /** Exactly three fixture books have no sale price, and they are these. */
  lemma MockDataWithoutSalePrice()
    ensures Titles(WithoutSalePrice(MockData())) == ["코스모스", "1984", "정의란 무엇인가"]
  {
    var m := MockData();
    MockDataWithoutSalePriceFromEight();
    assert WithoutSalePriceFrom(m, 7) == [m[7], m[14]];
    assert WithoutSalePriceFrom(m, 6) == [m[7], m[14]];
    assert WithoutSalePriceFrom(m, 5) == [m[7], m[14]];
    assert WithoutSalePriceFrom(m, 4) == [m[7], m[14]];
    assert WithoutSalePriceFrom(m, 3) == [m[7], m[14]];
    assert WithoutSalePriceFrom(m, 2) == [m[2], m[7], m[14]];
    assert WithoutSalePriceFrom(m, 1) == [m[2], m[7], m[14]];
    assert WithoutSalePriceFrom(m, 0) == [m[2], m[7], m[14]];
  }
}
