/**
 * The film listing (FilmsService.findAll): the `where` filter, the ordering, the
 * skip/take window and the pagination block built from the optional query fields;
 * and the service's own `incrementView`.
 */
module Films {
  import opened Wrappers
  import opened DurableStore

  // ---------------------------------------------------------------------------
  // Query fields and films

  /** The validated query fields; every one is optional. */
  datatype Filters = Filters(
    page: Option<int>, limit: Option<int>, year: Option<int>,
    categoryId: Option<int>, countryId: Option<int>, genreId: Option<int>,
    actorId: Option<int>, keywordId: Option<int>, search: Option<string>,
    sortBy: Option<string>, sortOrder: Option<string>)

  /** JavaScript truthiness of an optional integer: present and not 0. */
  predicate Given(x: Option<int>) {
    x.Some? && x.value != 0
  }

  /** JavaScript truthiness of an optional string: present and not empty. */
  predicate GivenText(x: Option<string>) {
    x.Some? && |x.value| > 0
  }

  /** The fields of a film row the listing filters on. */
  datatype Film = Film(
    status: string, year: Option<int>, title: string, description: string, nameNormalized: string,
    categories: set<int>, actors: set<int>, keywords: set<int>)

  /** `contains`: `needle` occurs in `hay`. */
  predicate Contains(hay: string, needle: string) {
    exists i :: 0 <= i <= |hay| && needle <= hay[i..]
  }

  // ---------------------------------------------------------------------------
  // The where clause

  /**
   * The `where` object: `status: 'active'` and one optional member per filter;
   * `category` is `categories: { some }` and `bothCategories` the `AND` of two such.
   */
  datatype Where = Where(
    status: string, year: Option<int>, search: Option<string>,
    category: Option<int>, bothCategories: Option<(int, int)>,
    actor: Option<int>, keyword: Option<int>)

  /** Only truthy filters contribute; country and genre take precedence over the category. */
  function BuildWhere(f: Filters): (w: Where)
    ensures w.status == "active"
    ensures w.year.Some? <==> Given(f.year)
    ensures w.search.Some? <==> GivenText(f.search)
    ensures !(w.category.Some? && w.bothCategories.Some?)
    ensures w.bothCategories.Some? <==> Given(f.countryId) && Given(f.genreId)
  {
    var year := if Given(f.year) then f.year else None;
    var search := if GivenText(f.search) then f.search else None;
    var category := if Given(f.categoryId) && !Given(f.countryId) && !Given(f.genreId) then f.categoryId else None;
    var categoryFilters := (if Given(f.countryId) then [f.countryId.value] else [])
                         + (if Given(f.genreId) then [f.genreId.value] else []);
    var both := if |categoryFilters| == 2 then Some((f.countryId.value, f.genreId.value)) else None;
    var category := if |categoryFilters| == 1 then Some(categoryFilters[0]) else category;
    Where("active", year, search, category, both,
          if Given(f.actorId) then f.actorId else None,
          if Given(f.keywordId) then f.keywordId else None)
  }

  /** Whether the database selects `film` for `w`. */
  predicate Selects(w: Where, film: Film) {
    && film.status == w.status
    && (w.year.Some? ==> film.year == w.year)
    && (w.search.Some? ==>
          Contains(film.title, w.search.value) || Contains(film.description, w.search.value)
          || Contains(film.nameNormalized, w.search.value))
    && (w.category.Some? ==> w.category.value in film.categories)
    && (w.bothCategories.Some? ==> w.bothCategories.value.0 in film.categories && w.bothCategories.value.1 in film.categories)
    && (w.actor.Some? ==> w.actor.value in film.actors)
    && (w.keyword.Some? ==> w.keyword.value in film.keywords)
  }

  /** The categories a listing requires of a film, stated on the query fields. */
  function RequiredCategories(f: Filters): set<int> {
    (if Given(f.countryId) then {f.countryId.value} else {})
    + (if Given(f.genreId) then {f.genreId.value} else {})
    + (if Given(f.categoryId) && !Given(f.countryId) && !Given(f.genreId) then {f.categoryId.value} else {})
  }

  /** Reference meaning of the filters: which films the listing should return. */
  predicate Wanted(f: Filters, film: Film) {
    && film.status == "active"
    && (Given(f.year) ==> film.year == f.year)
    && (GivenText(f.search) ==>
          Contains(film.title, f.search.value) || Contains(film.description, f.search.value)
          || Contains(film.nameNormalized, f.search.value))
    && RequiredCategories(f) <= film.categories
    && (Given(f.actorId) ==> f.actorId.value in film.actors)
    && (Given(f.keywordId) ==> f.keywordId.value in film.keywords)
  }

  /** The built `where` selects exactly the wanted films. */
  lemma WhereSelectsWanted(f: Filters, film: Film)
    ensures Selects(BuildWhere(f), film) <==> Wanted(f, film)
  {
    var w := BuildWhere(f);
    if Given(f.countryId) && Given(f.genreId) {
      assert w.bothCategories == Some((f.countryId.value, f.genreId.value));
      assert RequiredCategories(f) == {f.countryId.value, f.genreId.value};
    } else if Given(f.countryId) {
      assert w.category == f.countryId;
      assert RequiredCategories(f) == {f.countryId.value};
    } else if Given(f.genreId) {
      assert w.category == f.genreId;
      assert RequiredCategories(f) == {f.genreId.value};
    } else if Given(f.categoryId) {
      assert RequiredCategories(f) == {f.categoryId.value};
    } else {
      assert RequiredCategories(f) == {};
    }
  }

  // ---------------------------------------------------------------------------
  // Ordering

  datatype SortField = CreatedAt | UpdatedAt | Year | Rating
  datatype Direction = Asc | Desc

  /** The fields the listing may sort on. */
  const SortFields: seq<string> := ["createdAt", "updatedAt", "year", "rating"]

  function FieldName(field: SortField): string {
    match field
    case CreatedAt => "createdAt"
    case UpdatedAt => "updatedAt"
    case Year => "year"
    case Rating => "rating"
  }

  /** `sortBy` (default `createdAt`) when it is in the whitelist, `createdAt` otherwise. */
  function SortFieldOf(sortBy: Option<string>): (field: SortField)
    ensures FieldName(field) == if sortBy.Some? && sortBy.value in SortFields then sortBy.value else "createdAt"
  {
    match sortBy
    case None => CreatedAt
    case Some(name) =>
      if name == "updatedAt" then UpdatedAt
      else if name == "year" then Year
      else if name == "rating" then Rating
      else CreatedAt
  }

  /** Ascending only for exactly `asc`; descending by default and for anything else. */
  function DirectionOf(sortOrder: Option<string>): (d: Direction)
    ensures d == Asc <==> sortOrder == Some("asc")
  {
    if sortOrder == Some("asc") then Asc else Desc
  }

  /** Sorting on `viewCount` or `title`, which the query validation accepts, sorts on `createdAt`. */
  lemma AcceptedFieldsIgnored()
    ensures SortFieldOf(Some("viewCount")) == CreatedAt && SortFieldOf(Some("title")) == CreatedAt
  {
    assert FieldName(SortFieldOf(Some("viewCount"))) == "createdAt";
    assert FieldName(SortFieldOf(Some("title"))) == "createdAt";
  }

  // ---------------------------------------------------------------------------
  // Pagination

  /** `page = 1` and `limit = 20` apply only when the field is absent. */
  function PageOf(f: Filters): int {
    f.page.GetOr(1)
  }

  function LimitOf(f: Filters): int {
    f.limit.GetOr(20)
  }

  /** What `findAll` hands to the database. */
  datatype Query = Query(where: Where, skip: int, take: int, field: SortField, direction: Direction)

  function FindAllQuery(f: Filters): (q: Query)
    ensures q.where == BuildWhere(f)
    ensures q.take == LimitOf(f)
    ensures q.skip == (PageOf(f) - 1) * LimitOf(f)
    ensures f.page.None? ==> q.skip == 0
    ensures PageOf(f) >= 1 && LimitOf(f) >= 0 ==> q.skip >= 0
    ensures q.field == SortFieldOf(f.sortBy) && q.direction == DirectionOf(f.sortOrder)
  {
    var skip := (PageOf(f) - 1) * LimitOf(f);
    Query(BuildWhere(f), skip, LimitOf(f), SortFieldOf(f.sortBy), DirectionOf(f.sortOrder))
  }

  /** A JavaScript number that `Math.ceil(total / limit)` may give. */
  datatype PageCount = Pages(n: int) | Infinite | NotANumber

  /** `Math.ceil(total / limit)`: `Infinity` or `NaN` when `limit` is 0. */
  function TotalPages(total: nat, limit: int): (r: PageCount)
    ensures limit > 0 ==> r.Pages? && r.n >= 0 && ((r.n - 1) * limit < total <= r.n * limit || (total == 0 && r.n == 0))
    ensures limit == 0 ==> r == if total == 0 then NotANumber else Infinite
    ensures limit < 0 ==> r.Pages? && r.n <= 0
  {
    if limit > 0 then Pages((total + limit - 1) / limit)
    else if limit == 0 then (if total == 0 then NotANumber else Infinite)
    else Pages(0 - total / (0 - limit))
  }

  /** The pagination block of the response: `page` and `limit` are echoed as received. */
  datatype Pagination = Pagination(page: int, limit: int, total: nat, totalPages: PageCount)

  /** The films on one page: Prisma's `skip`/`take` over the ordered matches. */
  function Window<T>(items: seq<T>, skip: nat, take: nat): (w: seq<T>)
    ensures |w| <= take
    ensures forall x :: x in w ==> x in items
    ensures skip + take <= |items| ==> w == items[skip..skip + take]
    ensures skip >= |items| ==> w == []
  {
    var lo := if skip <= |items| then skip else |items|;
    var hi := if skip + take <= |items| then skip + take else |items|;
    items[lo..hi]
  }

  function Matching(w: Where, films: seq<Film>): (m: seq<Film>)
    ensures forall film :: film in m <==> film in films && Selects(w, film)
  {
    if |films| == 0 then []
    else (if Selects(w, films[0]) then [films[0]] else []) + Matching(w, films[1..])
  }

  /**
   * `findAll` over the film table listed in the requested order: the page of the
   * matching films and the pagination block. Pages before the first (a negative
   * `skip`) and negative limits are left to the database and give `None`.
   */
  /** The films before the requested page: `(page - 1) * limit`. */
  function Skip(f: Filters): nat
    requires PageOf(f) >= 1 && LimitOf(f) >= 0
  {
    MulNonNegative(PageOf(f) - 1, LimitOf(f));
    (PageOf(f) - 1) * LimitOf(f)
  }

  lemma MulNonNegative(a: int, b: int)
    requires a >= 0 && b >= 0
    ensures a * b >= 0
  {
  }

  /** Reference selection: the wanted films of `films`, in their order. */
  function WantedIn(f: Filters, films: seq<Film>): (m: seq<Film>)
    ensures |m| <= |films|
    ensures forall film :: film in m <==> film in films && Wanted(f, film)
  {
    if |films| == 0 then []
    else (if Wanted(f, films[0]) then [films[0]] else []) + WantedIn(f, films[1..])
  }

  /** The database filter built from the query picks out exactly the wanted films, in order. */
  lemma {:induction false} MatchingIsWanted(f: Filters, films: seq<Film>)
    ensures Matching(BuildWhere(f), films) == WantedIn(f, films)
  {
    if |films| > 0 {
      WhereSelectsWanted(f, films[0]);
      MatchingIsWanted(f, films[1..]);
    }
  }

  function FindAll(f: Filters, ordered: seq<Film>): (r: Option<(seq<Film>, Pagination)>)
    ensures r.Some? <==> PageOf(f) >= 1 && LimitOf(f) >= 0
    ensures r.Some? ==> r.value.1.page == PageOf(f) && r.value.1.limit == LimitOf(f)
    ensures r.Some? ==> r.value.0 == Window(WantedIn(f, ordered), Skip(f), LimitOf(f))
    ensures r.Some? ==> r.value.1.total == |WantedIn(f, ordered)|
    ensures r.Some? ==> forall film :: film in r.value.0 ==> film in ordered && Wanted(f, film)
    ensures r.Some? ==> r.value.1.totalPages == TotalPages(r.value.1.total, LimitOf(f))
  {
    var q := FindAllQuery(f);
    if PageOf(f) < 1 || LimitOf(f) < 0 then None
    else
      var matching := Matching(q.where, ordered);
      MatchingIsWanted(f, ordered);
      assert q.skip == Skip(f);
      Some((Window(matching, q.skip, q.take), Pagination(PageOf(f), LimitOf(f), |matching|, TotalPages(|matching|, LimitOf(f)))))
  }

  /** The first `n` pages of `limit` items, one after the other. */
  function FirstPages<T>(items: seq<T>, limit: nat, n: nat): seq<T> {
    if n == 0 then [] else FirstPages(items, limit, n - 1) + Window(items, (n - 1) * limit, limit)
  }

  /** Where page `n + 1` starts: `n` pages of `limit` films, added up. */
  function Offset(n: nat, limit: nat): nat {
    if n == 0 then 0 else Offset(n - 1, limit) + limit
  }

  lemma {:induction false} OffsetIsProduct(n: nat, limit: nat)
    ensures Offset(n, limit) == n * limit
  {
    if n > 0 {
      OffsetIsProduct(n - 1, limit);
      MulStep(n, limit);
    }
  }

  lemma MulStep(n: nat, limit: nat)
    requires n > 0
    ensures n * limit == (n - 1) * limit + limit
  {
  }

  lemma {:induction false} FirstPagesPrefix<T>(items: seq<T>, limit: nat, n: nat)
    ensures FirstPages(items, limit, n) == items[..if Offset(n, limit) <= |items| then Offset(n, limit) else |items|]
  {
    if n > 0 {
      var lo := Offset(n - 1, limit);
      var a := if lo <= |items| then lo else |items|;
      var b := if lo + limit <= |items| then lo + limit else |items|;
      FirstPagesPrefix(items, limit, n - 1);
      assert (n - 1) * limit == lo by {
        OffsetIsProduct(n - 1, limit);
      }
      assert Window(items, lo, limit) == items[a..b];
      SliceJoin(items, a, b);
    }
  }

  lemma SliceJoin<T>(items: seq<T>, a: nat, b: nat)
    requires a <= b <= |items|
    ensures items[..a] + items[a..b] == items[..b]
  {
  }

  /** The page count bounds the matches from both sides. */
  lemma PageCountBounds(total: nat, limit: nat)
    requires limit > 0
    ensures var n := TotalPages(total, limit).n;
      n >= 0 && total <= n * limit && (n > 0 ==> (n - 1) * limit < total)
  {
  }

  /** Pages 1 to `totalPages` laid end to end are the matches, in order. */
  lemma PagesCover<T>(items: seq<T>, limit: nat)
    requires limit > 0
    ensures FirstPages(items, limit, TotalPages(|items|, limit).n) == items
  {
    var n: nat := TotalPages(|items|, limit).n;
    PageCountBounds(|items|, limit);
    FirstPagesPrefix(items, limit, n);
    OffsetIsProduct(n, limit);
    assert items[..|items|] == items;
  }

  /** Pages 1 to `totalPages` are non-empty and every later page is empty. */
  lemma PagesBeyondEmpty<T>(items: seq<T>, limit: nat, p: nat)
    requires limit > 0 && p >= 1
    ensures p > TotalPages(|items|, limit).n <==> Window(items, (p - 1) * limit, limit) == []
  {
    var n: nat := TotalPages(|items|, limit).n;
    PageCountBounds(|items|, limit);
    var skip: nat := (p - 1) * limit;
    if p > n {
      MulMonotone(n, p - 1, limit);
      assert skip >= |items|;
    } else {
      MulMonotone(p - 1, n - 1, limit);
      assert skip < |items|;
      assert |Window(items, skip, limit)| > 0;
    }
  }

  /**
   * Asked for a page past `totalPages`, `findAll` answers with no films; any page up
   * to it has at least one.
   */
  lemma FindAllBeyondLastPage(f: Filters, ordered: seq<Film>)
    requires PageOf(f) >= 1 && LimitOf(f) > 0
    ensures var r := FindAll(f, ordered).value;
      r.0 == [] <==> PageOf(f) > r.1.totalPages.n
  {
    PagesBeyondEmpty(WantedIn(f, ordered), LimitOf(f), PageOf(f));
  }

  lemma MulMonotone(a: nat, b: nat, c: nat)
    requires a <= b
    ensures a * c <= b * c
  {
    assert b * c == a * c + (b - a) * c;
  }

  // ---------------------------------------------------------------------------
  // Counting a view on the film endpoint

  /**
   * `incrementView`: the film's `viewCount` rises by one; it throws (`None`) for a
   * missing film and when the update itself fails (`commit` false).
   */
  function IncrementView(s: Store, id: int, commit: bool): (r: Option<Store>)
    ensures r.Some? <==> commit && id in s.totals
    ensures r.Some? ==> r.value.totals.Keys == s.totals.Keys && r.value.daily == s.daily
    ensures r.Some? ==> r.value.totals[id] == s.totals[id] + 1
    ensures r.Some? ==> forall other :: other in s.totals && other != id ==> r.value.totals[other] == s.totals[other]
  {
    if commit then IncrementFilm(s, id, 1) else None
  }
}
