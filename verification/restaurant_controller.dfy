/** The public restaurant endpoints: one restaurant by id, and the search of
    a city's restaurants with a cuisine filter, a text filter, a sort field
    and pages of ten. Regular expressions are abstract: `rx.compiles(p)` says
    whether `new RegExp(p, "i")` accepts the pattern, `rx.matches(p, s)`
    whether that expression matches `s`. */
module RestaurantController {
  import opened Wrappers
  import opened Http
  import opened JsString
  import opened JsNumber
  import opened RestaurantModel
  import opened Database

  /** A case-insensitive regular expression engine. */
  datatype RegexEngine = RegexEngine(compiles: string -> bool, matches: (string, string) -> bool)

  const PageSize: nat := 10

  /** `getRestaurant`: the restaurant with this id, or 404. */
  function GetRestaurant(db: Db, restaurantId: string, storeFails: bool): (r: Reply<Restaurant>)
    reads db
    requires db.Valid()
    ensures storeFails ==> r == Reply(ServerError, Message("Something went wrong"))
    ensures !storeFails ==> (r.status == NotFound <==> restaurantId !in db.restaurants)
    ensures !storeFails && restaurantId in db.restaurants ==> r == Reply(OK, Json(db.restaurants[restaurantId]))
    ensures r.status == OK ==>
      && r.body.Json? && r.body.value in db.restaurants.Values
      && r.body.value.id == restaurantId && ValidRestaurant(r.body.value)
  {
    if storeFails then Reply(ServerError, Message("Something went wrong"))
    else if restaurantId !in db.restaurants then Reply(NotFound, Message("Restaurant not found"))
    else Reply(OK, Json(db.restaurants[restaurantId]))
  }

  // ---------------------------------------------------------------------
  // Parameters

  /** The query string of a search; an absent parameter is `None`. */
  datatype SearchParams = SearchParams(
    searchQuery: Option<string>,
    selectedCuisines: Option<string>,
    sortOption: Option<string>,
    page: Option<string>)

  /** The parameters once their defaults are applied. */
  datatype Settings = Settings(searchQuery: string, selectedCuisines: string, sortOption: string, page: int)

  /** `(v as string) || fallback`: an absent or empty parameter gives way. */
  function OrDefault(v: Option<string>, fallback: string): string
  {
    if v.None? || v.value == "" then fallback else v.value
  }

  /** `parseInt(page) || 1`: `NaN` and 0 are falsy and give page 1; any other
      number, negative ones included, is kept. */
  function PageNumber(page: Option<string>): (n: int)
    ensures n != 0
    ensures n == 1 <==> page.None? || ParseInt(page.value) in {None, Some(0), Some(1)}
    ensures page.Some? && ParseInt(page.value).Some? && ParseInt(page.value).value != 0 ==>
      n == ParseInt(page.value).value
  {
    if page.None? then 1
    else match ParseInt(page.value)
      case None => 1
      case Some(v) => if v == 0 then 1 else v
  }

  function Defaults(p: SearchParams): (s: Settings)
    ensures s.page != 0
  {
    Settings(OrDefault(p.searchQuery, ""), OrDefault(p.selectedCuisines, ""),
             OrDefault(p.sortOption, "lastUpdated"), PageNumber(p.page))
  }

  /** With no parameters at all the search is unfiltered, sorted on
      "lastUpdated" (a field restaurants do not have), and shows page 1. */
  lemma DefaultSettings()
    ensures Defaults(SearchParams(None, None, None, None)) == Settings("", "", "lastUpdated", 1)
    ensures Defaults(SearchParams(Some(""), Some(""), Some(""), Some(""))) == Settings("", "", "lastUpdated", 1)
  {
    ParseIntWithoutDigits("");
  }

  /** The page parameter is read as a decimal number when it is one (and is
      not 0), and is 1 when it holds no digit. */
  lemma PageParameter(n: int, junk: string)
    requires forall i :: 0 <= i < |junk| ==> !IsDigit(junk[i], 10)
    ensures n != 0 ==> PageNumber(Some(DecimalText(n))) == n
    ensures PageNumber(Some(DecimalText(0))) == 1
    ensures PageNumber(Some(junk)) == 1
    ensures PageNumber(Some("next")) == 1
  {
    ParseIntWithoutDigits("next");
    ParseIntReadsDecimal(n, "");
    ParseIntReadsDecimal(0, "");
    ParseIntWithoutDigits(junk);
    assert DecimalText(n) + "" == DecimalText(n);
    assert DecimalText(0) + "" == DecimalText(0);
  }

  // ---------------------------------------------------------------------
  // The query document and what it matches

  /** A condition on one path: a regular expression, `$all` or `$in` over
      regular expressions, or `$or` over one-path conditions. */
  datatype Filter =
    | Regex(pattern: string)
    | All(patterns: seq<string>)
    | In(patterns: seq<string>)
    | Or(branches: seq<(string, Filter)>)

  /** What a path holds, as far as regular expressions see it. */
  datatype FieldText = Absent | Text(s: string) | Texts(items: seq<string>)

  function TextOf(r: Restaurant, path: string): FieldText
  {
    if path == "restaurantName" then Text(r.restaurantName)
    else if path == "city" then Text(r.city)
    else if path == "country" then Text(r.country)
    else if path == "imageUrl" then Text(r.imageUrl)
    else if path == "cuisines" then Texts(r.cuisines)
    else Absent
  }

  /** A pattern matches a string path when it matches the string, and an
      array path when it matches one of its elements. */
  predicate PatternMatches(p: string, t: FieldText, rx: RegexEngine)
  {
    match t
    case Absent => false
    case Text(s) => rx.matches(p, s)
    case Texts(items) => exists j :: 0 <= j < |items| && rx.matches(p, items[j])
  }

  predicate Holds(r: Restaurant, path: string, f: Filter, rx: RegexEngine)
    decreases f
  {
    match f
    case Regex(p) => PatternMatches(p, TextOf(r, path), rx)
    case All(ps) => |ps| > 0 && forall i :: 0 <= i < |ps| ==> PatternMatches(ps[i], TextOf(r, path), rx)
    case In(ps) => exists i :: 0 <= i < |ps| && PatternMatches(ps[i], TextOf(r, path), rx)
    case Or(bs) => exists i :: 0 <= i < |bs| && Holds(r, bs[i].0, bs[i].1, rx)
  }

  /** A document matches a query when it meets every one of its conditions. */
  predicate QueryHolds(r: Restaurant, query: map<string, Filter>, rx: RegexEngine)
  {
    forall path :: path in query ==> Holds(r, path, query[path], rx)
  }

  /** The query document the search builds. */
  function SearchQuery(city: string, s: Settings): map<string, Filter>
  {
    var q := map["city" := Regex(city)];
    var q := if s.selectedCuisines != "" then q["cuisines" := All(Split(s.selectedCuisines, ','))] else q;
    if s.searchQuery != "" then
      q["$or" := Or([("restaurantName", Regex(s.searchQuery)), ("cuisines", In([s.searchQuery]))])]
    else q
  }

  predicate SomeCuisineMatches(r: Restaurant, p: string, rx: RegexEngine)
  {
    exists j :: 0 <= j < |r.cuisines| && rx.matches(p, r.cuisines[j])
  }

  /** What a search asks of a restaurant, stated directly: its city matches;
      every comma-separated selected cuisine matches one of its cuisines; and
      the search text matches its name or one of its cuisines. */
  predicate MatchesSearch(r: Restaurant, city: string, s: Settings, rx: RegexEngine)
  {
    && rx.matches(city, r.city)
    && (s.selectedCuisines != "" ==>
          forall c :: c in Split(s.selectedCuisines, ',') ==> SomeCuisineMatches(r, c, rx))
    && (s.searchQuery != "" ==>
          rx.matches(s.searchQuery, r.restaurantName) || SomeCuisineMatches(r, s.searchQuery, rx))
  }

  /** The query document means what the search asks. */
  lemma SearchQueryMeaning(r: Restaurant, city: string, s: Settings, rx: RegexEngine)
    ensures QueryHolds(r, SearchQuery(city, s), rx) <==> MatchesSearch(r, city, s, rx)
  {
    var q := SearchQuery(city, s);
    assert Holds(r, "city", q["city"], rx) <==> rx.matches(city, r.city);
    if s.selectedCuisines != "" {
      var cs := Split(s.selectedCuisines, ',');
      assert Holds(r, "cuisines", q["cuisines"], rx)
         <==> forall i :: 0 <= i < |cs| ==> SomeCuisineMatches(r, cs[i], rx);
    }
    if s.searchQuery != "" {
      var bs := [("restaurantName", Regex(s.searchQuery)), ("cuisines", In([s.searchQuery]))];
      assert q["$or"] == Or(bs);
      assert Holds(r, bs[0].0, bs[0].1, rx) <==> rx.matches(s.searchQuery, r.restaurantName);
      assert [s.searchQuery][0] == s.searchQuery;
      assert Holds(r, bs[1].0, bs[1].1, rx) <==> PatternMatches(s.searchQuery, TextOf(r, "cuisines"), rx);
      assert Holds(r, bs[1].0, bs[1].1, rx) <==> SomeCuisineMatches(r, s.searchQuery, rx);
      assert Holds(r, "$or", q["$or"], rx) <==> Holds(r, bs[0].0, bs[0].1, rx) || Holds(r, bs[1].0, bs[1].1, rx);
    }
    if MatchesSearch(r, city, s, rx) {
      forall path | path in q ensures Holds(r, path, q[path], rx) {
      }
    }
  }

  /** The ids of the restaurants a search matches. */
  function Matching(restaurants: map<string, Restaurant>, city: string, s: Settings, rx: RegexEngine): set<string>
  {
    set k | k in restaurants && MatchesSearch(restaurants[k], city, s, rx)
  }

  /** The ids of the restaurants whose city matches. */
  function InCity(restaurants: map<string, Restaurant>, city: string, rx: RegexEngine): set<string>
  {
    set k | k in restaurants && rx.matches(city, restaurants[k].city)
  }

  /** The query holding only the city condition selects the city's
      restaurants. */
  lemma CityQuerySelects(restaurants: map<string, Restaurant>, city: string, rx: RegexEngine)
    ensures (set k | k in restaurants && QueryHolds(restaurants[k], map["city" := Regex(city)], rx))
         == InCity(restaurants, city, rx)
  {
    var q := map["city" := Regex(city)];
    forall k | k in restaurants
      ensures QueryHolds(restaurants[k], q, rx) <==> rx.matches(city, restaurants[k].city)
    {
      assert q.Keys == {"city"};
    }
  }

  /** The full query selects exactly the matches of the search. */
  lemma SearchQuerySelects(restaurants: map<string, Restaurant>, city: string, s: Settings, rx: RegexEngine)
    ensures (set k | k in restaurants && QueryHolds(restaurants[k], SearchQuery(city, s), rx))
         == Matching(restaurants, city, s, rx)
  {
    forall k | k in restaurants
      ensures QueryHolds(restaurants[k], SearchQuery(city, s), rx) <==> MatchesSearch(restaurants[k], city, s, rx)
    {
      SearchQueryMeaning(restaurants[k], city, s, rx);
    }
  }

  // ---------------------------------------------------------------------
  // Sorting

  /** A sort key, in the order MongoDB compares values of different types:
      a missing field first, then numbers, strings, object ids and dates. */
  datatype SortKey = Missing | Num(n: int) | Str(s: string) | ObjectId(hex: string) | Date(t: Time)

  /** The value a restaurant sorts on. Paths the schema does not have, such
      as "lastUpdated", and the array paths sort as missing. */
  function KeyOf(r: Restaurant, path: string): SortKey
  {
    if path == "_id" then ObjectId(r.id)
    else if path == "user" then (if r.user.Some? then ObjectId(r.user.value) else Missing)
    else if path == "restaurantName" then Str(r.restaurantName)
    else if path == "city" then Str(r.city)
    else if path == "country" then Str(r.country)
    else if path == "imageUrl" then Str(r.imageUrl)
    else if path == "deliveryPrice" then (if r.deliveryPrice.Some? then Num(r.deliveryPrice.value) else Missing)
    else if path == "estimatedDeliveryTime" then
      (if r.estimatedDeliveryTime.Some? then Num(r.estimatedDeliveryTime.value) else Missing)
    else if path == "lastUpdate" then (if r.lastUpdate.Some? then Date(r.lastUpdate.value) else Missing)
    else Missing
  }

  /** Strings compare by code point, the order of their UTF-8 bytes. */
  predicate StrLe(a: string, b: string)
  {
    |a| == 0 || (|b| > 0 && (a[0] < b[0] || (a[0] == b[0] && StrLe(a[1..], b[1..]))))
  }

  function Rank(k: SortKey): nat
  {
    match k
    case Missing => 0
    case Num(_) => 1
    case Str(_) => 2
    case ObjectId(_) => 3
    case Date(_) => 4
  }

  predicate KeyLe(a: SortKey, b: SortKey)
  {
    Rank(a) < Rank(b)
    || (Rank(a) == Rank(b) &&
        match a
        case Missing => true
        case Num(x) => x <= b.n
        case Str(x) => StrLe(x, b.s)
        case ObjectId(x) => StrLe(x, b.hex)
        case Date(x) => x <= b.t)
  }

  lemma {:induction false} StrLeTotal(a: string, b: string)
    ensures StrLe(a, b) || StrLe(b, a)
  {
    if |a| > 0 && |b| > 0 && a[0] == b[0] {
      StrLeTotal(a[1..], b[1..]);
    }
  }

  lemma {:induction false} StrLeTrans(a: string, b: string, c: string)
    requires StrLe(a, b) && StrLe(b, c)
    ensures StrLe(a, c)
  {
    if |a| > 0 && |b| > 0 && |c| > 0 && a[0] == b[0] && b[0] == c[0] {
      StrLeTrans(a[1..], b[1..], c[1..]);
    }
  }

  lemma {:induction false} StrLeRefl(a: string)
    ensures StrLe(a, a)
  {
    if |a| > 0 {
      StrLeRefl(a[1..]);
    }
  }

  /** The key order is a total preorder, so any finite set has a least
      element to list first. */
  lemma KeyLeTotalPreorder(a: SortKey, b: SortKey, c: SortKey)
    ensures KeyLe(a, a)
    ensures KeyLe(a, b) || KeyLe(b, a)
    ensures KeyLe(a, b) && KeyLe(b, c) ==> KeyLe(a, c)
  {
    match a {
      case Str(x) => StrLeRefl(x);
      case ObjectId(x) => StrLeRefl(x);
      case _ =>
    }
    if Rank(a) == Rank(b) {
      match a {
        case Str(x) => StrLeTotal(x, b.s);
        case ObjectId(x) => StrLeTotal(x, b.hex);
        case _ =>
      }
    }
    if KeyLe(a, b) && KeyLe(b, c) && Rank(a) == Rank(b) == Rank(c) {
      match a {
        case Str(x) => StrLeTrans(x, b.s, c.s);
        case ObjectId(x) => StrLeTrans(x, b.hex, c.hex);
        case _ =>
      }
    }
  }

  function Key(restaurants: map<string, Restaurant>, id: string, path: string): SortKey
    requires id in restaurants
  {
    KeyOf(restaurants[id], path)
  }

  /** `listing` lists the ids in `ids`, each once, ascending on `path`. */
  ghost predicate SortedListing(restaurants: map<string, Restaurant>, listing: seq<string>, ids: set<string>, path: string)
  {
    && |listing| == |ids|
    && (forall k :: k in ids <==> k in listing)
    && (forall i :: 0 <= i < |listing| ==> listing[i] in restaurants)
    && (forall i, j :: 0 <= i < j < |listing| ==>
          KeyLe(Key(restaurants, listing[i], path), Key(restaurants, listing[j], path)))
  }

  lemma {:induction false} MinimumExists(restaurants: map<string, Restaurant>, ids: set<string>, path: string)
    requires ids != {} && ids <= restaurants.Keys
    ensures exists m :: m in ids && forall k :: k in ids ==> KeyLe(Key(restaurants, m, path), Key(restaurants, k, path))
    decreases |ids|
  {
    var x :| x in ids;
    KeyLeTotalPreorder(Key(restaurants, x, path), Key(restaurants, x, path), Key(restaurants, x, path));
    if ids == {x} {
      assert forall k :: k in ids ==> k == x;
    } else {
      MinimumExists(restaurants, ids - {x}, path);
      var m :| m in ids - {x} && forall k :: k in ids - {x} ==> KeyLe(Key(restaurants, m, path), Key(restaurants, k, path));
      KeyLeTotalPreorder(Key(restaurants, x, path), Key(restaurants, m, path), Key(restaurants, m, path));
      if KeyLe(Key(restaurants, x, path), Key(restaurants, m, path)) {
        forall k | k in ids
          ensures KeyLe(Key(restaurants, x, path), Key(restaurants, k, path))
        {
          if k != x {
            KeyLeTotalPreorder(Key(restaurants, x, path), Key(restaurants, m, path), Key(restaurants, k, path));
          }
        }
      } else {
        assert KeyLe(Key(restaurants, m, path), Key(restaurants, x, path));
        assert forall k :: k in ids ==> KeyLe(Key(restaurants, m, path), Key(restaurants, k, path));
      }
    }
  }

  /** The default sort path "lastUpdated" is not a path of the schema (its
      path is "lastUpdate"), so under the default every listing of the
      matches, in any order, counts as sorted. */
  lemma DefaultSortOrdersNothing(restaurants: map<string, Restaurant>, listing: seq<string>, ids: set<string>)
    requires |listing| == |ids| && (forall k :: k in ids <==> k in listing)
    requires forall i :: 0 <= i < |listing| ==> listing[i] in restaurants
    ensures SortedListing(restaurants, listing, ids, "lastUpdated")
  {
    forall i, j | 0 <= i < j < |listing|
      ensures KeyLe(Key(restaurants, listing[i], "lastUpdated"), Key(restaurants, listing[j], "lastUpdated"))
    {
      assert Key(restaurants, listing[i], "lastUpdated") == Missing;
    }
  }

  /** `.sort({ [path]: 1 })`: the ids in ascending order of the path. Ties
      are listed in whatever order the store picks. */
  method SortByKey(restaurants: map<string, Restaurant>, ids: set<string>, path: string) returns (listing: seq<string>)
    requires ids <= restaurants.Keys
    ensures SortedListing(restaurants, listing, ids, path)
  {
    listing := [];
    var rest := ids;
    while rest != {}
      invariant rest <= ids
      invariant |listing| + |rest| == |ids|
      invariant forall k :: k in ids <==> k in listing || k in rest
      invariant forall k :: k in rest ==> k !in listing
      invariant forall i :: 0 <= i < |listing| ==> listing[i] in restaurants
      invariant forall i, j :: 0 <= i < j < |listing| ==>
        KeyLe(Key(restaurants, listing[i], path), Key(restaurants, listing[j], path))
      invariant forall i, k :: 0 <= i < |listing| && k in rest ==>
        KeyLe(Key(restaurants, listing[i], path), Key(restaurants, k, path))
      decreases |rest|
    {
      MinimumExists(restaurants, rest, path);
      var m :| m in rest && forall k :: k in rest ==> KeyLe(Key(restaurants, m, path), Key(restaurants, k, path));
      listing := listing + [m];
      rest := rest - {m};
    }
  }

  // ---------------------------------------------------------------------
  // Pages

  /** `Math.ceil(total / pageSize)`. */
  function PageCount(total: nat): (pages: nat)
    ensures pages * PageSize >= total
    ensures total > 0 ==> (pages - 1) * PageSize < total
    ensures total == 0 ==> pages == 0
  {
    (total + PageSize - 1) / PageSize
  }

  /** `.skip(skip).limit(pageSize)` on a listing. */
  function Window<T>(listing: seq<T>, skip: nat): (w: seq<T>)
    ensures |w| <= PageSize
  {
    if skip >= |listing| then []
    else if skip + PageSize >= |listing| then listing[skip..]
    else listing[skip..skip + PageSize]
  }

  /** The windows of pages 1, 2, ... one after the other, until the listing
      runs out. */
  function Pages<T>(listing: seq<T>, skip: nat): seq<T>
    decreases |listing| - skip
  {
    if skip >= |listing| then [] else Window(listing, skip) + Pages(listing, skip + PageSize)
  }

  /** Reading the pages in turn gives back the whole listing, each match
      once and in order; pages 1 to `PageCount` are non-empty and later ones
      are empty. */
  lemma {:induction false} PagesCoverListing<T>(listing: seq<T>, skip: nat)
    requires skip <= |listing|
    ensures Pages(listing, skip) == listing[skip..]
    decreases |listing| - skip
  {
    if skip < |listing| {
      if skip + PageSize >= |listing| {
        assert Pages(listing, skip + PageSize) == [];
      } else {
        PagesCoverListing(listing, skip + PageSize);
        assert listing[skip..] == listing[skip..skip + PageSize] + listing[skip + PageSize..];
      }
    }
  }

  lemma PageIsEmptyExactlyPastTheLast<T>(listing: seq<T>, page: int)
    requires page >= 1
    ensures |Window(listing, (page - 1) * PageSize)| > 0 <==> page <= PageCount(|listing|)
  {
  }

  /** The whole listing is the pages read in turn. */
  lemma AllPagesGiveEveryMatch<T>(listing: seq<T>)
    ensures Pages(listing, 0) == listing
  {
    PagesCoverListing(listing, 0);
  }

  function Docs(restaurants: map<string, Restaurant>, ids: seq<string>): (docs: seq<Restaurant>)
    requires forall i :: 0 <= i < |ids| ==> ids[i] in restaurants
    ensures |docs| == |ids|
    ensures forall i :: 0 <= i < |ids| ==> docs[i] == restaurants[ids[i]]
  {
    if |ids| == 0 then [] else [restaurants[ids[0]]] + Docs(restaurants, ids[1..])
  }

  // ---------------------------------------------------------------------
  // The search

  datatype Pagination = Pagination(total: int, page: int, pages: int)

  datatype SearchPage = SearchPage(data: seq<Restaurant>, pagination: Pagination)

  /** The answer when no restaurant is in the city, whatever the filters. */
  const CityNotFound: Reply<SearchPage> := Reply(NotFound, Json(SearchPage([], Pagination(0, 1, 1))))

  /** Whether every pattern the query will carry is one `RegExp` accepts. */
  predicate FiltersCompile(s: Settings, rx: RegexEngine)
  {
    && (s.selectedCuisines != "" ==>
          forall c :: c in Split(s.selectedCuisines, ',') ==> rx.compiles(c))
    && (s.searchQuery != "" ==> rx.compiles(s.searchQuery))
  }

  /** What a successful search answers: the number of matches and of
      pages, the page number, and at most ten matches, ascending on the sort
      path; they are the window the page picks out of some listing of all
      the matches in that order. */
  ghost predicate IsResultPage(p: SearchPage, restaurants: map<string, Restaurant>, city: string,
                               s: Settings, rx: RegexEngine)
    requires s.page >= 1
  {
    var ids := Matching(restaurants, city, s, rx);
    && p.pagination == Pagination(|ids|, s.page, PageCount(|ids|))
    && |p.data| <= PageSize
    && (forall i :: 0 <= i < |p.data| ==> p.data[i] in restaurants.Values && MatchesSearch(p.data[i], city, s, rx))
    && (forall i, j :: 0 <= i < j < |p.data| ==>
          KeyLe(KeyOf(p.data[i], s.sortOption), KeyOf(p.data[j], s.sortOption)))
    && exists listing :: SortedListing(restaurants, listing, ids, s.sortOption)
                      && p.data == Docs(restaurants, Window(listing, (s.page - 1) * PageSize))
  }

  /** The page built from a sorted listing of the matches is a result page. */
  lemma PageOfListing(restaurants: map<string, Restaurant>, city: string, s: Settings, rx: RegexEngine,
                      listing: seq<string>)
    requires s.page >= 1
    requires SortedListing(restaurants, listing, Matching(restaurants, city, s, rx), s.sortOption)
    ensures var ids := Matching(restaurants, city, s, rx);
      var data := Docs(restaurants, Window(listing, (s.page - 1) * PageSize));
      IsResultPage(SearchPage(data, Pagination(|ids|, s.page, PageCount(|ids|))), restaurants, city, s, rx)
  {
    var ids := Matching(restaurants, city, s, rx);
    var skip := (s.page - 1) * PageSize;
    var w := Window(listing, skip);
    var data := Docs(restaurants, w);
    if skip < |listing| {
      assert forall i :: 0 <= i < |w| ==> w[i] == listing[skip + i];
    }
    assert forall i :: 0 <= i < |w| ==> w[i] in ids && w[i] in restaurants;
    forall i | 0 <= i < |data|
      ensures data[i] in restaurants.Values && MatchesSearch(data[i], city, s, rx)
    {
      assert data[i] == restaurants[w[i]];
    }
  }

  /** `searchRestaurants`: a city with no restaurant is a 404 with an empty
      page, whatever the filters; otherwise the page of matches the page
      number picks. A pattern `RegExp` refuses, a page number below 1 (a
      skip the store refuses) and a store failure are 500s. */
  method SearchRestaurants(db: Db, city: string, params: SearchParams, rx: RegexEngine, storeFails: bool)
    returns (reply: Reply<SearchPage>)
    requires db.Valid()
    ensures var s := Defaults(params);
      reply.status == OK <==>
        && !storeFails && rx.compiles(city) && |InCity(db.restaurants, city, rx)| > 0
        && FiltersCompile(s, rx) && s.page >= 1
    ensures storeFails || !rx.compiles(city) ==> reply == Reply(ServerError, Message("Internal server error"))
    ensures !storeFails && rx.compiles(city) && |InCity(db.restaurants, city, rx)| == 0 ==>
      reply == CityNotFound
    ensures reply == CityNotFound ==> !storeFails && rx.compiles(city) && |InCity(db.restaurants, city, rx)| == 0
    ensures reply.status != OK && reply != CityNotFound ==>
      reply == Reply(ServerError, Message("Internal server error"))
    ensures reply.status == OK ==>
      reply.body.Json? && Defaults(params).page >= 1
      && IsResultPage(reply.body.value, db.restaurants, city, Defaults(params), rx)
  {
    var s := Defaults(params);
    if !rx.compiles(city) {
      return Reply(ServerError, Message("Internal server error"));
    }
    var query: map<string, Filter> := map[];
    query := query["city" := Regex(city)];
    if storeFails {
      return Reply(ServerError, Message("Internal server error"));
    }
    CityQuerySelects(db.restaurants, city, rx);
    var cityCheck := |set k | k in db.restaurants && QueryHolds(db.restaurants[k], query, rx)|;
    if cityCheck == 0 {
      return CityNotFound;
    }
    if s.selectedCuisines != "" {
      var cuisinesArray := Split(s.selectedCuisines, ',');
      if exists c :: c in cuisinesArray && !rx.compiles(c) {
        return Reply(ServerError, Message("Internal server error"));
      }
      query := query["cuisines" := All(cuisinesArray)];
    }
    if s.searchQuery != "" {
      if !rx.compiles(s.searchQuery) {
        return Reply(ServerError, Message("Internal server error"));
      }
      query := query["$or" := Or([("restaurantName", Regex(s.searchQuery)), ("cuisines", In([s.searchQuery]))])];
    }
    assert query == SearchQuery(city, s);
    var skip := (s.page - 1) * PageSize;
    if skip < 0 {
      return Reply(ServerError, Message("Internal server error"));
    }
    var page := FindPage(db.restaurants, city, s, rx, query);
    reply := Reply(OK, Json(page));
  }

  /** The part of the search that runs the query: find the matches, sort
      them, skip to the page, and count the matches and the pages. */
  method FindPage(restaurants: map<string, Restaurant>, city: string, s: Settings, rx: RegexEngine,
                  query: map<string, Filter>) returns (page: SearchPage)
    requires s.page >= 1 && query == SearchQuery(city, s)
    ensures IsResultPage(page, restaurants, city, s, rx)
  {
    SearchQuerySelects(restaurants, city, s, rx);
    var matches := set k | k in restaurants && QueryHolds(restaurants[k], query, rx);
    var listing := SortByKey(restaurants, matches, s.sortOption);
    var docs := Docs(restaurants, Window(listing, (s.page - 1) * PageSize));
    var total := |matches|;
    PageOfListing(restaurants, city, s, rx, listing);
    page := SearchPage(docs, Pagination(total, s.page, PageCount(total)));
  }
}
