/** The catalogue page: search results from OMDb turned into listing
    records, de-duplicated by id through a `Map`, and sorted by year. */
module MoviesPage {
  import opened Wrappers
  import opened JsText
  import OrderedMap

  /** One search result as it comes back (after the per-movie detail lookup
      has added `imdbRating`, `Year` and `Actors`); every field may be
      missing. The TVMaze-shaped fields `name`, `image.original`,
      `rating.average` and `premiered` are read too. */
  datatype SearchItem = SearchItem(
    imdbId: Option<string>, id: Option<string>,
    titleField: Option<string>, lowerTitle: Option<string>, name: Option<string>,
    poster: Option<string>, imageOriginal: Option<string>,
    imdbRating: Option<string>, ratingAverage: Option<string>,
    year: Option<string>, premiered: Option<string>, actors: Option<string>)

  /** A movie as the page lists it. */
  datatype Listed = Listed(
    key: Option<string>, title: Option<string>, posterPath: string,
    voteAverage: string, releaseDate: string, actors: seq<string>)

  const NoPoster := "https://via.placeholder.com/300x450?text=No+Poster"
  const NotAvailable := "N/A"
  const DefaultQuery := "Avengers"

  // ---------------------------------------------------------------- transformMovie

  /** `m.premiered?.split("-")[0]`. */
  function PremieredYear(premiered: Option<string>): Option<string>
  {
    match premiered
    case None => None
    case Some(p) => Some(Split(p, '-')[0])
  }

  /** The `_id` that `transformMovie` gives a result: `imdbID || id`. */
  function ItemKey(m: SearchItem): Option<string> { OrElse(m.imdbId, m.id) }

  /** `transformMovie`. */
  function Transform(m: SearchItem): (r: Listed)
    ensures r.key == ItemKey(m)
  {
    Listed(
      ItemKey(m),
      OrElse(OrElse(m.titleField, m.lowerTitle), m.name),
      if Truthy(m.poster) && m.poster.value != NotAvailable then m.poster.value
      else if Truthy(m.imageOriginal) then m.imageOriginal.value
      else NoPoster,
      if Truthy(m.imdbRating) && m.imdbRating.value != NotAvailable then m.imdbRating.value
      else if Truthy(m.ratingAverage) then m.ratingAverage.value
      else NotAvailable,
      var y := OrElse(m.year, PremieredYear(m.premiered));
      if Truthy(y) then y.value else NotAvailable,
      if Truthy(m.actors) then SplitOn(m.actors.value, ", ") else [])
  }

  /** The fallbacks of `transformMovie`: a usable OMDb poster, rating and
      year are taken as they are; otherwise the TVMaze image, average rating
      and the part of `premiered` before its first '-' are used; "N/A" or
      the placeholder poster when neither is there. The actor list is the
      ", "-split of `Actors`: its pieces join back to the text and none holds
      ", "; no actors without an actor list. */
  lemma TransformDefaults(m: SearchItem)
    ensures var r := Transform(m);
      && (Truthy(m.poster) && m.poster.value != NotAvailable ==> r.posterPath == m.poster.value)
      && (!(Truthy(m.poster) && m.poster.value != NotAvailable) && Truthy(m.imageOriginal) ==>
            r.posterPath == m.imageOriginal.value)
      && (!(Truthy(m.poster) && m.poster.value != NotAvailable) && !Truthy(m.imageOriginal) ==>
            r.posterPath == NoPoster)
      && (Truthy(m.imdbRating) && m.imdbRating.value != NotAvailable ==> r.voteAverage == m.imdbRating.value)
      && ((!Truthy(m.imdbRating) || m.imdbRating.value == NotAvailable) && Truthy(m.ratingAverage) ==> r.voteAverage == m.ratingAverage.value)
      && ((!Truthy(m.imdbRating) || m.imdbRating.value == NotAvailable) && !Truthy(m.ratingAverage) ==> r.voteAverage == NotAvailable)
      && (Truthy(m.year) ==> r.releaseDate == m.year.value)
      && (!Truthy(m.year) && m.premiered.None? ==> r.releaseDate == NotAvailable)
      && (!Truthy(m.year) && m.premiered.Some? ==>
            var head := Split(m.premiered.value, '-')[0];
            && '-' !in head
            && (head != "" ==> r.releaseDate == head)
            && (head == "" ==> r.releaseDate == NotAvailable))
      && (!Truthy(m.actors) <==> r.actors == [])
      && (Truthy(m.actors) ==> r.actors == SplitOn(m.actors.value, ", ") && JoinOn(r.actors, ", ") == m.actors.value)
      && (Truthy(m.actors) ==> forall i, k: nat :: 0 <= i < |r.actors| ==> !OccursAt(r.actors[i], ", ", k))
  {
    if Truthy(m.actors) {
      JoinOnSplitOn(m.actors.value, ", ");
      assert |SplitOn(m.actors.value, ", ")| >= 1;
    }
  }

  // ---------------------------------------------------------------- sortMovies

  /** `parseInt(release_date)`; None is NaN. */
  function YearOf(m: Listed): Option<int> { ParseInt(m.releaseDate) }

  /** The sort keys: the comparator `parseInt(b) - parseInt(a)` of "newest"
      is negative exactly when `a`'s negated year is the smaller, and that of
      "oldest" when `a`'s year is. */
  function NewestRank(m: Listed): Option<int>
  {
    match YearOf(m)
    case None => None
    case Some(y) => Some(-y)
  }

  function OldestRank(m: Listed): Option<int> { YearOf(m) }

  /** The comparator is negative: `a` must come before `b`. A NaN on either
      side compares as equal. */
  predicate Precedes<T>(a: T, b: T, rank: T -> Option<int>)
  {
    rank(a).Some? && rank(b).Some? && rank(a).value < rank(b).value
  }

  /** A stable insertion of `x` into an ordered list: it goes after every
      element it does not strictly precede. */
  function Insert<T>(s: seq<T>, x: T, rank: T -> Option<int>): seq<T>
  {
    if s == [] then [x]
    else if Precedes(x, s[|s| - 1], rank) then Insert(s[..|s| - 1], x, rank) + [s[|s| - 1]]
    else s + [x]
  }

  /** `Array.prototype.sort` with a comparator of this shape: a stable sort. */
  function Sort<T>(s: seq<T>, rank: T -> Option<int>): seq<T>
  {
    if s == [] then [] else Insert(Sort(s[..|s| - 1], rank), s[|s| - 1], rank)
  }

  /** `sortMovies(list, sortType)` for every order but "rating". */
  function SortMovies(list: seq<Listed>, sortType: string): seq<Listed>
    requires sortType != "rating"
  {
    if sortType == "newest" then Sort(list, NewestRank)
    else if sortType == "oldest" then Sort(list, OldestRank)
    else list
  }

  lemma {:induction false} InsertPermutation<T>(s: seq<T>, x: T, rank: T -> Option<int>)
    ensures multiset(Insert(s, x, rank)) == multiset(s) + multiset{x}
    ensures |Insert(s, x, rank)| == |s| + 1
    decreases |s|
  {
    if s != [] {
      var front := s[..|s| - 1];
      assert s == front + [s[|s| - 1]];
      InsertPermutation(front, x, rank);
    }
  }

  lemma {:induction false} SortPermutation<T>(s: seq<T>, rank: T -> Option<int>)
    ensures multiset(Sort(s, rank)) == multiset(s) && |Sort(s, rank)| == |s|
    decreases |s|
  {
    if s != [] {
      var front := s[..|s| - 1];
      assert s == front + [s[|s| - 1]];
      SortPermutation(front, rank);
      InsertPermutation(Sort(front, rank), s[|s| - 1], rank);
    }
  }

  /** An element of a rearrangement is an element of the original. */
  lemma FromOriginal<T>(s: seq<T>, t: seq<T>, i: nat)
    requires multiset(t) <= multiset(s) && i < |t|
    ensures exists k :: 0 <= k < |s| && s[k] == t[i]
  {
    assert t[i] in multiset(t);
    assert t[i] in multiset(s);
  }

  predicate AllRanked<T>(s: seq<T>, rank: T -> Option<int>) { forall i :: 0 <= i < |s| ==> rank(s[i]).Some? }

  /** Non-decreasing ranks. */
  predicate Ordered<T>(s: seq<T>, rank: T -> Option<int>)
    requires AllRanked(s, rank)
  {
    forall i, j :: 0 <= i < j < |s| ==> rank(s[i]).value <= rank(s[j]).value
  }

  /** Every element of `f` ranks at most as high as `last`, when `f` is
      `front` with `x` inserted and both `x` and `front` rank no higher. */
  lemma RankBound<T>(front: seq<T>, x: T, f: seq<T>, last: T, rank: T -> Option<int>)
    requires AllRanked(front, rank) && rank(x).Some? && rank(last).Some?
    requires multiset(f) == multiset(front) + multiset{x}
    requires forall k :: 0 <= k < |front| ==> rank(front[k]).value <= rank(last).value
    requires rank(x).value <= rank(last).value
    ensures AllRanked(f, rank)
    ensures forall i :: 0 <= i < |f| ==> rank(f[i]).value <= rank(last).value
  {
    forall i | 0 <= i < |f| ensures rank(f[i]).Some? && rank(f[i]).value <= rank(last).value {
      assert f[i] in multiset(f);
      if f[i] != x {
        assert f[i] in multiset(front);
        var k :| 0 <= k < |front| && front[k] == f[i];
      }
    }
  }

  /** An ordered list stays ordered when an element ranking at least as
      high as all of it is appended. */
  lemma OrderedAppend<T>(s: seq<T>, y: T, rank: T -> Option<int>)
    requires AllRanked(s, rank) && rank(y).Some? && Ordered(s, rank)
    requires forall i :: 0 <= i < |s| ==> rank(s[i]).value <= rank(y).value
    ensures AllRanked(s + [y], rank) && Ordered(s + [y], rank)
  {
    var r := s + [y];
    assert forall i :: 0 <= i < |s| ==> r[i] == s[i];
  }

  lemma {:induction false} InsertOrdered<T>(s: seq<T>, x: T, rank: T -> Option<int>)
    requires AllRanked(s, rank) && rank(x).Some? && Ordered(s, rank)
    ensures AllRanked(Insert(s, x, rank), rank) && Ordered(Insert(s, x, rank), rank)
    decreases |s|
  {
    if s == [] {
      assert Insert(s, x, rank) == [x];
    } else {
      var last := s[|s| - 1];
      var front := s[..|s| - 1];
      assert forall k :: 0 <= k < |front| ==> front[k] == s[k];
      if Precedes(x, last, rank) {
        InsertOrdered(front, x, rank);
        InsertPermutation(front, x, rank);
        var f := Insert(front, x, rank);
        RankBound(front, x, f, last, rank);
        OrderedAppend(f, last, rank);
      } else {
        OrderedAppend(s, x, rank);
      }
    }
  }

  lemma {:induction false} SortOrdered<T>(s: seq<T>, rank: T -> Option<int>)
    requires AllRanked(s, rank)
    ensures AllRanked(Sort(s, rank), rank) && Ordered(Sort(s, rank), rank)
    decreases |s|
  {
    if s != [] {
      var front := s[..|s| - 1];
      assert AllRanked(front, rank);
      SortOrdered(front, rank);
      InsertOrdered(Sort(front, rank), s[|s| - 1], rank);
    }
  }

  predicate DistinctKeys(s: seq<Listed>) { forall i, j :: 0 <= i < j < |s| ==> s[i].key != s[j].key }

  predicate KeyAbsent(s: seq<Listed>, k: Option<string>) { forall i :: 0 <= i < |s| ==> s[i].key != k }

  lemma KeyAbsentAfter(s: seq<Listed>, t: seq<Listed>, x: Listed, k: Option<string>)
    requires multiset(t) == multiset(s) + multiset{x}
    requires KeyAbsent(s, k) && x.key != k
    ensures KeyAbsent(t, k)
  {
    forall i | 0 <= i < |t| ensures t[i].key != k {
      assert t[i] in multiset(t);
      if t[i] != x {
        assert t[i] in multiset(s);
        var j :| 0 <= j < |s| && s[j] == t[i];
      }
    }
  }

  lemma {:induction false} InsertDistinct(s: seq<Listed>, x: Listed, rank: Listed -> Option<int>)
    requires DistinctKeys(s) && KeyAbsent(s, x.key)
    ensures DistinctKeys(Insert(s, x, rank))
    decreases |s|
  {
    if s != [] && Precedes(x, s[|s| - 1], rank) {
      var last := s[|s| - 1];
      var front := s[..|s| - 1];
      InsertDistinct(front, x, rank);
      InsertPermutation(front, x, rank);
      var f := Insert(front, x, rank);
      KeyAbsentAfter(front, f, x, last.key);
      assert Insert(s, x, rank) == f + [last];
    }
  }

  lemma {:induction false} SortDistinct(s: seq<Listed>, rank: Listed -> Option<int>)
    requires DistinctKeys(s)
    ensures DistinctKeys(Sort(s, rank))
    decreases |s|
  {
    if s != [] {
      var front := s[..|s| - 1];
      var x := s[|s| - 1];
      SortDistinct(front, rank);
      SortPermutation(front, rank);
      var f := Sort(front, rank);
      assert KeyAbsent(f, x.key) by {
        forall i | 0 <= i < |f| ensures f[i].key != x.key {
          FromOriginal(front, f, i);
        }
      }
      InsertDistinct(f, x, rank);
    }
  }

  /** Every listed movie's `year` parses as an integer. */
  predicate AllYearsParse(s: seq<Listed>) { forall i :: 0 <= i < |s| ==> YearOf(s[i]).Some? }

  /** `sortMovies` returns a rearrangement of its input, so distinct ids stay
      distinct. When every year parses, "newest" gives non-increasing years
      and "oldest" non-decreasing years; any other order gives the copy
      unchanged. */
  lemma SortMoviesSpec(list: seq<Listed>, sortType: string)
    requires sortType != "rating"
    ensures var r := SortMovies(list, sortType);
      && multiset(r) == multiset(list) && |r| == |list|
      && (sortType != "newest" && sortType != "oldest" ==> r == list)
      && (DistinctKeys(list) ==> DistinctKeys(r))
      && (AllYearsParse(list) && sortType == "newest" ==>
            AllYearsParse(r) && forall i, j :: 0 <= i < j < |r| ==> YearOf(r[i]).value >= YearOf(r[j]).value)
      && (AllYearsParse(list) && sortType == "oldest" ==>
            AllYearsParse(r) && forall i, j :: 0 <= i < j < |r| ==> YearOf(r[i]).value <= YearOf(r[j]).value)
  {
    if sortType == "newest" {
      SortNewest(list);
    } else if sortType == "oldest" {
      SortOldest(list);
    }
  }

  /** What every ranked sort keeps: the elements, and distinct ids. */
  lemma SortKeeps(list: seq<Listed>, rank: Listed -> Option<int>)
    ensures var r := Sort(list, rank);
      && multiset(r) == multiset(list) && |r| == |list|
      && (DistinctKeys(list) ==> DistinctKeys(r))
  {
    SortPermutation(list, rank);
    if DistinctKeys(list) { SortDistinct(list, rank); }
  }

  lemma SortNewest(list: seq<Listed>)
    ensures var r := Sort(list, NewestRank);
      && multiset(r) == multiset(list) && |r| == |list|
      && (DistinctKeys(list) ==> DistinctKeys(r))
      && (AllYearsParse(list) ==>
            AllYearsParse(r) && forall i, j :: 0 <= i < j < |r| ==> YearOf(r[i]).value >= YearOf(r[j]).value)
  {
    SortKeeps(list, NewestRank);
    if AllYearsParse(list) {
      NewestOrdered(list);
    }
  }

  lemma SortOldest(list: seq<Listed>)
    ensures var r := Sort(list, OldestRank);
      && multiset(r) == multiset(list) && |r| == |list|
      && (DistinctKeys(list) ==> DistinctKeys(r))
      && (AllYearsParse(list) ==>
            AllYearsParse(r) && forall i, j :: 0 <= i < j < |r| ==> YearOf(r[i]).value <= YearOf(r[j]).value)
  {
    SortKeeps(list, OldestRank);
    if AllYearsParse(list) {
      OldestOrdered(list);
    }
  }

  lemma NewestOrdered(list: seq<Listed>)
    requires AllYearsParse(list)
    ensures var r := Sort(list, NewestRank);
      AllYearsParse(r) && forall i, j :: 0 <= i < j < |r| ==> YearOf(r[i]).value >= YearOf(r[j]).value
  {
    forall i | 0 <= i < |list| ensures NewestRank(list[i]).Some? {
      NewestRankOfYear(list[i]);
    }
    SortOrdered(list, NewestRank);
    var r := Sort(list, NewestRank);
    forall i | 0 <= i < |r| ensures YearOf(r[i]).Some? && NewestRank(r[i]).value == -YearOf(r[i]).value {
      NewestRankOfYear(r[i]);
    }
  }

  lemma NewestRankOfYear(m: Listed)
    ensures NewestRank(m).Some? <==> YearOf(m).Some?
    ensures NewestRank(m).Some? ==> NewestRank(m).value == -YearOf(m).value
  {
  }

  lemma OldestOrdered(list: seq<Listed>)
    requires AllYearsParse(list)
    ensures var r := Sort(list, OldestRank);
      AllYearsParse(r) && forall i, j :: 0 <= i < j < |r| ==> YearOf(r[i]).value <= YearOf(r[j]).value
  {
    assert AllRanked(list, OldestRank);
    SortOrdered(list, OldestRank);
  }

  // ---------------------------------------------------------------- Map dedupe

  function Keys(list: seq<Listed>): (ks: seq<Option<string>>)
    ensures |ks| == |list| && forall i :: 0 <= i < |list| ==> ks[i] == list[i].key
  {
    if list == [] then [] else [list[0].key] + Keys(list[1..])
  }

  /** `Array.from(new Map(list.map(m => [m._id, m])).values())`. */
  function Unique(list: seq<Listed>): seq<Listed>
  {
    OrderedMap.DedupeValues(Keys(list), list)
  }

  lemma UniqueKeys(list: seq<Listed>)
    ensures var r, ks := Unique(list), Keys(list);
      var m := OrderedMap.FromPairs(ks, list);
      && |r| == |m.keys| <= |list|
      && (forall i :: 0 <= i < |r| ==> m.keys[i] in ks && r[i] == list[OrderedMap.LastIndex(ks, m.keys[i])])
      && (forall i :: 0 <= i < |r| ==> r[i].key == m.keys[i])
  {
    var ks := Keys(list);
    OrderedMap.DedupeValuesSpec(ks, list);
  }

  /** One movie per `_id`: the ids come out distinct, every id of the input
      appears, ids are ordered by their first occurrence, and under each id
      sits the movie of its last occurrence. */
  lemma UniqueSpec(list: seq<Listed>)
    ensures var r, ks := Unique(list), Keys(list);
      && |r| <= |list|
      && DistinctKeys(r)
      && (forall k :: 0 <= k < |list| ==> exists i :: 0 <= i < |r| && r[i].key == list[k].key)
      && (forall i :: 0 <= i < |r| ==> r[i].key in ks && r[i] == list[OrderedMap.LastIndex(ks, r[i].key)])
      && (forall a, b :: 0 <= a < b < |r| ==>
            OrderedMap.FirstIndex(ks, r[a].key) < OrderedMap.FirstIndex(ks, r[b].key))
  {
    var ks := Keys(list);
    UniqueKeys(list);
    OrderedMap.DedupeValuesSpec(ks, list);
    var m := OrderedMap.FromPairs(ks, list);
    var r := Unique(list);
    forall k | 0 <= k < |list| ensures exists i :: 0 <= i < |r| && r[i].key == list[k].key {
      assert ks[k] in ks;
      assert ks[k] in m.keys;
      var i :| 0 <= i < |m.keys| && m.keys[i] == ks[k];
      assert r[i].key == list[k].key;
    }
  }

  /** After "Load more", the page keeps one movie per id, and every id shown
      before and every id of the new page is still there. */
  lemma AppendedPage(prev: seq<Listed>, page: seq<Listed>, sortBy: string)
    requires sortBy != "rating"
    ensures var r := SortMovies(Unique(prev + page), sortBy);
      && DistinctKeys(r)
      && (forall k :: 0 <= k < |prev| ==> exists i :: 0 <= i < |r| && r[i].key == prev[k].key)
      && (forall k :: 0 <= k < |page| ==> exists i :: 0 <= i < |r| && r[i].key == page[k].key)
  {
    var combined := prev + page;
    KeysKept(combined, sortBy);
    var r := SortMovies(Unique(combined), sortBy);
    forall k | 0 <= k < |prev| ensures exists i :: 0 <= i < |r| && r[i].key == prev[k].key {
      assert combined[k] == prev[k];
    }
    forall k | 0 <= k < |page| ensures exists i :: 0 <= i < |r| && r[i].key == page[k].key {
      assert combined[|prev| + k] == page[k];
    }
  }

  /** De-duplicating and then sorting keeps one movie per id and loses no id. */
  lemma KeysKept(list: seq<Listed>, sortBy: string)
    requires sortBy != "rating"
    ensures var r := SortMovies(Unique(list), sortBy);
      && DistinctKeys(r)
      && (forall k :: 0 <= k < |list| ==> exists i :: 0 <= i < |r| && r[i].key == list[k].key)
  {
    var un := Unique(list);
    UniqueSpec(list);
    SortMoviesSpec(un, sortBy);
    var r := SortMovies(un, sortBy);
    forall k | 0 <= k < |list| ensures exists i :: 0 <= i < |r| && r[i].key == list[k].key {
      var i :| 0 <= i < |un| && un[i].key == list[k].key;
      RearrangedHas(un, r, i);
    }
  }

  /** An element of a list is still somewhere in any rearrangement of it. */
  lemma RearrangedHas(s: seq<Listed>, r: seq<Listed>, i: nat)
    requires multiset(r) == multiset(s) && i < |s|
    ensures exists j :: 0 <= j < |r| && r[j] == s[i]
  {
    assert s[i] in multiset(s);
    assert s[i] in r;
  }

  // ---------------------------------------------------------------- fetchMovies

  /** `query.trim() === "" ? "Avengers" : query`. */
  function QueryToUse(query: string): (q: string)
    ensures Trim(query) == "" ==> q == DefaultQuery
    ensures Trim(query) != "" ==> q == query
  {
    if Trim(query) == "" then DefaultQuery else query
  }

  lemma DefaultQueryTrimmed()
    ensures Trim(DefaultQuery) == DefaultQuery != ""
  {
    var q := DefaultQuery;
    assert |q| == 8 && q[0] == 'A' && q[7] == 's';
    TrimOfTrimmed(q);
  }

  /** The query sent is never blank. */
  lemma QueryNeverBlank(query: string)
    ensures Trim(QueryToUse(query)) != ""
  {
    if Trim(query) == "" {
      DefaultQueryTrimmed();
    }
  }

  /** What OMDb answered: a page of results, `Response: "False"` with an
      error message, or no answer at all (the fetch threw). */
  datatype Reply = Found(search: seq<SearchItem>) | Refused(error: string) | NoAnswer

  /** What the page shows next: a list, whether "Load more" is offered and
      an error banner; or the switch to the TVMaze search. */
  datatype PageUpdate =
    | Show(movies: seq<Listed>, hasMore: bool, error: Option<string>)
    | SwitchToTvMaze(query: string)

  function TransformAll(items: seq<SearchItem>): (r: seq<Listed>)
    ensures |r| == |items| && forall i :: 0 <= i < |items| ==> r[i] == Transform(items[i])
    ensures forall i :: 0 <= i < |items| ==> r[i].key == ItemKey(items[i])
  {
    if items == [] then [] else [Transform(items[0])] + TransformAll(items[1..])
  }

  /** `fetchMovies(query, page, append)` after the reply came in; `prev` is
      the list shown so far. */
  function Search(prev: seq<Listed>, query: string, append: bool, reply: Reply, sortBy: string): PageUpdate
    requires sortBy != "rating"
  {
    match reply
    case Found(items) => Show(FoundPage(prev, append, items, sortBy), |items| == 10, None)
    case Refused(e) =>
      if SwitchingError(e) then SwitchToTvMaze(QueryToUse(query))
      else if !append then Show([], false, Some(e))
      else Show(prev, false, None)
    case NoAnswer => SwitchToTvMaze(QueryToUse(query))
  }

  /** The list shown after a page of results: the page, transformed and
      sorted, or with "Load more" the list so far and the page merged by id
      and sorted. */
  function FoundPage(prev: seq<Listed>, append: bool, items: seq<SearchItem>, sortBy: string): seq<Listed>
    requires sortBy != "rating"
  {
    var transformed := TransformAll(items);
    if append then SortMovies(Unique(prev + transformed), sortBy) else SortMovies(transformed, sortBy)
  }

  /** The two OMDb refusals after which the page asks TVMaze instead. */
  predicate SwitchingError(e: string) {
    e == "Invalid API key!" || e == "Request limit reached!"
  }

  /** "Load more" is offered after a full page of ten results and only then;
      loading another page keeps one movie per id, with every id shown
      before and every id of the new page; a fresh search shows the page's
      results, rearranged; an ordinary refusal ends paging and, for a fresh
      search, empties the list and shows the error; the TVMaze fallback is
      never asked with a blank query. */
  lemma SearchSpec(prev: seq<Listed>, query: string, append: bool, reply: Reply, sortBy: string)
    requires sortBy != "rating"
    ensures var u := Search(prev, query, append, reply, sortBy);
      && (reply.Found? ==> u.Show? && u.error.None? && (u.hasMore <==> |reply.search| == 10))
      && (reply.Found? && !append ==> multiset(u.movies) == multiset(TransformAll(reply.search)))
      && (reply.Found? && append ==>
            && DistinctKeys(u.movies)
            && (forall k :: 0 <= k < |prev| ==> exists i :: 0 <= i < |u.movies| && u.movies[i].key == prev[k].key)
            && (forall k :: 0 <= k < |reply.search| ==>
                  exists i :: 0 <= i < |u.movies| && u.movies[i].key == ItemKey(reply.search[k])))
      && (reply.Refused? && !SwitchingError(reply.error) ==>
            u.Show? && !u.hasMore && (append ==> u.movies == prev) && (!append ==> u.movies == [] && u.error == Some(reply.error)))
      && (u.SwitchToTvMaze? ==> Trim(u.query) != "")
  {
    if reply.Found? {
      SearchFoundSpec(prev, query, append, reply.search, sortBy);
    } else {
      SearchOtherSpec(prev, query, append, reply, sortBy);
    }
  }

  /** The Found case: the update shows `FoundPage` and offers "Load more"
      exactly after a full page. */
  lemma SearchFoundSpec(prev: seq<Listed>, query: string, append: bool, items: seq<SearchItem>, sortBy: string)
    requires sortBy != "rating"
    ensures var u := Search(prev, query, append, Found(items), sortBy);
      && u.Show? && u.error.None? && (u.hasMore <==> |items| == 10)
      && (!append ==> multiset(u.movies) == multiset(TransformAll(items)))
      && (append ==>
            && DistinctKeys(u.movies)
            && (forall k :: 0 <= k < |prev| ==> exists i :: 0 <= i < |u.movies| && u.movies[i].key == prev[k].key)
            && (forall k :: 0 <= k < |items| ==>
                  exists i :: 0 <= i < |u.movies| && u.movies[i].key == ItemKey(items[k])))
  {
    FoundPageSpec(prev, append, items, sortBy);
    SearchOfFound(prev, query, append, items, sortBy);
  }

  lemma SearchOfFound(prev: seq<Listed>, query: string, append: bool, items: seq<SearchItem>, sortBy: string)
    requires sortBy != "rating"
    ensures Search(prev, query, append, Found(items), sortBy) == Show(FoundPage(prev, append, items, sortBy), |items| == 10, None)
  {
  }

  /** A refusal or no answer: an ordinary refusal ends paging, and the TVMaze
      fallback is asked with a query that is not blank. */
  lemma SearchOtherSpec(prev: seq<Listed>, query: string, append: bool, reply: Reply, sortBy: string)
    requires sortBy != "rating" && !reply.Found?
    ensures var u := Search(prev, query, append, reply, sortBy);
      && (reply.Refused? && !SwitchingError(reply.error) ==>
            u.Show? && !u.hasMore && (append ==> u.movies == prev) && (!append ==> u.movies == [] && u.error == Some(reply.error)))
      && (u.SwitchToTvMaze? ==> Trim(u.query) != "")
  {
    QueryNeverBlank(query);
  }

  /** A page of results: a fresh search shows that page rearranged; with
      "Load more" one movie per id, keeping every id shown before and every
      id of the page. */
  lemma FoundPageSpec(prev: seq<Listed>, append: bool, items: seq<SearchItem>, sortBy: string)
    requires sortBy != "rating"
    ensures var movies := FoundPage(prev, append, items, sortBy);
      && (!append ==> multiset(movies) == multiset(TransformAll(items)))
      && (append ==>
            && DistinctKeys(movies)
            && (forall k :: 0 <= k < |prev| ==> exists i :: 0 <= i < |movies| && movies[i].key == prev[k].key)
            && (forall k :: 0 <= k < |items| ==>
                  exists i :: 0 <= i < |movies| && movies[i].key == ItemKey(items[k])))
  {
    if append {
      FoundAppended(prev, items, sortBy);
    } else {
      SortMoviesSpec(TransformAll(items), sortBy);
    }
  }

  lemma FoundAppended(prev: seq<Listed>, items: seq<SearchItem>, sortBy: string)
    requires sortBy != "rating"
    ensures var r := SortMovies(Unique(prev + TransformAll(items)), sortBy);
      && DistinctKeys(r)
      && (forall k :: 0 <= k < |prev| ==> exists i :: 0 <= i < |r| && r[i].key == prev[k].key)
      && (forall k :: 0 <= k < |items| ==> exists i :: 0 <= i < |r| && r[i].key == ItemKey(items[k]))
  {
    var t := TransformAll(items);
    AppendedPage(prev, t, sortBy);
    var r := SortMovies(Unique(prev + t), sortBy);
    forall k | 0 <= k < |items| ensures exists i :: 0 <= i < |r| && r[i].key == ItemKey(items[k]) {
      var i :| 0 <= i < |r| && r[i].key == t[k].key;
      assert t[k].key == ItemKey(items[k]);
    }
  }

  // ---------------------------------------------------------------- fetchInitialMovies

  /** What the first visit shows: a sorted de-duplicated list, or the
      built-in fallback list. */
  datatype InitialPage = Loaded(movies: seq<Listed>) | Fallback

  /** The results of every page that answered `Response: "True"`, in page
      order. */
  function Collected(pages: seq<Reply>): seq<SearchItem>
  {
    if pages == [] then []
    else Collected(pages[..|pages| - 1]) + (match pages[|pages| - 1] case Found(s) => s case _ => [])
  }

  /** `fetchInitialMovies` once its three page requests have settled. */
  function InitialLoad(pages: seq<Reply>, sortBy: string): InitialPage
    requires sortBy != "rating"
  {
    var unique := Unique(TransformAll(Collected(pages)));
    if |unique| > 0 then Loaded(SortMovies(unique, sortBy)) else Fallback
  }

  lemma {:induction false} CollectedEmpty(pages: seq<Reply>)
    ensures Collected(pages) == [] <==> forall i :: 0 <= i < |pages| && pages[i].Found? ==> pages[i].search == []
  {
    if pages != [] {
      var n := |pages| - 1;
      CollectedEmpty(pages[..n]);
      assert forall i :: 0 <= i < n ==> pages[..n][i] == pages[i];
    }
  }

  /** The fallback list is shown exactly when no page returned a result. */
  lemma InitialLoadFallback(pages: seq<Reply>, sortBy: string)
    requires sortBy != "rating"
    ensures InitialLoad(pages, sortBy).Fallback? <==>
              forall i :: 0 <= i < |pages| && pages[i].Found? ==> pages[i].search == []
  {
    CollectedEmpty(pages);
    var t := TransformAll(Collected(pages));
    UniqueSpec(t);
    if t != [] {
      assert exists i :: 0 <= i < |Unique(t)| && Unique(t)[i].key == t[0].key;
    }
  }
}
