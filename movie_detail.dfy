/** The movie page: the OMDb record turned into the page's movie object,
    the related-movie strip, the showtimes grouped by theater, the ticket
    prices handed to the seat picker and the favorite button. */
module MovieDetail {
  import opened Wrappers
  import opened JsText
  import BookingDb

  /** The fields of an OMDb detail answer with `Response: "True"` that the
      page reads. */
  datatype OmdbDetail = OmdbDetail(
    imdbId: string, title: Option<string>, poster: Option<string>, imdbRating: Option<string>,
    runtime: Option<string>, released: Option<string>, plot: Option<string>,
    language: Option<string>, genre: Option<string>)

  datatype Genre = Genre(id: nat, name: string)

  /** `movieData`. `backdrop` and `poster` stay undefined when OMDb sent no
      `Poster` at all. */
  datatype MovieData = MovieData(
    id: string, title: Option<string>, backdrop: Option<string>, poster: Option<string>,
    voteAverage: Option<string>, runtime: int, releaseDate: Option<string>, overview: Option<string>,
    originalLanguage: string, genres: seq<Genre>)

  const NoBackdrop := "https://via.placeholder.com/1920x1080?text=No+Backdrop"
  const NoPoster := "https://via.placeholder.com/300x450?text=No+Poster"
  const NotAvailable := "N/A"

  // ---------------------------------------------------------------- movieData

  /** `genres.map((g, i) => ({ id: i, name: g.trim() }))`. */
  function Genres(parts: seq<string>): (gs: seq<Genre>)
  {
    seq(|parts|, i requires 0 <= i < |parts| => Genre(i, Trim(parts[i])))
  }

  /** `movieData`, built from a found OMDb record. */
  function ToMovieData(d: OmdbDetail): MovieData
  {
    MovieData(
      d.imdbId, d.title,
      if d.poster == Some(NotAvailable) then Some(NoBackdrop) else d.poster,
      if d.poster == Some(NotAvailable) then Some(NoPoster) else d.poster,
      d.imdbRating, ParseIntOrZero(d.runtime), d.released, d.plot,
      if Truthy(d.language) then Split(d.language.value, ',')[0] else "EN",
      if Truthy(d.genre) then Genres(Split(d.genre.value, ',')) else [])
  }

  /** The placeholders replace a "N/A" poster, and a real poster is both the
      poster and the backdrop; the runtime is the number `parseInt` reads
      ("142 min" gives 142) and 0 when it reads none; the language is the
      first of the listed languages, or "EN" when none are; the genres are
      the comma-separated parts, trimmed and numbered from 0. */
  lemma MovieDataSpec(d: OmdbDetail)
    ensures var m := ToMovieData(d);
      && m.id == d.imdbId
      && (d.poster == Some(NotAvailable) <==> m.poster == Some(NoPoster) && m.backdrop == Some(NoBackdrop) && d.poster != Some(NoPoster))
      && (d.poster != Some(NotAvailable) ==> m.poster == d.poster && m.backdrop == d.poster)
      && (d.runtime.Some? && ParseInt(d.runtime.value).Some? ==> m.runtime == ParseInt(d.runtime.value).value)
      && (d.runtime.None? || ParseInt(d.runtime.value).None? ==> m.runtime == 0)
      && (!Truthy(d.language) ==> m.originalLanguage == "EN")
      && (Truthy(d.language) && ',' !in d.language.value ==> m.originalLanguage == d.language.value)
      && (Truthy(d.language) ==> ',' !in m.originalLanguage && StartsWith(d.language.value, m.originalLanguage))
      && (!Truthy(d.genre) ==> m.genres == [])
      && (Truthy(d.genre) ==>
            (|m.genres| == |Split(d.genre.value, ',')| &&
             forall i :: 0 <= i < |m.genres| ==> m.genres[i].id == i && m.genres[i].name == Trim(Split(d.genre.value, ',')[i])))
  {
    if Truthy(d.language) {
      var l := d.language.value;
      SplitHead(l, ',');
      if ',' in l {
        assert l == l[..IndexOf(l, ',')] + l[IndexOf(l, ',')..];
      }
    }
  }

  /** `movieData.runtime` for the usual "N min" runtime is N. */
  lemma RuntimeOfMinutes(d: OmdbDetail, n: nat)
    requires d.runtime == Some(NatToString(n) + " min")
    ensures ToMovieData(d).runtime == n
  {
    ParseIntOfNatToString(n, " min");
  }

  /** The genre used for the related search: `Genre.split(",")[0].trim()`,
      or "Action" when there is no genre. */
  function FirstGenre(genre: Option<string>): (g: string)
    ensures !Truthy(genre) ==> g == "Action"
    ensures Truthy(genre) ==> ',' !in g && (forall i :: 0 <= i < |g| ==> g[i] in genre.value)
  {
    if Truthy(genre) then
      var head := Split(genre.value, ',')[0];
      SplitHead(genre.value, ',');
      TrimKeepsCharacters(head);
      Trim(head)
    else "Action"
  }

  /** The genre the related search uses and the first genre the page lists
      agree. */
  lemma FirstGenreIsFirstListed(d: OmdbDetail)
    requires Truthy(d.genre)
    ensures FirstGenre(d.genre) == ToMovieData(d).genres[0].name
  {
  }

  // ---------------------------------------------------------------- related movies

  datatype SearchHit = SearchHit(imdbId: Option<string>, title: Option<string>, poster: Option<string>, year: Option<string>)

  datatype RelatedCard = RelatedCard(id: Option<string>, title: Option<string>, posterPath: Option<string>, releaseDate: Option<string>)

  function Card(m: SearchHit): RelatedCard
  {
    RelatedCard(m.imdbId, m.title, if m.poster == Some(NotAvailable) then Some(NoPoster) else m.poster, m.year)
  }

  /** `.filter(m => m.imdbID !== data.imdbID)`. */
  function OtherMovies(hits: seq<SearchHit>, current: string): (r: seq<SearchHit>)
    ensures |r| <= |hits|
    ensures forall i :: 0 <= i < |r| ==> r[i].imdbId != Some(current) && r[i] in hits
    ensures forall i :: 0 <= i < |hits| && hits[i].imdbId != Some(current) ==> hits[i] in r
  {
    if hits == [] then []
    else (if hits[0].imdbId != Some(current) then [hits[0]] else []) + OtherMovies(hits[1..], current)
  }

  /** The related strip: the other movies of the search, at most five, in
      search order, with a placeholder for a "N/A" poster. */
  function Related(hits: seq<SearchHit>, current: string): (r: seq<RelatedCard>)
    ensures var others := OtherMovies(hits, current);
      && |r| == (if |others| < 5 then |others| else 5)
      && (forall i :: 0 <= i < |r| ==> r[i] == Card(others[i]))
      && (forall i :: 0 <= i < |r| ==> r[i].id != Some(current))
  {
    var others := OtherMovies(hits, current);
    var first := if |others| <= 5 then others else others[..5];
    seq(|first|, i requires 0 <= i < |first| => Card(first[i]))
  }

  /** The filter keeps the search order: it is the search with the current
      movie's entries taken out. */
  lemma {:induction false} OtherMoviesOrder(hits: seq<SearchHit>, current: string, a: seq<SearchHit>, b: seq<SearchHit>)
    requires hits == a + b
    ensures OtherMovies(hits, current) == OtherMovies(a, current) + OtherMovies(b, current)
    decreases |a|
  {
    if a != [] {
      assert hits[0] == a[0] && hits[1..] == a[1..] + b;
      OtherMoviesOrder(hits[1..], current, a[1..], b);
      var head := if a[0].imdbId != Some(current) then [a[0]] else [];
      assert OtherMovies(hits, current) == head + OtherMovies(hits[1..], current);
      assert OtherMovies(a, current) == head + OtherMovies(a[1..], current);
      assert head + (OtherMovies(a[1..], current) + OtherMovies(b, current))
          == (head + OtherMovies(a[1..], current)) + OtherMovies(b, current);
    } else {
      assert hits == b;
    }
  }

  // ---------------------------------------------------------------- grouping showtimes

  /** A showtime row with its theater joined in. */
  datatype ShowRow = ShowRow(id: BookingDb.Id, showTime: string, theater: BookingDb.Theater)

  datatype Group = Group(theater: BookingDb.Theater, times: seq<ShowRow>)

  /** The rows of one theater, in order. */
  function OfTheater(rows: seq<ShowRow>, theaterId: BookingDb.Id): (r: seq<ShowRow>)
    ensures forall i :: 0 <= i < |r| ==> r[i].theater.id == theaterId && r[i] in rows
  {
    if rows == [] then []
    else
      var last := rows[|rows| - 1];
      OfTheater(rows[..|rows| - 1], theaterId) + (if last.theater.id == theaterId then [last] else [])
  }

  lemma {:induction false} OfTheaterHas(rows: seq<ShowRow>, i: nat)
    requires i < |rows|
    ensures rows[i] in OfTheater(rows, rows[i].theater.id)
    decreases |rows|
  {
    if i < |rows| - 1 {
      OfTheaterHas(rows[..|rows| - 1], i);
    }
  }

  lemma {:induction false} OfTheaterAbsent(rows: seq<ShowRow>, theaterId: BookingDb.Id)
    requires forall i :: 0 <= i < |rows| ==> rows[i].theater.id != theaterId
    ensures OfTheater(rows, theaterId) == []
    decreases |rows|
  {
    if rows != [] {
      OfTheaterAbsent(rows[..|rows| - 1], theaterId);
    }
  }

  /** The first row of a theater. */
  predicate FirstOf(rows: seq<ShowRow>, theaterId: BookingDb.Id, i: nat) {
    i < |rows| && rows[i].theater.id == theaterId && forall j :: 0 <= j < i ==> rows[j].theater.id != theaterId
  }

  /** `groups` groups `rows`: one group per theater that has a row, holding
      that theater's rows in order, labelled with the theater of its first
      row. */
  ghost predicate Grouped(rows: seq<ShowRow>, groups: map<BookingDb.Id, Group>) {
    && (forall k :: k in groups <==> exists i :: 0 <= i < |rows| && rows[i].theater.id == k)
    && (forall k :: k in groups ==> groups[k].times == OfTheater(rows, k))
    && (forall k :: k in groups ==> exists i: nat :: FirstOf(rows, k, i) && groups[k].theater == rows[i].theater)
  }

  /** One step of the `reduce`: open the row's group if it has none yet,
      then push the row onto it. */
  function Push(groups: map<BookingDb.Id, Group>, cur: ShowRow): map<BookingDb.Id, Group> {
    var ready := if cur.theater.id in groups then groups else groups[cur.theater.id := Group(cur.theater, [])];
    ready[cur.theater.id := Group(ready[cur.theater.id].theater, ready[cur.theater.id].times + [cur])]
  }

  lemma PushKeys(rows: seq<ShowRow>, groups: map<BookingDb.Id, Group>, cur: ShowRow)
    requires forall k :: k in groups <==> exists i :: 0 <= i < |rows| && rows[i].theater.id == k
    ensures forall k :: k in Push(groups, cur) <==> exists i :: 0 <= i < |rows + [cur]| && (rows + [cur])[i].theater.id == k
  {
    var after := rows + [cur];
    forall k ensures k in Push(groups, cur) <==> exists i :: 0 <= i < |after| && after[i].theater.id == k {
      if k in groups {
        var i :| 0 <= i < |rows| && rows[i].theater.id == k;
        assert after[i] == rows[i];
      } else if k == cur.theater.id {
        assert after[|rows|] == cur;
      } else {
        forall i | 0 <= i < |after| ensures after[i].theater.id != k {
          if i < |rows| {
            assert after[i] == rows[i];
          }
        }
      }
    }
  }

  lemma PushTimes(rows: seq<ShowRow>, groups: map<BookingDb.Id, Group>, cur: ShowRow)
    requires Grouped(rows, groups)
    ensures forall k :: k in Push(groups, cur) ==> Push(groups, cur)[k].times == OfTheater(rows + [cur], k)
  {
    var after := rows + [cur];
    assert after[..|after| - 1] == rows;
    var key := cur.theater.id;
    if key !in groups {
      OfTheaterAbsent(rows, key);
    }
  }

  lemma PushFirst(rows: seq<ShowRow>, groups: map<BookingDb.Id, Group>, cur: ShowRow)
    requires Grouped(rows, groups)
    ensures forall k :: k in Push(groups, cur) ==> exists i: nat :: FirstOf(rows + [cur], k, i) && Push(groups, cur)[k].theater == (rows + [cur])[i].theater
  {
    var after := rows + [cur];
    var pushed := Push(groups, cur);
    forall k | k in pushed ensures exists i: nat :: FirstOf(after, k, i) && pushed[k].theater == after[i].theater {
      if k in groups {
        var i: nat :| FirstOf(rows, k, i) && groups[k].theater == rows[i].theater;
        assert FirstOf(after, k, i);
      } else {
        assert FirstOf(after, k, |rows|);
      }
    }
  }

  lemma PushGrouped(rows: seq<ShowRow>, groups: map<BookingDb.Id, Group>, cur: ShowRow)
    requires Grouped(rows, groups)
    ensures Grouped(rows + [cur], Push(groups, cur))
  {
    PushKeys(rows, groups, cur);
    PushTimes(rows, groups, cur);
    PushFirst(rows, groups, cur);
  }

  /** The loop's step: pushing row `n` onto the groups of the rows before it
      groups the rows up to and including it. */
  lemma PushGroupedAt(rows: seq<ShowRow>, n: nat, groups: map<BookingDb.Id, Group>)
    requires n < |rows| && Grouped(rows[..n], groups)
    ensures Grouped(rows[..n + 1], Push(groups, rows[n]))
  {
    var front, cur := rows[..n], rows[n];
    assert front + [cur] == rows[..n + 1];
    PushGrouped(front, groups, cur);
  }

  /** The `reduce` that groups the showtimes by `theaters.id`: a group is
      opened with the theater of its first row and every row is pushed onto
      its theater's group. */
  method GroupByTheater(rows: seq<ShowRow>) returns (groups: map<BookingDb.Id, Group>)
    ensures Grouped(rows, groups)
  {
    groups := map[];
    var n := 0;
    while n < |rows|
      invariant 0 <= n <= |rows|
      invariant Grouped(rows[..n], groups)
    {
      var cur := rows[n];
      var key := cur.theater.id;
      ghost var before := groups;
      ghost var ready := if key in before then before else before[key := Group(cur.theater, [])];
      if key !in groups {
        groups := groups[key := Group(cur.theater, [])];
      }
      assert groups == ready;
      groups := groups[key := Group(groups[key].theater, groups[key].times + [cur])];
      assert groups == Push(before, cur);
      PushGroupedAt(rows, n, before);
      n := n + 1;
    }
    assert rows[..n] == rows;
  }

  /** Every showtime is in exactly one group, the one of its own theater,
      and every group holds only its theater's showtimes. */
  lemma GroupsPartition(rows: seq<ShowRow>, groups: map<BookingDb.Id, Group>)
    requires Grouped(rows, groups)
    ensures forall i :: 0 <= i < |rows| ==> rows[i].theater.id in groups && rows[i] in groups[rows[i].theater.id].times
    ensures forall k, t :: k in groups && t in groups[k].times ==> t.theater.id == k && t in rows
  {
    forall i | 0 <= i < |rows| ensures rows[i].theater.id in groups && rows[i] in groups[rows[i].theater.id].times {
      OfTheaterHas(rows, i);
    }
  }

  // ---------------------------------------------------------------- Buy Tickets and favorites

  /** The prices handed to the seat picker; VIP is always 150 above
      standard. */
  datatype TicketPrices = TicketPrices(standard: int, vip: int)

  function BuyTicketPrices(standard: int): (p: TicketPrices)
    ensures p.standard == standard && p.vip - p.standard == 150
  {
    TicketPrices(standard, standard + 150)
  }

  datatype FavoriteOutcome = AskedToLogIn | NothingToToggle | Toggled(nowFavorite: bool) | ToggleFailed

  /** `handleToggleFavorite`: without a user, only a prompt to log in and no
      call to the data layer; with a user and a movie on the page, the data
      layer's toggle on that movie. */
  method HandleToggleFavorite(db: BookingDb.Database, user: Option<string>, show: Option<MovieData>,
                              lookupFails: bool, writeFails: bool)
    returns (outcome: FavoriteOutcome)
    modifies db`favorites, db`nextId
    ensures user.None? ==> outcome == AskedToLogIn
    ensures user.Some? && show.None? ==> outcome == NothingToToggle
    ensures user.None? || show.None? ==> db.favorites == old(db.favorites) && db.nextId == old(db.nextId)
    ensures user.Some? && show.Some? && writeFails ==> outcome == ToggleFailed && db.favorites == old(db.favorites)
    ensures user.Some? && show.Some? && !writeFails ==>
              var nowFavorite := !(!lookupFails && BookingDb.FavoriteCount(old(db.favorites), user.value, show.value.id) == 1);
              outcome == Toggled(nowFavorite) && (nowFavorite <==> db.IsFavorite(user.value, show.value.id, false))
  {
    if user.None? {
      return AskedToLogIn;
    }
    if show.None? {
      return NothingToToggle;
    }
    var r := db.ToggleFavorite(user.value, show.value.id, show.value.title, lookupFails, writeFails);
    if r.Success? {
      outcome := Toggled(r.value);
    } else {
      outcome := ToggleFailed;
    }
  }
}
