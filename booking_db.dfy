/** The data layer of the storefront: the tables it keeps in its hosted
    database (movies, theaters, showtimes, bookings, favorites), held here as
    sequences in insertion order, with the queries and writes the pages use.
    Each `Math.random()` draw and each failing database call is an input. */
module BookingDb {
  import opened Wrappers
  import opened JsText
  import OrderedMap

  type Id = nat

  datatype Movie = Movie(id: Id, omdbId: string, title: Option<string>, posterPath: Option<string>,
                         backdropPath: Option<string>, genres: seq<string>, runtime: int)

  datatype Theater = Theater(id: Id, name: string, location: string, facilities: seq<string>)

  /** `show_time` is kept as the calendar date and the local "HH:MM" time. */
  datatype Showtime = Showtime(id: Id, theaterId: Id, movieId: Id, date: string, time: string,
                               screen: string, priceStandard: int, priceVip: int)

  datatype Booking = Booking(id: Id, userId: string, showtimeId: Id, seats: seq<string>,
                             totalPrice: Option<int>, status: string)

  /** A favorite row; `movie_data` (the cached movie object) is kept as its title. */
  datatype Favorite = Favorite(id: Id, userId: string, movieId: string, movieTitle: Option<string>)

  /** The OMDb record given to `ensureMovieExists`. */
  datatype OmdbMovie = OmdbMovie(imdbId: string, title: Option<string>, poster: Option<string>,
                                 genre: Option<string>, runtime: Option<string>)

  const QueryError := "database error"

  // ---------------------------------------------------------------- theaters

  /** The seven theaters `seedTheaters` inserts, numbered from `start`. */
  function DummyTheaters(start: Id): (ts: seq<Theater>)
    ensures |ts| == 7
    ensures forall i :: 0 <= i < 7 ==> ts[i].id == start + i
  {
    [ Theater(start, "PVR: Vegas Mall, Dwarka", "Dwarka, New Delhi", ["Dolby Atmos", "Recliner", "4DX"]),
      Theater(start + 1, "INOX: Nehru Place", "Nehru Place, New Delhi", ["IMAX", "Laser", "F&B"]),
      Theater(start + 2, "Cinepolis: DLF Avenue", "Saket, New Delhi", ["Coffe Shop", "Lounge"]),
      Theater(start + 3, "PVR: Pacific Mall", "Subhash Nagar, New Delhi", ["Gold Class", "Playhouse"]),
      Theater(start + 4, "PVR: Director's Cut", "Vasant Kunj, New Delhi", ["Luxury", "Gourmet Food", "Recliner"]),
      Theater(start + 5, "Liberty Cinema", "Karol Bagh, New Delhi", ["Heritage", "Single Screen", "Dolby 7.1"]),
      Theater(start + 6, "Satyem Cineplex", "Janakpuri, New Delhi", ["Family Friendly", "Budget"]) ]
  }

  // ---------------------------------------------------------------- movies

  /** How many movie rows carry this OMDb id. */
  function CountOmdb(ms: seq<Movie>, omdbId: string): (n: nat)
    ensures n <= |ms|
    ensures n == 0 <==> forall i :: 0 <= i < |ms| ==> ms[i].omdbId != omdbId
  {
    if ms == [] then 0
    else CountOmdb(ms[..|ms| - 1], omdbId) + (if ms[|ms| - 1].omdbId == omdbId then 1 else 0)
  }

  /** The first movie row carrying this OMDb id. */
  function FirstWithOmdb(ms: seq<Movie>, omdbId: string): (m: Movie)
    requires CountOmdb(ms, omdbId) > 0
    ensures m in ms && m.omdbId == omdbId
  {
    if CountOmdb(ms[..|ms| - 1], omdbId) > 0 then FirstWithOmdb(ms[..|ms| - 1], omdbId) else ms[|ms| - 1]
  }

  /** `maybeSingle()` over the rows with this OMDb id: the row when there is
      exactly one; `null` when there is none, and also when there are several
      (the query then reports an error, which `ensureMovieExists` ignores). */
  function UniqueMovie(ms: seq<Movie>, omdbId: string): (r: Option<Movie>)
    ensures r.Some? <==> CountOmdb(ms, omdbId) == 1
    ensures r.Some? ==> r.value in ms && r.value.omdbId == omdbId
  {
    if CountOmdb(ms, omdbId) == 1 then Some(FirstWithOmdb(ms, omdbId)) else None
  }

  /** `s.split(',').map(g => g.trim())`. */
  function TrimAll(parts: seq<string>): (r: seq<string>)
    ensures |r| == |parts|
    ensures forall i :: 0 <= i < |r| ==> r[i] == Trim(parts[i])
  {
    if parts == [] then [] else [Trim(parts[0])] + TrimAll(parts[1..])
  }

  /** The genre list `ensureMovieExists` stores: the trimmed comma-separated
      parts when `Genre` is a non-empty string, and none otherwise. */
  function GenreList(genre: Option<string>): (gs: seq<string>)
    ensures !Truthy(genre) ==> gs == []
    ensures Truthy(genre) ==> |gs| == |Split(genre.value, ',')| >= 1
    ensures Truthy(genre) ==> forall i :: 0 <= i < |gs| ==> gs[i] == Trim(Split(genre.value, ',')[i])
    ensures forall i :: 0 <= i < |gs| ==> ',' !in gs[i]
  {
    if Truthy(genre) then
      var parts := Split(genre.value, ',');
      var gs := TrimAll(parts);
      assert forall i :: 0 <= i < |gs| ==> ',' !in gs[i] by {
        forall i | 0 <= i < |gs| ensures ',' !in gs[i] {
          TrimKeepsCharacters(parts[i]);
        }
      }
      gs
    else []
  }

  /** The row `ensureMovieExists` inserts for an OMDb record. */
  function NewMovieRow(o: OmdbMovie, id: Id): (m: Movie)
    ensures m.id == id && m.omdbId == o.imdbId
    ensures m.posterPath == o.poster && m.backdropPath == o.poster
  {
    Movie(id, o.imdbId, o.title, o.poster, o.poster, GenreList(o.genre), ParseIntOrZero(o.runtime))
  }

  /** After the insert on a table without a row for this OMDb id, the lookup
      finds exactly the new row: a second call returns the same id and
      inserts nothing. */
  lemma EnsureMovieIdempotent(ms: seq<Movie>, o: OmdbMovie, id: Id)
    requires CountOmdb(ms, o.imdbId) == 0
    ensures UniqueMovie(ms + [NewMovieRow(o, id)], o.imdbId) == Some(NewMovieRow(o, id))
  {
    var ms' := ms + [NewMovieRow(o, id)];
    assert ms'[..|ms'| - 1] == ms;
  }

  /** A runtime such as "142 min" is stored as 142; a missing or unreadable one as 0. */
  lemma RuntimeOfMinutes(o: OmdbMovie, n: nat, id: Id)
    requires o.runtime == Some(NatToString(n) + " min")
    ensures NewMovieRow(o, id).runtime == n
  {
    ParseIntOfNatToString(n, " min");
  }

  // ---------------------------------------------------------------- showtimes

  /** The rows `fetchShowtimes(movieId, date)` selects, in table order. */
  function ShowtimesOf(rows: seq<Showtime>, movieId: Id, date: string): (r: seq<Showtime>)
    ensures |r| <= |rows|
  {
    if rows == [] then []
    else
      var last := rows[|rows| - 1];
      ShowtimesOf(rows[..|rows| - 1], movieId, date) + (if last.movieId == movieId && last.date == date then [last] else [])
  }

  /** The selected rows are exactly the rows of that movie and date. */
  lemma {:induction false} ShowtimesOfMembers(rows: seq<Showtime>, movieId: Id, date: string)
    ensures forall s :: s in ShowtimesOf(rows, movieId, date) <==> s in rows && s.movieId == movieId && s.date == date
  {
    if rows != [] {
      var n := |rows| - 1;
      ShowtimesOfMembers(rows[..n], movieId, date);
      assert rows == rows[..n] + [rows[n]];
    }
  }

  lemma ShowtimesOfAppend(a: seq<Showtime>, b: seq<Showtime>, movieId: Id, date: string)
    ensures ShowtimesOf(a + b, movieId, date) == ShowtimesOf(a, movieId, date) + ShowtimesOf(b, movieId, date)
    decreases |b|
  {
    if b == [] {
      assert a + b == a;
    } else {
      assert (a + b)[..|a + b| - 1] == a + b[..|b| - 1];
      assert (a + b)[|a + b| - 1] == b[|b| - 1];
      ShowtimesOfAppend(a, b[..|b| - 1], movieId, date);
    }
  }

  lemma {:induction false} ShowtimesOfAllMatching(rows: seq<Showtime>, movieId: Id, date: string)
    requires forall i :: 0 <= i < |rows| ==> rows[i].movieId == movieId && rows[i].date == date
    ensures ShowtimesOf(rows, movieId, date) == rows
  {
    if rows != [] {
      var n := |rows| - 1;
      ShowtimesOfAllMatching(rows[..n], movieId, date);
      assert rows[..n] + [rows[n]] == rows;
    }
  }

  /** The five fixed start times. */
  const SlotTimes: seq<string> := ["09:30", "12:30", "15:30", "18:30", "21:30"]

  /** The draws for one generated slot: `Math.floor(Math.random() * 171 + 180)`,
      `Math.floor(Math.random() * 201 + 400)` and `Math.floor(Math.random() * 5)`. */
  datatype SlotDraw = SlotDraw(rawStandard: int, rawVip: int, screenDraw: int)

  predicate ValidDraw(d: SlotDraw) {
    180 <= d.rawStandard <= 350 && 400 <= d.rawVip <= 600 && 0 <= d.screenDraw < 5
  }

  /** The draws of one generation round: per theater, the five outcomes of
      `Math.random() > 0.3` that pick its times, and per time slot the draws
      used when that slot is picked. */
  datatype Draws = Draws(keep: seq<seq<bool>>, slots: seq<seq<SlotDraw>>)

  predicate DrawsFor(theaterIds: seq<Id>, d: Draws) {
    && |d.keep| == |theaterIds| && |d.slots| == |theaterIds|
    && (forall i :: 0 <= i < |theaterIds| ==> |d.keep[i]| == 5 && |d.slots[i]| == 5)
    && (forall i, j :: 0 <= i < |theaterIds| && 0 <= j < |d.slots[i]| ==> ValidDraw(d.slots[i][j]))
  }

  /** `` `Screen ${k}` `` for the drawn screen. */
  function ScreenLabel(draw: int): (s: string)
    requires 0 <= draw < 5
    ensures exists k :: 1 <= k <= 5 && s == "Screen " + NatToString(k)
  {
    "Screen " + NatToString(draw + 1)
  }

  /** The row pushed for slot `j` of a theater (its id is given on insert). */
  function SlotRow(movieId: Id, theaterId: Id, date: string, j: nat, d: SlotDraw): Showtime
    requires j < 5 && ValidDraw(d)
  {
    Showtime(0, theaterId, movieId, date, SlotTimes[j], ScreenLabel(d.screenDraw),
             CeilToTen(d.rawStandard), CeilToTen(d.rawVip))
  }

  predicate TheaterDraws(keep: seq<bool>, slots: seq<SlotDraw>) {
    |keep| == 5 && |slots| == 5 && forall j :: 0 <= j < 5 ==> ValidDraw(slots[j])
  }

  /** The slots among the first `n` that are picked, in increasing order. */
  function KeptSlots(keep: seq<bool>, n: nat): (ks: seq<nat>)
    requires n <= |keep|
    ensures forall k :: 0 <= k < |ks| ==> ks[k] < n && keep[ks[k]]
    ensures forall k, l :: 0 <= k < l < |ks| ==> ks[k] < ks[l]
    ensures forall j :: 0 <= j < n && keep[j] ==> j in ks
  {
    if n == 0 then [] else KeptSlots(keep, n - 1) + (if keep[n - 1] then [n - 1] else [])
  }

  /** The rows one theater contributes from its first `n` slots. */
  function TheaterRows(movieId: Id, theaterId: Id, date: string, keep: seq<bool>, slots: seq<SlotDraw>, n: nat): seq<Showtime>
    requires TheaterDraws(keep, slots) && n <= 5
  {
    if n == 0 then []
    else TheaterRows(movieId, theaterId, date, keep, slots, n - 1)
         + (if keep[n - 1] then [SlotRow(movieId, theaterId, date, n - 1, slots[n - 1])] else [])
  }

  /** A theater's rows are, in order, exactly its picked slots: so their times
      form a subsequence of the five fixed times. */
  lemma {:induction false} TheaterRowsAreKeptSlots(movieId: Id, theaterId: Id, date: string,
                                                   keep: seq<bool>, slots: seq<SlotDraw>, n: nat)
    requires TheaterDraws(keep, slots) && n <= 5
    ensures var rows, ks := TheaterRows(movieId, theaterId, date, keep, slots, n), KeptSlots(keep, n);
      && |rows| == |ks| <= n
      && forall k :: 0 <= k < |rows| ==> rows[k] == SlotRow(movieId, theaterId, date, ks[k], slots[ks[k]])
  {
    if n > 0 {
      TheaterRowsAreKeptSlots(movieId, theaterId, date, keep, slots, n - 1);
    }
  }

  /** `newShowtimes` after the loop has run over the first `n` theaters. */
  function Planned(movieId: Id, theaterIds: seq<Id>, date: string, d: Draws, n: nat): seq<Showtime>
    requires DrawsFor(theaterIds, d) && n <= |theaterIds|
  {
    if n == 0 then []
    else Planned(movieId, theaterIds, date, d, n - 1)
         + TheaterRows(movieId, theaterIds[n - 1], date, d.keep[n - 1], d.slots[n - 1], 5)
  }

  /** What a generated row looks like. */
  predicate GeneratedRow(r: Showtime, movieId: Id, theaterIds: seq<Id>, date: string) {
    && r.movieId == movieId && r.theaterId in theaterIds && r.date == date && r.time in SlotTimes
    && r.priceStandard % 10 == 0 && 180 <= r.priceStandard <= 350
    && r.priceVip % 10 == 0 && 400 <= r.priceVip <= 600
    && (exists k :: 1 <= k <= 5 && r.screen == "Screen " + NatToString(k))
  }

  lemma SlotRowGenerated(movieId: Id, theaterIds: seq<Id>, i: nat, date: string, j: nat, d: SlotDraw)
    requires i < |theaterIds| && j < 5 && ValidDraw(d)
    ensures GeneratedRow(SlotRow(movieId, theaterIds[i], date, j, d), movieId, theaterIds, date)
  {
  }

  /** At most five rows per theater, each for this movie and date, one of the
      given theaters and one of the fixed times, with its prices multiples of
      ten in [180, 350] and [400, 600] and a screen between 1 and 5. */
  lemma {:induction false} PlannedShape(movieId: Id, theaterIds: seq<Id>, date: string, d: Draws, n: nat)
    requires DrawsFor(theaterIds, d) && n <= |theaterIds|
    ensures var p := Planned(movieId, theaterIds, date, d, n);
      && |p| <= 5 * n
      && forall k :: 0 <= k < |p| ==> GeneratedRow(p[k], movieId, theaterIds, date)
  {
    if n > 0 {
      PlannedShape(movieId, theaterIds, date, d, n - 1);
      TheaterRowsGenerated(movieId, theaterIds, date, d, n - 1);
      var a := Planned(movieId, theaterIds, date, d, n - 1);
      var b := TheaterRows(movieId, theaterIds[n - 1], date, d.keep[n - 1], d.slots[n - 1], 5);
      assert Planned(movieId, theaterIds, date, d, n) == a + b;
      forall k | 0 <= k < |a + b| ensures GeneratedRow((a + b)[k], movieId, theaterIds, date) {
        if k < |a| {
          assert (a + b)[k] == a[k];
        } else {
          assert (a + b)[k] == b[k - |a|];
        }
      }
    }
  }

  /** The rows of theater `i`: at most five, each a generated row. */
  lemma TheaterRowsGenerated(movieId: Id, theaterIds: seq<Id>, date: string, d: Draws, i: nat)
    requires DrawsFor(theaterIds, d) && i < |theaterIds|
    ensures var rows := TheaterRows(movieId, theaterIds[i], date, d.keep[i], d.slots[i], 5);
      && |rows| <= 5
      && forall k :: 0 <= k < |rows| ==> GeneratedRow(rows[k], movieId, theaterIds, date)
  {
    var keep, slots := d.keep[i], d.slots[i];
    TheaterRowsAreKeptSlots(movieId, theaterIds[i], date, keep, slots, 5);
    var rows := TheaterRows(movieId, theaterIds[i], date, keep, slots, 5);
    var ks := KeptSlots(keep, 5);
    forall k | 0 <= k < |rows|
      ensures GeneratedRow(rows[k], movieId, theaterIds, date)
    {
      SlotRowGenerated(movieId, theaterIds, i, date, ks[k], slots[ks[k]]);
    }
  }

  /** The rows given ids `start`, `start + 1`, … on insert. */
  function Numbered(rows: seq<Showtime>, start: Id): (r: seq<Showtime>)
    ensures |r| == |rows|
    ensures forall k :: 0 <= k < |r| ==> r[k] == rows[k].(id := start + k)
  {
    seq(|rows|, k requires 0 <= k < |rows| => rows[k].(id := start + k))
  }

  /** When nothing was there before, the closing re-query returns exactly the
      rows just generated. */
  lemma RequeryFindsGenerated(rows: seq<Showtime>, movieId: Id, theaterIds: seq<Id>, date: string, d: Draws, start: Id)
    requires DrawsFor(theaterIds, d)
    requires ShowtimesOf(rows, movieId, date) == []
    ensures var p := Numbered(Planned(movieId, theaterIds, date, d, |theaterIds|), start);
      ShowtimesOf(rows + p, movieId, date) == p
  {
    var p := Numbered(Planned(movieId, theaterIds, date, d, |theaterIds|), start);
    PlannedShape(movieId, theaterIds, date, d, |theaterIds|);
    ShowtimesOfAppend(rows, p, movieId, date);
    ShowtimesOfAllMatching(p, movieId, date);
  }

  /** The nested loops of `ensureShowtimesForMovie` that build the new rows:
      for each theater, for each of the five times, a row when its draw
      picks it. */
  method GenerateShowtimes(movieId: Id, theaterIds: seq<Id>, date: string, d: Draws)
    returns (rows: seq<Showtime>)
    requires DrawsFor(theaterIds, d)
    ensures rows == Planned(movieId, theaterIds, date, d, |theaterIds|)
    ensures |rows| <= 5 * |theaterIds|
    ensures forall k :: 0 <= k < |rows| ==> GeneratedRow(rows[k], movieId, theaterIds, date)
  {
    rows := [];
    var i := 0;
    while i < |theaterIds|
      invariant 0 <= i <= |theaterIds|
      invariant rows == Planned(movieId, theaterIds, date, d, i)
    {
      var j := 0;
      while j < 5
        invariant 0 <= j <= 5
        invariant rows == Planned(movieId, theaterIds, date, d, i)
                          + TheaterRows(movieId, theaterIds[i], date, d.keep[i], d.slots[i], j)
      {
        if d.keep[i][j] {
          rows := rows + [SlotRow(movieId, theaterIds[i], date, j, d.slots[i][j])];
        }
        j := j + 1;
      }
      assert rows == Planned(movieId, theaterIds, date, d, i + 1);
      i := i + 1;
    }
    PlannedShape(movieId, theaterIds, date, d, |theaterIds|);
  }

  // ---------------------------------------------------------------- bookings

  predicate ConfirmedFor(b: Booking, showtimeId: Id) {
    b.showtimeId == showtimeId && b.status == "confirmed"
  }

  /** `getBookedSeats`: the seat lists of the confirmed bookings of a
      showtime, concatenated in table order. */
  function BookedSeatsOf(bs: seq<Booking>, showtimeId: Id): seq<string>
  {
    if bs == [] then []
    else
      var last := bs[|bs| - 1];
      BookedSeatsOf(bs[..|bs| - 1], showtimeId) + (if ConfirmedFor(last, showtimeId) then last.seats else [])
  }

  /** A seat is reported booked exactly when some confirmed booking of that
      showtime holds it. */
  lemma {:induction false} BookedSeatsMembership(bs: seq<Booking>, showtimeId: Id, seat: string)
    ensures seat in BookedSeatsOf(bs, showtimeId) <==>
            exists i :: 0 <= i < |bs| && ConfirmedFor(bs[i], showtimeId) && seat in bs[i].seats
  {
    if bs != [] {
      var n := |bs| - 1;
      var front, last := bs[..n], bs[n];
      var tail := if ConfirmedFor(last, showtimeId) then last.seats else [];
      assert BookedSeatsOf(bs, showtimeId) == BookedSeatsOf(front, showtimeId) + tail;
      BookedSeatsMembership(front, showtimeId, seat);
      if seat in BookedSeatsOf(front, showtimeId) {
        var i :| 0 <= i < n && ConfirmedFor(front[i], showtimeId) && seat in front[i].seats;
        assert bs[i] == front[i];
      } else if seat in tail {
        assert ConfirmedFor(bs[n], showtimeId) && seat in bs[n].seats;
      }
      if exists i :: 0 <= i < |bs| && ConfirmedFor(bs[i], showtimeId) && seat in bs[i].seats {
        var i :| 0 <= i < |bs| && ConfirmedFor(bs[i], showtimeId) && seat in bs[i].seats;
        if i < n {
          assert front[i] == bs[i];
        } else {
          assert seat in tail;
        }
      }
    }
  }

  /** The total number of seats over the confirmed bookings of a showtime. */
  function SeatCount(bs: seq<Booking>, showtimeId: Id): nat
  {
    if bs == [] then 0
    else SeatCount(bs[..|bs| - 1], showtimeId) + (if ConfirmedFor(bs[|bs| - 1], showtimeId) then |bs[|bs| - 1].seats| else 0)
  }

  /** Duplicates are kept: every seat of every confirmed booking is listed. */
  lemma {:induction false} BookedSeatsLength(bs: seq<Booking>, showtimeId: Id)
    ensures |BookedSeatsOf(bs, showtimeId)| == SeatCount(bs, showtimeId)
  {
    if bs != [] {
      BookedSeatsLength(bs[..|bs| - 1], showtimeId);
    }
  }

  /** A new booking adds its seats at the end of the booked list of its
      showtime and leaves every other showtime's list alone. */
  lemma BookedSeatsAfterBooking(bs: seq<Booking>, b: Booking, showtimeId: Id)
    requires b.status == "confirmed"
    ensures BookedSeatsOf(bs + [b], showtimeId) ==
            BookedSeatsOf(bs, showtimeId) + (if b.showtimeId == showtimeId then b.seats else [])
  {
    assert (bs + [b])[..|bs|] == bs;
  }

  /** The bookings of a user, in table order. */
  function BookingsOf(bs: seq<Booking>, userId: string): (r: seq<Booking>)
    ensures |r| <= |bs|
    ensures forall b :: b in r <==> b in bs && b.userId == userId
  {
    if bs == [] then []
    else BookingsOf(bs[..|bs| - 1], userId) + (if bs[|bs| - 1].userId == userId then [bs[|bs| - 1]] else [])
  }

  function Reverse<T>(s: seq<T>): (r: seq<T>)
    ensures |r| == |s|
    ensures forall i :: 0 <= i < |s| ==> r[i] == s[|s| - 1 - i]
  {
    if s == [] then [] else Reverse(s[1..]) + [s[0]]
  }

  lemma ReverseReverse<T>(s: seq<T>)
    ensures Reverse(Reverse(s)) == s
  {
  }

  /** The show data joined to a booking row (`showtimes(show_time,
      screen_number, theaters(...), movies(...))`). */
  datatype ShowInfo = ShowInfo(showTime: string, screen: string, theater: Option<Theater>, movie: Option<Movie>)

  datatype BookingRow = BookingRow(booking: Booking, show: Option<ShowInfo>)

  /** The row an embedded join picks for a foreign key: the first row whose
      id column `key` holds `id`, or none when no row does. */
  function FindById<T>(rows: seq<T>, key: T -> Id, id: Id): (r: Option<T>)
    ensures r.Some? ==> r.value in rows && key(r.value) == id
    ensures r.None? ==> forall i :: 0 <= i < |rows| ==> key(rows[i]) != id
  {
    if rows == [] then None else if key(rows[0]) == id then Some(rows[0]) else FindById(rows[1..], key, id)
  }

  /** The `show_time` text of a row. */
  function ShowTimeText(s: Showtime): string {
    s.date + "T" + s.time + ":00"
  }

  // ---------------------------------------------------------------- favorites

  predicate FavoriteMatches(f: Favorite, userId: string, movieId: string) {
    f.userId == userId && f.movieId == movieId
  }

  function FavoriteCount(fs: seq<Favorite>, userId: string, movieId: string): (n: nat)
    ensures n <= |fs|
    ensures n == 0 <==> forall i :: 0 <= i < |fs| ==> !FavoriteMatches(fs[i], userId, movieId)
  {
    if fs == [] then 0
    else FavoriteCount(fs[..|fs| - 1], userId, movieId) + (if FavoriteMatches(fs[|fs| - 1], userId, movieId) then 1 else 0)
  }

  /** `delete().eq('user_id', u).eq('movie_id', m)`: every other row stays, in order. */
  function WithoutFavorite(fs: seq<Favorite>, userId: string, movieId: string): (r: seq<Favorite>)
    ensures FavoriteCount(r, userId, movieId) == 0
    ensures forall f :: f in r <==> f in fs && !FavoriteMatches(f, userId, movieId)
  {
    if fs == [] then []
    else
      var rest := WithoutFavorite(fs[..|fs| - 1], userId, movieId);
      var last := fs[|fs| - 1];
      if FavoriteMatches(last, userId, movieId) then rest
      else
        var r := rest + [last];
        assert r[..|r| - 1] == rest;
        r
  }

  lemma {:induction false} WithoutFavoriteUnmatched(fs: seq<Favorite>, userId: string, movieId: string)
    requires FavoriteCount(fs, userId, movieId) == 0
    ensures WithoutFavorite(fs, userId, movieId) == fs
  {
    if fs != [] {
      WithoutFavoriteUnmatched(fs[..|fs| - 1], userId, movieId);
      assert fs == fs[..|fs| - 1] + [fs[|fs| - 1]];
    }
  }

  /** Adding a favorite and then removing it gives back the table it was
      added to. */
  lemma FavoriteAddRemove(fs: seq<Favorite>, f: Favorite)
    requires FavoriteCount(fs, f.userId, f.movieId) == 0
    ensures FavoriteCount(fs + [f], f.userId, f.movieId) == 1
    ensures WithoutFavorite(fs + [f], f.userId, f.movieId) == fs
  {
    var t := fs + [f];
    assert t[..|t| - 1] == fs;
    WithoutFavoriteUnmatched(fs, f.userId, f.movieId);
  }

  // ---------------------------------------------------------------- search

  /** `ilike('title', '%q%')`, with ASCII case folding. */
  predicate TitleMatches(m: Movie, q: string) {
    m.title.Some? && (q == [] || IndexOfSub(ToLowerAscii(m.title.value), ToLowerAscii(q)).Some?)
  }

  function MatchingMovies(ms: seq<Movie>, q: string): (r: seq<Movie>)
    ensures forall m :: m in r <==> m in ms && TitleMatches(m, q)
  {
    if ms == [] then []
    else MatchingMovies(ms[..|ms| - 1], q) + (if TitleMatches(ms[|ms| - 1], q) then [ms[|ms| - 1]] else [])
  }

  // ---------------------------------------------------------------- the database

  class Database {
    var movies: seq<Movie>
    var theaters: seq<Theater>
    var showtimes: seq<Showtime>
    var bookings: seq<Booking>
    var favorites: seq<Favorite>
    /** The id the next inserted row receives. */
    var nextId: Id

    constructor ()
      ensures movies == [] && theaters == [] && showtimes == [] && bookings == [] && favorites == []
    {
      movies, theaters, showtimes, bookings, favorites := [], [], [], [], [];
      nextId := 1;
    }

    /** `seedTheaters`: when the count query reports theaters, nothing happens;
        when it fails, the count reads as missing and the seed goes ahead. A
        failed insert is only logged. */
    method SeedTheaters(countFails: bool, insertFails: bool)
      modifies this`theaters, this`nextId
      ensures !countFails && |old(theaters)| > 0 ==> theaters == old(theaters) && nextId == old(nextId)
      ensures (countFails || |old(theaters)| == 0) && insertFails ==> theaters == old(theaters) && nextId == old(nextId)
      ensures (countFails || |old(theaters)| == 0) && !insertFails ==>
                theaters == old(theaters) + DummyTheaters(old(nextId)) && nextId == old(nextId) + 7
    {
      if !countFails && |theaters| > 0 {
        return;
      }
      if !insertFails {
        theaters := theaters + DummyTheaters(nextId);
        nextId := nextId + 7;
      }
    }

    /** `ensureMovieExists`: the id of the one row with this OMDb id, or the id
        of a freshly inserted row. A failing lookup reads as "not found". */
    method EnsureMovieExists(o: OmdbMovie, lookupFails: bool, insertFails: bool) returns (r: Result<Id, string>)
      modifies this`movies, this`nextId
      ensures !lookupFails && UniqueMovie(old(movies), o.imdbId).Some? ==>
                r == Success(UniqueMovie(old(movies), o.imdbId).value.id) && movies == old(movies) && nextId == old(nextId)
      ensures (lookupFails || UniqueMovie(old(movies), o.imdbId).None?) && insertFails ==>
                r.Failure? && movies == old(movies) && nextId == old(nextId)
      ensures (lookupFails || UniqueMovie(old(movies), o.imdbId).None?) && !insertFails ==>
                r == Success(old(nextId)) && movies == old(movies) + [NewMovieRow(o, old(nextId))] && nextId == old(nextId) + 1
    {
      var existing := if lookupFails then None else UniqueMovie(movies, o.imdbId);
      if existing.Some? {
        return Success(existing.value.id);
      }
      if insertFails {
        return Failure(QueryError);
      }
      movies := movies + [NewMovieRow(o, nextId)];
      r := Success(nextId);
      nextId := nextId + 1;
    }

    /** `getMovieByOmdbId`: the single row, `null` when there is none, several, or an error. */
    function MovieByOmdbId(omdbId: string, fails: bool): (r: Option<Movie>)
      reads this
      ensures r.Some? ==> r.value in movies && r.value.omdbId == omdbId
      ensures !fails && CountOmdb(movies, omdbId) == 1 ==> r.Some?
    {
      if fails then None else UniqueMovie(movies, omdbId)
    }

    /** `fetchShowtimes`; an error is thrown. */
    function FetchShowtimes(movieId: Id, date: string, fails: bool): (r: Result<seq<Showtime>, string>)
      reads this
      ensures r.Success? ==> forall s :: s in r.value <==> s in showtimes && s.movieId == movieId && s.date == date
    {
      ShowtimesOfMembers(showtimes, movieId, date);
      if fails then Failure(QueryError) else Success(ShowtimesOf(showtimes, movieId, date))
    }

    /** `ensureShowtimesForMovie`: the showtimes already there for the movie
        and date, or else a fresh schedule (the nested loops below) inserted
        when non-empty, and then the re-query. */
    method EnsureShowtimesForMovie(movieId: Id, theaterIds: seq<Id>, date: string, d: Draws,
                                   firstQueryFails: bool, insertFails: bool, lastQueryFails: bool)
      returns (r: Result<seq<Showtime>, string>)
      requires DrawsFor(theaterIds, d)
      modifies this`showtimes, this`nextId
      ensures firstQueryFails ==> r.Failure? && showtimes == old(showtimes) && nextId == old(nextId)
      ensures !firstQueryFails && ShowtimesOf(old(showtimes), movieId, date) != [] ==>
                r == Success(ShowtimesOf(old(showtimes), movieId, date))
                && showtimes == old(showtimes) && nextId == old(nextId)
      ensures !firstQueryFails && ShowtimesOf(old(showtimes), movieId, date) == [] ==>
                var plan := Planned(movieId, theaterIds, date, d, |theaterIds|);
                var inserted := plan != [] && !insertFails;
                && showtimes == old(showtimes) + (if inserted then Numbered(plan, old(nextId)) else [])
                && nextId == old(nextId) + (if inserted then |plan| else 0)
                && r == (if lastQueryFails then Failure(QueryError) else Success(ShowtimesOf(showtimes, movieId, date)))
    {
      if firstQueryFails {
        return Failure(QueryError);
      }
      var existing := ShowtimesOf(showtimes, movieId, date);
      if |existing| > 0 {
        return Success(existing);
      }
      var newShowtimes := GenerateShowtimes(movieId, theaterIds, date, d);
      if |newShowtimes| > 0 && !insertFails {
        showtimes := showtimes + Numbered(newShowtimes, nextId);
        nextId := nextId + |newShowtimes|;
      }
      if lastQueryFails {
        return Failure(QueryError);
      }
      r := Success(ShowtimesOf(showtimes, movieId, date));
    }

    /** `fetchMoviesWithShowtimes(now)`: the movies with a showtime starting at
        or after `now` (an ISO timestamp); none when there is no such showtime. */
    function MoviesWithShowtimes(now: string, showtimesFail: bool, moviesFail: bool): (r: Result<seq<Movie>, string>)
      reads this
      ensures r.Success? ==> forall m :: m in r.value ==>
                m in movies && exists s :: s in showtimes && s.movieId == m.id && StringLe(now, ShowTimeText(s))
      ensures r.Success? ==>
                forall m, s :: m in movies && s in showtimes && s.movieId == m.id && StringLe(now, ShowTimeText(s)) ==> m in r.value
    {
      if showtimesFail then Failure(QueryError)
      else
        var ids := UpcomingMovieIds(showtimes, now);
        assert forall s :: s in showtimes && StringLe(now, ShowTimeText(s)) ==> s.movieId in ids;
        if ids == [] then Success([])
        else
          var unique := OrderedMap.Distinct(ids);
          if moviesFail then Failure(QueryError) else Success(MoviesWithIdIn(movies, unique))
    }

    /** `getBookedSeats`; an error is thrown. */
    function GetBookedSeats(showtimeId: Id, fails: bool): (r: Result<seq<string>, string>)
      reads this
      ensures r.Success? ==> forall seat :: seat in r.value <==>
                exists i :: 0 <= i < |bookings| && ConfirmedFor(bookings[i], showtimeId) && seat in bookings[i].seats
    {
      if fails then Failure(QueryError)
      else
        var seats := BookedSeatsOf(bookings, showtimeId);
        assert forall seat :: seat in seats <==>
                 exists i :: 0 <= i < |bookings| && ConfirmedFor(bookings[i], showtimeId) && seat in bookings[i].seats by {
          forall seat ensures seat in seats <==>
                 exists i :: 0 <= i < |bookings| && ConfirmedFor(bookings[i], showtimeId) && seat in bookings[i].seats {
            BookedSeatsMembership(bookings, showtimeId, seat);
          }
        }
        Success(seats)
    }

    /** `createBooking`: inserts a confirmed booking; an error is thrown. */
    method CreateBooking(userId: string, showtimeId: Id, seats: seq<string>, totalPrice: Option<int>, fails: bool)
      returns (r: Result<Booking, string>)
      modifies this`bookings, this`nextId
      ensures fails ==> r.Failure? && bookings == old(bookings) && nextId == old(nextId)
      ensures !fails ==> r == Success(Booking(old(nextId), userId, showtimeId, seats, totalPrice, "confirmed"))
                         && bookings == old(bookings) + [r.value] && nextId == old(nextId) + 1
      ensures !fails ==> BookedSeatsOf(bookings, showtimeId) == BookedSeatsOf(old(bookings), showtimeId) + seats
    {
      if fails {
        return Failure(QueryError);
      }
      var b := Booking(nextId, userId, showtimeId, seats, totalPrice, "confirmed");
      BookedSeatsAfterBooking(bookings, b, showtimeId);
      bookings := bookings + [b];
      nextId := nextId + 1;
      r := Success(b);
    }

    /** `getUserBookings`: the user's bookings, newest (latest inserted) first,
        each joined to its showtime, theater and movie. */
    function GetUserBookings(userId: string, fails: bool): (r: Result<seq<BookingRow>, string>)
      reads this
      ensures r.Success? ==> |r.value| == |BookingsOf(bookings, userId)|
      ensures r.Success? ==> forall k :: 0 <= k < |r.value| ==>
                r.value[k].booking == BookingsOf(bookings, userId)[|r.value| - 1 - k]
    {
      if fails then Failure(QueryError)
      else
        Success(Joined(Reverse(BookingsOf(bookings, userId))))
    }

    function Joined(bs: seq<Booking>): (r: seq<BookingRow>)
      reads this
      ensures |r| == |bs| && forall k :: 0 <= k < |bs| ==> r[k].booking == bs[k]
    {
      if bs == [] then [] else [BookingRow(bs[0], JoinShow(bs[0].showtimeId))] + Joined(bs[1..])
    }

    function JoinShow(showtimeId: Id): Option<ShowInfo>
      reads this
    {
      match FindById(showtimes, (s: Showtime) => s.id, showtimeId)
      case None => None
      case Some(s) =>
        Some(ShowInfo(ShowTimeText(s), s.screen, FindById(theaters, (t: Theater) => t.id, s.theaterId),
                      FindById(movies, (m: Movie) => m.id, s.movieId)))
    }

    /** `toggleFavorite`: when the lookup finds exactly one (user, movie) row,
        every such row is deleted and the answer is false; otherwise (none,
        several, or a failed lookup) a row is inserted and the answer is true.
        A failed write is thrown. */
    method ToggleFavorite(userId: string, movieId: string, title: Option<string>, lookupFails: bool, writeFails: bool)
      returns (r: Result<bool, string>)
      modifies this`favorites, this`nextId
      ensures writeFails ==> r.Failure? && favorites == old(favorites) && nextId == old(nextId)
      ensures !writeFails && !lookupFails && FavoriteCount(old(favorites), userId, movieId) == 1 ==>
                r == Success(false) && favorites == WithoutFavorite(old(favorites), userId, movieId)
                && nextId == old(nextId)
      ensures !writeFails && (lookupFails || FavoriteCount(old(favorites), userId, movieId) != 1) ==>
                r == Success(true) && favorites == old(favorites) + [Favorite(old(nextId), userId, movieId, title)]
                && nextId == old(nextId) + 1
      ensures r == Success(false) ==> !IsFavorite(userId, movieId, false)
      ensures r == Success(true) ==> IsFavorite(userId, movieId, false)
    {
      var found := !lookupFails && FavoriteCount(favorites, userId, movieId) == 1;
      if writeFails {
        return Failure(QueryError);
      }
      if found {
        favorites := WithoutFavorite(favorites, userId, movieId);
        return Success(false);
      }
      var f := Favorite(nextId, userId, movieId, title);
      var t := favorites + [f];
      assert t[..|t| - 1] == favorites;
      favorites := t;
      nextId := nextId + 1;
      r := Success(true);
    }

    /** `checkIsFavorite`: whether a (user, movie) row exists; false on error. */
    predicate IsFavorite(userId: string, movieId: string, fails: bool)
      reads this
    {
      !fails && FavoriteCount(favorites, userId, movieId) > 0
    }

    /** `searchMovies`: nothing for an empty query (the table is not asked);
        otherwise the rows whose title contains the query, in table order and
        cut to the first ten; nothing on error. */
    function SearchMovies(query: Option<string>, fails: bool): (r: seq<Movie>)
      reads this
      ensures |r| <= 10
      ensures forall m :: m in r ==> m in movies && query.Some? && TitleMatches(m, query.value)
      ensures !Truthy(query) || fails ==> r == []
      ensures Truthy(query) && !fails && |MatchingMovies(movies, query.value)| <= 10 ==>
                r == MatchingMovies(movies, query.value)
      ensures Truthy(query) && !fails && |MatchingMovies(movies, query.value)| > 10 ==>
                |r| == 10 && r == MatchingMovies(movies, query.value)[..10]
    {
      if !Truthy(query) then []
      else if fails then []
      else
        var all := MatchingMovies(movies, query.value);
        if |all| <= 10 then all
        else
          assert forall m :: m in all[..10] ==> m in all;
          all[..10]
    }
  }

  /** The `movie_id` of every showtime starting at or after `now`, in table order. */
  function UpcomingMovieIds(rows: seq<Showtime>, now: string): (ids: seq<Id>)
    ensures forall id :: id in ids <==> exists s :: s in rows && s.movieId == id && StringLe(now, ShowTimeText(s))
  {
    if rows == [] then []
    else
      var last := rows[|rows| - 1];
      var rest := UpcomingMovieIds(rows[..|rows| - 1], now);
      assert forall s :: s in rows <==> s in rows[..|rows| - 1] || s == last by {
        assert rows == rows[..|rows| - 1] + [last];
      }
      rest + (if StringLe(now, ShowTimeText(last)) then [last.movieId] else [])
  }

  /** `.in('id', ids)`: the movie rows whose id is listed, in table order. */
  function MoviesWithIdIn(ms: seq<Movie>, ids: seq<Id>): (r: seq<Movie>)
    ensures forall m :: m in r <==> m in ms && m.id in ids
  {
    if ms == [] then []
    else MoviesWithIdIn(ms[..|ms| - 1], ids) + (if ms[|ms| - 1].id in ids then [ms[|ms| - 1]] else [])
  }
}
