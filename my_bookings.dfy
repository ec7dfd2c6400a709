/** The "my bookings" page: the signed-in user's bookings, formatted for the
    ticket cards with their fallbacks, summed into the page's statistics and
    shown oldest first. */
module MyBookings {
  import opened Wrappers
  import opened JsText
  import BookingDb

  const UnknownMovie := "Unknown Movie"
  const PlaceholderPoster := "https://via.placeholder.com/300x450"
  const DefaultScreen := "Screen 1"

  /** A ticket card; `date` and `time` both carry the raw `show_time`. */
  datatype Card = Card(bookingId: BookingDb.Id, movieName: string, poster: string,
                       date: Option<string>, time: Option<string>, seats: seq<string>,
                       theater: Option<BookingDb.Theater>, totalPrice: Option<int>, screen: string)

  function MovieOf(row: BookingDb.BookingRow): Option<BookingDb.Movie> {
    if row.show.Some? then row.show.value.movie else None
  }

  function TitleOf(row: BookingDb.BookingRow): Option<string> {
    if MovieOf(row).Some? then MovieOf(row).value.title else None
  }

  function PosterOf(row: BookingDb.BookingRow): Option<string> {
    if MovieOf(row).Some? then MovieOf(row).value.posterPath else None
  }

  /** One booking row turned into a card: a missing or empty title, poster
      or screen falls back to its placeholder, so none of them is ever
      empty; everything else is copied. */
  function Format(row: BookingDb.BookingRow): (c: Card)
    ensures c.bookingId == row.booking.id && c.seats == row.booking.seats && c.totalPrice == row.booking.totalPrice
    ensures c.movieName != "" && c.poster != "" && c.screen != ""
    ensures Truthy(TitleOf(row)) ==> c.movieName == TitleOf(row).value
    ensures !Truthy(TitleOf(row)) ==> c.movieName == UnknownMovie
    ensures Truthy(PosterOf(row)) ==> c.poster == PosterOf(row).value
    ensures !Truthy(PosterOf(row)) ==> c.poster == PlaceholderPoster
    ensures row.show.None? ==> c.date.None? && c.theater.None? && c.screen == DefaultScreen
    ensures row.show.Some? ==> c.date == Some(row.show.value.showTime) && c.theater == row.show.value.theater
    ensures c.date == c.time
  {
    var show := row.show;
    Card(row.booking.id,
         OrElse(TitleOf(row), Some(UnknownMovie)).value,
         OrElse(PosterOf(row), Some(PlaceholderPoster)).value,
         if show.Some? then Some(show.value.showTime) else None,
         if show.Some? then Some(show.value.showTime) else None,
         row.booking.seats,
         if show.Some? then show.value.theater else None,
         row.booking.totalPrice,
         if show.Some? && show.value.screen != "" then show.value.screen else DefaultScreen)
  }

  function FormatAll(rows: seq<BookingDb.BookingRow>): (cs: seq<Card>)
    ensures |cs| == |rows| && forall i :: 0 <= i < |rows| ==> cs[i] == Format(rows[i])
  {
    seq(|rows|, i requires 0 <= i < |rows| => Format(rows[i]))
  }

  // ---------------------------------------------------------------- statistics

  /** `b.totalPrice || 0`. */
  function Amount(price: Option<int>): int {
    price.GetOr(0)
  }

  /** The left-to-right `reduce` adding up the amounts. */
  function SumPrices(ps: seq<Option<int>>): int
  {
    if ps == [] then 0 else SumPrices(ps[..|ps| - 1]) + Amount(ps[|ps| - 1])
  }

  /** The `totalPrice` of each of `xs`, in order. */
  function PricesOf<T>(xs: seq<T>, price: T -> Option<int>): (ps: seq<Option<int>>)
    ensures |ps| == |xs| && forall i :: 0 <= i < |xs| ==> ps[i] == price(xs[i])
  {
    seq(|xs|, i requires 0 <= i < |xs| => price(xs[i]))
  }

  function CardPrice(c: Card): Option<int> { c.totalPrice }

  function BookingPrice(b: BookingDb.Booking): Option<int> { b.totalPrice }

  function TotalSpent(cs: seq<Card>): int {
    SumPrices(PricesOf(cs, CardPrice))
  }

  lemma {:induction false} SumPricesAppend(a: seq<Option<int>>, b: seq<Option<int>>)
    ensures SumPrices(a + b) == SumPrices(a) + SumPrices(b)
    decreases |b|
  {
    if b == [] {
      assert a + b == a;
    } else {
      assert (a + b)[..|a + b| - 1] == a + b[..|b| - 1];
      SumPricesAppend(a, b[..|b| - 1]);
    }
  }

  /** The total does not depend on the order of the bookings, so it is the
      same before and after the list is reversed for display. */
  lemma {:induction false} SumPricesReverse(ps: seq<Option<int>>)
    ensures SumPrices(BookingDb.Reverse(ps)) == SumPrices(ps)
    decreases |ps|
  {
    if ps != [] {
      SumPricesReverse(ps[1..]);
      SumPricesAppend(BookingDb.Reverse(ps[1..]), [ps[0]]);
      SumPricesAppend([ps[0]], ps[1..]);
      assert [ps[0]] + ps[1..] == ps;
      assert [ps[0]][..0] == [];
    }
  }

  /** With no negative price, the total is never negative. */
  lemma {:induction false} SumPricesNonNegative(ps: seq<Option<int>>)
    requires forall i :: 0 <= i < |ps| && ps[i].Some? ==> ps[i].value >= 0
    ensures SumPrices(ps) >= 0
    decreases |ps|
  {
    if ps != [] {
      SumPricesNonNegative(ps[..|ps| - 1]);
    }
  }

  /** The statistics object: the initial one names a top theater, the one
      set after loading a placeholder top genre instead. */
  datatype Top = TopTheater(theater: string) | TopGenre(genre: string)

  datatype Stats = Stats(totalSpent: int, moviesWatched: nat, top: Top)

  const InitialStats := Stats(0, 0, TopTheater("N/A"))

  datatype Page = Page(bookings: seq<Card>, loading: bool, stats: Stats)

  /** The page after its effect has run: without a user nothing is fetched;
      a failed fetch is only logged; otherwise the statistics come from the
      formatted list and the list is shown reversed. */
  function Load(db: BookingDb.Database, user: Option<string>, fails: bool): Page
    reads db
  {
    if user.None? then Page([], false, InitialStats)
    else
      match db.GetUserBookings(user.value, fails)
      case Failure(_) => Page([], false, InitialStats)
      case Success(data) =>
        var cards := FormatAll(data);
        Page(BookingDb.Reverse(cards), false, Stats(TotalSpent(cards), |cards|, TopGenre("Action")))
  }

  /** Loading always ends; without a user or when the fetch fails, the page
      keeps its empty list and initial statistics. */
  lemma LoadWithoutData(db: BookingDb.Database, user: Option<string>, fails: bool)
    ensures !Load(db, user, fails).loading
    ensures user.None? || fails ==> Load(db, user, fails) == Page([], false, InitialStats)
  {
  }

  /** With the user's bookings fetched, the cards are the user's bookings in
      table order (the newest-first fetch, reversed), `moviesWatched` is
      their number and `totalSpent` the sum of their prices, a missing price
      counting as 0. */
  lemma LoadSpec(db: BookingDb.Database, user: string)
    ensures var p := Load(db, Some(user), false);
      var mine := BookingDb.BookingsOf(db.bookings, user);
      && |p.bookings| == |mine| == p.stats.moviesWatched
      && (forall i :: 0 <= i < |mine| ==> p.bookings[i].bookingId == mine[i].id && p.bookings[i].seats == mine[i].seats)
      && p.stats.totalSpent == SumPrices(PricesOf(mine, BookingPrice))
  {
    var mine := BookingDb.BookingsOf(db.bookings, user);
    var data := db.GetUserBookings(user, false).value;
    var cards := FormatAll(data);
    assert Load(db, Some(user), false) == Page(BookingDb.Reverse(cards), false, Stats(TotalSpent(cards), |cards|, TopGenre("Action")));
    CardsOfReversed(data, mine);
  }

  /** The cards of a fetch that holds `mine` newest first. */
  lemma CardsOfReversed(data: seq<BookingDb.BookingRow>, mine: seq<BookingDb.Booking>)
    requires |data| == |mine| && forall k :: 0 <= k < |data| ==> data[k].booking == mine[|data| - 1 - k]
    ensures var cards := FormatAll(data);
      && (forall i :: 0 <= i < |mine| ==> BookingDb.Reverse(cards)[i].bookingId == mine[i].id && BookingDb.Reverse(cards)[i].seats == mine[i].seats)
      && TotalSpent(cards) == SumPrices(PricesOf(mine, BookingPrice))
  {
    ReversedCardsMatch(data, mine);
    ReversedCardsTotal(data, mine);
  }

  lemma ReversedCardsMatch(data: seq<BookingDb.BookingRow>, mine: seq<BookingDb.Booking>)
    requires |data| == |mine| && forall k :: 0 <= k < |data| ==> data[k].booking == mine[|data| - 1 - k]
    ensures var cards := FormatAll(data);
      forall i :: 0 <= i < |mine| ==> BookingDb.Reverse(cards)[i].bookingId == mine[i].id && BookingDb.Reverse(cards)[i].seats == mine[i].seats
  {
    var cards := FormatAll(data);
    var n := |mine|;
    forall i | 0 <= i < n ensures BookingDb.Reverse(cards)[i].bookingId == mine[i].id && BookingDb.Reverse(cards)[i].seats == mine[i].seats {
      assert BookingDb.Reverse(cards)[i] == cards[n - 1 - i];
      assert data[n - 1 - i].booking == mine[n - 1 - (n - 1 - i)];
    }
  }

  lemma ReversedCardsTotal(data: seq<BookingDb.BookingRow>, mine: seq<BookingDb.Booking>)
    requires |data| == |mine| && forall k :: 0 <= k < |data| ==> data[k].booking == mine[|data| - 1 - k]
    ensures TotalSpent(FormatAll(data)) == SumPrices(PricesOf(mine, BookingPrice))
  {
    var cards := FormatAll(data);
    var n := |mine|;
    var ps, qs := PricesOf(cards, CardPrice), PricesOf(mine, BookingPrice);
    var rq := BookingDb.Reverse(qs);
    forall i | 0 <= i < n ensures ps[i] == rq[i] {
      assert ps[i] == cards[i].totalPrice == data[i].booking.totalPrice;
      assert rq[i] == qs[n - 1 - i] == mine[n - 1 - i].totalPrice;
    }
    assert ps == rq;
    SumPricesReverse(qs);
  }

  /** Only the reported amounts enter the total: a booking without a price
      adds nothing. */
  lemma MissingPriceAddsNothing(ps: seq<Option<int>>)
    ensures SumPrices(ps + [None]) == SumPrices(ps)
  {
    assert (ps + [None])[..|ps|] == ps;
  }
}
