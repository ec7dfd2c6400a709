/** The seat-selection page: the prices a movie's seats get from its id, the
    7 × 18 seat grid with its VIP rows, the selection the visitor builds, its
    total, and the hand-off of a booking to the data layer. */
module SeatLayout {
  import opened Wrappers
  import opened JsText
  import BookingDb

  // ---------------------------------------------------------------- prices

  const TwoTo31: int := 0x8000_0000
  const TwoTo32: int := 0x1_0000_0000

  /** ECMAScript ToInt32 on an integral number: the 32-bit two's-complement
      value congruent to it. */
  function ToInt32(x: int): (r: int)
    ensures -TwoTo31 <= r < TwoTo31
    ensures (x - r) % TwoTo32 == 0
  {
    (x + TwoTo31) % TwoTo32 - TwoTo31
  }

  /** `h << 5`: `h` goes through ToInt32 and the shifted value wraps to 32 bits. */
  function ShiftLeft5(h: int): (r: int)
    ensures -TwoTo31 <= r < TwoTo31
    ensures (ToInt32(h) * 32 - r) % TwoTo32 == 0
  {
    ToInt32(ToInt32(h) * 32)
  }

  /** One turn of the loop, `hash = c + ((hash << 5) - hash)`: only the shift
      wraps; the subtraction uses the previous value as it is. */
  function HashStep(h: int, c: CodeUnit): int {
    c + (ShiftLeft5(h) - h)
  }

  /** `hash` once the loop has read the code units `u`. */
  function HashOf(u: seq<CodeUnit>): int {
    if u == [] then 0 else HashStep(HashOf(u[..|u| - 1]), u[|u| - 1])
  }

  function Abs(x: int): nat { if x < 0 then -x else x }

  /** Each code unit adds less than 2^31 + 2^16 to the size of the hash, so for
      ids shorter than 2^21 code units every value stays below 2^53 and the
      double arithmetic of the source is exact. */
  lemma {:induction false} HashBound(u: seq<CodeUnit>)
    ensures Abs(HashOf(u)) <= |u| * (TwoTo31 + 0x1_0000)
  {
    if u != [] {
      HashBound(u[..|u| - 1]);
    }
  }

  /** JavaScript's `a % b` for `b > 0`: truncating, so the remainder takes the
      sign of `a`. */
  function JsRem(a: int, b: int): (r: int)
    requires b > 0
    ensures Abs(r) == Abs(a) % b
    ensures a >= 0 ==> r >= 0
    ensures a < 0 ==> r <= 0
  {
    if a >= 0 then a % b else -((-a) % b)
  }

  predicate IsStandard(tier: string) { tier == "standard" }

  /** The price for a non-empty id with this hash: `Math.abs(hash % range) + min`
      rounded up to a multiple of ten, with [180, 320] for "standard" and
      [350, 600] for every other type. */
  function PriceOfHash(hash: int, tier: string): int {
    var min := if IsStandard(tier) then 180 else 350;
    var max := if IsStandard(tier) then 320 else 600;
    var range := max - min;
    var normalized := Abs(JsRem(hash, range)) + min;
    CeilToTen(normalized)
  }

  /** `generatePrice(id, type)`; `id` is absent or a string, and `!id` holds
      for absent and empty ids. */
  function GeneratedPrice(id: Option<string>, tier: string): int {
    if !Truthy(id) then (if IsStandard(tier) then 250 else 400)
    else PriceOfHash(HashOf(ToUtf16(id.value)), tier)
  }

  /** `generatePrice`, running the hash loop over `id.charCodeAt(i)`. */
  method GeneratePrice(id: Option<string>, tier: string) returns (price: int)
    ensures price == GeneratedPrice(id, tier)
  {
    if !Truthy(id) {
      return if IsStandard(tier) then 250 else 400;
    }
    var units := ToUtf16(id.value);
    var hash := 0;
    var i := 0;
    while i < |units|
      invariant 0 <= i <= |units|
      invariant hash == HashOf(units[..i])
    {
      assert units[..i + 1][..i] == units[..i];
      hash := units[i] + (ShiftLeft5(hash) - hash);
      i := i + 1;
    }
    assert units[..i] == units;
    var min := if IsStandard(tier) then 180 else 350;
    var max := if IsStandard(tier) then 320 else 600;
    var range := max - min;
    var normalized := Abs(JsRem(hash, range)) + min;
    price := CeilToTen(normalized);
  }

  /** The three cases of `generatePrice`: 250 or 400 without an id; otherwise
      a multiple of ten in [180, 320] for "standard" and in [350, 600] for
      every other type. */
  lemma GeneratedPriceRange(id: Option<string>, tier: string)
    ensures var p := GeneratedPrice(id, tier);
      && (!Truthy(id) ==> p == if IsStandard(tier) then 250 else 400)
      && (Truthy(id) && IsStandard(tier) ==> p % 10 == 0 && 180 <= p <= 320)
      && (Truthy(id) && !IsStandard(tier) ==> p % 10 == 0 && 350 <= p <= 600)
  {
    if Truthy(id) {
      var h := HashOf(ToUtf16(id.value));
      var range := if IsStandard(tier) then 140 else 250;
      assert Abs(JsRem(h, range)) < range;
    }
  }

  /** Any type other than "standard" is priced as "vip". */
  lemma OtherTiersPriceAsVip(id: Option<string>, tier: string)
    requires tier != "standard"
    ensures GeneratedPrice(id, tier) == GeneratedPrice(id, "vip")
  {
  }

  /** The top of the standard range is reached: "01" hashes to 1537, which
      lands on 317 and rounds up to 320. */
  lemma StandardTopReachable()
    ensures GeneratedPrice(Some("01"), "standard") == 320
  {
    assert ToUtf16("01") == [48, 49] by {
      assert "01"[1..] == "1";
      assert ToUtf16("1") == [49];
    }
    assert HashOf([48]) == 48 by {
      assert [48][..0] == [];
    }
    assert [48, 49][..1] == [48];
    assert ShiftLeft5(48) == 1536 by {
      assert ToInt32(48) == 48;
      assert ToInt32(1536) == 1536;
    }
    assert HashOf([48, 49]) == 1537;
    assert JsRem(1537, 140) == 137;
    assert CeilToTen(317) == 320;
  }

  /** The top of the VIP range is reached: "FG" hashes to 2241, which lands on
      591 and rounds up to 600. */
  lemma VipTopReachable()
    ensures GeneratedPrice(Some("FG"), "vip") == 600
  {
    assert ToUtf16("FG") == [70, 71] by {
      assert "FG"[1..] == "G";
      assert ToUtf16("G") == [71];
    }
    assert HashOf([70]) == 70 by {
      assert [70][..0] == [];
    }
    assert [70, 71][..1] == [70];
    assert ShiftLeft5(70) == 2240 by {
      assert ToInt32(70) == 70;
      assert ToInt32(2240) == 2240;
    }
    assert HashOf([70, 71]) == 2241;
    assert JsRem(2241, 250) == 241;
    assert CeilToTen(591) == 600;
  }

  datatype Prices = Prices(standard: int, vip: int)

  /** A price read from a showtime row is used when it is a non-zero number. */
  predicate UsableNumber(x: Option<int>) { x.Some? && x.value != 0 }

  /** The prices the page settles on after it restored a showtime: when the
      row's standard price is the default 250 or is 0, both prices come from
      `generatePrice`; otherwise each row price is used when it is a non-zero
      number and the generated one replaces it when it is not. */
  function RestoredPrices(dbStandard: Option<int>, dbVip: Option<int>, id: Option<string>): (p: Prices)
    ensures dbStandard == Some(250) || dbStandard == Some(0) ==>
              p == Prices(GeneratedPrice(id, "standard"), GeneratedPrice(id, "vip"))
    ensures dbStandard != Some(250) && dbStandard != Some(0) ==>
              && p.standard == (if dbStandard.Some? then dbStandard.value else GeneratedPrice(id, "standard"))
              && p.vip == (if UsableNumber(dbVip) then dbVip.value else GeneratedPrice(id, "vip"))
  {
    var isDefault := dbStandard == Some(250) || dbStandard == Some(0);
    Prices(if !isDefault && UsableNumber(dbStandard) then dbStandard.value else GeneratedPrice(id, "standard"),
           if !isDefault && UsableNumber(dbVip) then dbVip.value else GeneratedPrice(id, "vip"))
  }

  /** For a showtime the data layer generated, the page keeps both row prices
      unless the standard one happens to be exactly 250. */
  lemma RestoredPricesOfGeneratedRow(row: BookingDb.Showtime, movieId: BookingDb.Id, theaterIds: seq<BookingDb.Id>,
                                     date: string, id: Option<string>)
    requires BookingDb.GeneratedRow(row, movieId, theaterIds, date)
    requires row.priceStandard != 250
    ensures RestoredPrices(Some(row.priceStandard), Some(row.priceVip), id) == Prices(row.priceStandard, row.priceVip)
  {
  }

  /** The prices shown on the page: those carried in from the movie page, or
      else the ones generated from the route's movie id. */
  function PagePrices(carried: Option<Prices>, routeId: Option<string>): (p: Prices)
    ensures carried.Some? ==> p == carried.value
    ensures carried.None? ==> p == Prices(GeneratedPrice(routeId, "standard"), GeneratedPrice(routeId, "vip"))
  {
    match carried
    case Some(c) => c
    case None => Prices(GeneratedPrice(routeId, "standard"), GeneratedPrice(routeId, "vip"))
  }

  /** Without carried prices the page charges a standard price that is a
      multiple of 10 in [180, 320] and a VIP price that is a multiple of 10
      in [350, 600], or 250 and 400 when the route has no id. */
  lemma PagePricesRange(carried: Option<Prices>, routeId: Option<string>)
    requires carried.None?
    ensures var p := PagePrices(carried, routeId);
      && (!Truthy(routeId) ==> p == Prices(250, 400))
      && (Truthy(routeId) ==>
            && p.standard % 10 == 0 && 180 <= p.standard <= 320
            && p.vip % 10 == 0 && 350 <= p.vip <= 600)
  {
    GeneratedPriceRange(routeId, "standard");
    GeneratedPriceRange(routeId, "vip");
  }

  // ---------------------------------------------------------------- the grid

  const Rows: nat := 7
  const ColsLeft: nat := 9
  const ColsRight: nat := 9
  const SeatsPerRow: nat := ColsLeft + ColsRight

  /** `String.fromCharCode(65 + rIndex)`. */
  function RowLabel(r: nat): char
    requires r < Rows
  {
    (65 + r) as char
  }

  /** The number on seat `colIndex` of a side: 1–9 on the left, 10–18 on the right. */
  function SeatNumber(colIndex: nat, left: bool): nat {
    if left then colIndex + 1 else colIndex + 10
  }

  function SeatId(row: char, num: nat): string {
    [row] + NatToString(num)
  }

  /** The seat in row `r` at position `c` (0–8 on the left, 9–17 on the right). */
  function GridSeat(r: nat, c: nat): string
    requires r < Rows && c < SeatsPerRow
  {
    SeatId(RowLabel(r), if c < ColsLeft then SeatNumber(c, true) else SeatNumber(c - ColsLeft, false))
  }

  /** Every seat the page renders, row by row, left side before right side. */
  function GridSeats(): (ids: seq<string>)
    ensures |ids| == Rows * SeatsPerRow
  {
    seq(Rows * SeatsPerRow, k requires 0 <= k < Rows * SeatsPerRow => GridSeat(k / SeatsPerRow, k % SeatsPerRow))
  }

  /** `rowLabel >= 'F'`. */
  predicate IsVipRow(row: char) { row >= 'F' }

  /** `seat.charAt(0) >= 'F'`. An empty id gives "", which is below "F"; a
      first character outside the 16-bit range is, like its leading
      surrogate, above it. */
  predicate IsVipSeat(seat: string) { |seat| > 0 && IsVipRow(seat[0]) }

  lemma SeatIdInjective(a: char, m: nat, b: char, n: nat)
    requires SeatId(a, m) == SeatId(b, n)
    ensures a == b && m == n
  {
    assert SeatId(a, m)[0] == a && SeatId(b, n)[0] == b;
    assert SeatId(a, m)[1..] == NatToString(m) && SeatId(b, n)[1..] == NatToString(n);
    NatToStringInjective(m, n);
  }

  /** The row label of position `k` of the grid. */
  function GridRow(k: nat): char
    requires k < Rows * SeatsPerRow
  {
    RowLabel(k / SeatsPerRow)
  }

  /** Seat `k` of the grid is in row `k / 18` and carries the number `k % 18 + 1`. */
  lemma GridSeatAt(k: nat)
    requires k < Rows * SeatsPerRow
    ensures GridSeats()[k] == SeatId(GridRow(k), k % SeatsPerRow + 1)
    ensures 1 <= k % SeatsPerRow + 1 <= 18
  {
  }

  /** The grid holds 126 different seat ids. */
  lemma GridSeatsDistinct()
    ensures |GridSeats()| == 126
    ensures forall i, j :: 0 <= i < j < |GridSeats()| ==> GridSeats()[i] != GridSeats()[j]
  {
    var g := GridSeats();
    forall i, j | 0 <= i < j < |g|
      ensures g[i] != g[j]
    {
      GridSeatAt(i);
      GridSeatAt(j);
      if g[i] == g[j] {
        SeatIdInjective(RowLabel(i / SeatsPerRow), i % SeatsPerRow + 1, RowLabel(j / SeatsPerRow), j % SeatsPerRow + 1);
      }
    }
  }

  /** A grid seat is VIP exactly when it is in row F or G, that is, among the
      last 36 of the 126. */
  lemma GridVipRule()
    ensures forall k :: 0 <= k < |GridSeats()| ==>
              (IsVipSeat(GridSeats()[k]) <==> IsVipRow(GridRow(k))) &&
              (IsVipSeat(GridSeats()[k]) <==> k >= 90)
  {
    forall k | 0 <= k < |GridSeats()|
      ensures (IsVipSeat(GridSeats()[k]) <==> IsVipRow(GridRow(k))) && (IsVipSeat(GridSeats()[k]) <==> k >= 90)
    {
      GridVipAt(k);
    }
  }

  lemma GridVipAt(k: nat)
    requires k < Rows * SeatsPerRow
    ensures (IsVipSeat(GridSeats()[k]) <==> IsVipRow(GridRow(k))) && (IsVipSeat(GridSeats()[k]) <==> k >= 90)
  {
    GridSeatAt(k);
    assert SeatsPerRow == 18;
    var row := k / 18;
    assert row >= 5 <==> k >= 90;
    assert GridRow(k) == RowLabel(row);
    assert SeatId(GridRow(k), k % SeatsPerRow + 1)[0] == GridRow(k);
  }

  /** How many of the seats are VIP seats. */
  function CountVip(seats: seq<string>): (n: nat)
    ensures n <= |seats|
  {
    if seats == [] then 0 else CountVip(seats[..|seats| - 1]) + (if IsVipSeat(seats[|seats| - 1]) then 1 else 0)
  }

  lemma {:induction false} CountVipFromIndex(seats: seq<string>, m: nat)
    requires forall k :: 0 <= k < |seats| ==> (IsVipSeat(seats[k]) <==> k >= m)
    ensures CountVip(seats) == if |seats| >= m then |seats| - m else 0
  {
    if seats != [] {
      var n := |seats| - 1;
      assert forall k :: 0 <= k < n ==> seats[..n][k] == seats[k];
      CountVipFromIndex(seats[..n], m);
    }
  }

  /** 36 of the grid's seats are VIP seats. */
  lemma GridVipCount()
    ensures CountVip(GridSeats()) == 36
  {
    GridVipRule();
    CountVipFromIndex(GridSeats(), 90);
  }

  // ---------------------------------------------------------------- selection

  const MaxSeats: nat := 6
  const LimitMessage := "You can only select up to 6 seats"

  /** `s.filter(x => x !== seat)`. */
  function Without(s: seq<string>, seat: string): (r: seq<string>)
    ensures seat !in r
    ensures forall x :: x in r <==> x in s && x != seat
    ensures |r| <= |s| && (seat in s ==> |r| < |s|)
  {
    if s == [] then [] else (if s[0] == seat then [] else [s[0]]) + Without(s[1..], seat)
  }

  lemma {:induction false} WithoutAbsent(s: seq<string>, seat: string)
    requires seat !in s
    ensures Without(s, seat) == s
  {
    if s != [] {
      WithoutAbsent(s[1..], seat);
    }
  }

  predicate Distinct(s: seq<string>) {
    forall i, j :: 0 <= i < j < |s| ==> s[i] != s[j]
  }

  lemma {:induction false} WithoutDistinct(s: seq<string>, seat: string)
    requires Distinct(s)
    ensures Distinct(Without(s, seat))
  {
    if s != [] {
      WithoutDistinct(s[1..], seat);
      var rest := Without(s[1..], seat);
      assert s[0] !in s[1..];
      assert s[0] !in rest;
    }
  }

  /** The outcome of `toggleSeat`: ignored (a booked seat), a new selection,
      or refused because six seats are already selected. */
  datatype Toggle = Ignored | Updated(seats: seq<string>) | LimitReached

  function ToggleSeat(selected: seq<string>, booked: seq<string>, seat: string): Toggle
  {
    if seat in booked then Ignored
    else if seat in selected then Updated(Without(selected, seat))
    else if |selected| >= MaxSeats then LimitReached
    else Updated(selected + [seat])
  }

  function Apply(t: Toggle, selected: seq<string>): seq<string> {
    if t.Updated? then t.seats else selected
  }

  /** What `toggleSeat` keeps true of the selection for a fixed booked list. */
  predicate ValidSelection(selected: seq<string>, booked: seq<string>) {
    && Distinct(selected) && |selected| <= MaxSeats
    && forall i :: 0 <= i < |selected| ==> selected[i] !in booked
  }

  /** `toggleSeat` keeps the selection free of duplicates, at most six long and
      clear of booked seats; a booked seat changes nothing, a selected seat is
      removed, and a free one is added at the end unless the limit is reached. */
  lemma ToggleKeepsValid(selected: seq<string>, booked: seq<string>, seat: string)
    requires ValidSelection(selected, booked)
    ensures var t := ToggleSeat(selected, booked, seat);
      && ValidSelection(Apply(t, selected), booked)
      && (seat in booked ==> Apply(t, selected) == selected)
      && (seat !in booked && seat in selected ==> seat !in Apply(t, selected) && |Apply(t, selected)| == |selected| - 1)
      && (seat !in booked && seat !in selected ==>
            Apply(t, selected) == (if |selected| < MaxSeats then selected + [seat] else selected))
  {
    if seat !in booked && seat in selected {
      WithoutDistinct(selected, seat);
      WithoutOfDistinctLength(selected, seat);
      var r := Without(selected, seat);
      assert forall i :: 0 <= i < |r| ==> r[i] in selected;
    }
  }

  lemma {:induction false} WithoutOfDistinctLength(s: seq<string>, seat: string)
    requires Distinct(s) && seat in s
    ensures |Without(s, seat)| == |s| - 1
  {
    if s[0] == seat {
      assert seat !in s[1..];
      WithoutAbsent(s[1..], seat);
    } else {
      WithoutOfDistinctLength(s[1..], seat);
    }
  }

  /** Toggling a free seat twice gives back the selection; toggling a selected
      seat twice moves it to the end. */
  lemma ToggleTwice(selected: seq<string>, booked: seq<string>, seat: string)
    requires ValidSelection(selected, booked) && seat !in booked
    ensures var once := Apply(ToggleSeat(selected, booked, seat), selected);
      && (seat !in selected ==> Apply(ToggleSeat(once, booked, seat), once) == selected)
      && (seat in selected ==> Apply(ToggleSeat(once, booked, seat), once) == Without(selected, seat) + [seat])
  {
    if seat !in selected && |selected| < MaxSeats {
      WithoutAppended(selected, seat);
    }
    if seat in selected {
      WithoutOfDistinctLength(selected, seat);
    }
  }

  lemma {:induction false} WithoutAppended(s: seq<string>, seat: string)
    requires seat !in s
    ensures Without(s + [seat], seat) == s
  {
    if s == [] {
      assert [seat][1..] == [];
    } else {
      assert (s + [seat])[1..] == s[1..] + [seat];
      WithoutAppended(s[1..], seat);
    }
  }

  // ---------------------------------------------------------------- totals

  /** `calculateTotal`: the seat prices added up from the left. */
  function TotalOf(seats: seq<string>, p: Prices): int {
    if seats == [] then 0
    else TotalOf(seats[..|seats| - 1], p) + (if IsVipSeat(seats[|seats| - 1]) then p.vip else p.standard)
  }

  /** The total is the VIP price per VIP seat plus the standard price per
      other seat. */
  lemma {:induction false} TotalByTier(seats: seq<string>, p: Prices)
    ensures TotalOf(seats, p) == p.vip * CountVip(seats) + p.standard * (|seats| - CountVip(seats))
  {
    if seats != [] {
      var init := seats[..|seats| - 1];
      TotalByTier(init, p);
      var c, n := CountVip(init), |init|;
      if IsVipSeat(seats[|seats| - 1]) {
        assert p.vip * (c + 1) == p.vip * c + p.vip;
        assert CountVip(seats) == c + 1 && |seats| - CountVip(seats) == n - c;
      } else {
        assert p.standard * (n - c + 1) == p.standard * (n - c) + p.standard;
        assert CountVip(seats) == c && |seats| - CountVip(seats) == n - c + 1;
      }
    }
  }

  /** Seats A3 and F1 at 210 and 460 cost 670 together. */
  lemma TotalExample()
    ensures TotalOf(["A3", "F1"], Prices(210, 460)) == 670
  {
    assert ["A3", "F1"][..1] == ["A3"];
    assert ["A3"][..0] == [];
  }

  /** What `handleBookTickets` did. */
  datatype BookOutcome = NothingSelected | LoginRequired | Booked(booking: BookingDb.Booking) | BookingFailed

  class SeatPicker {
    var selected: seq<string>
    var booked: seq<string>
    /** The last error message shown. */
    var notice: Option<string>

    /** The selection never holds a seat twice and never more than six. */
    ghost predicate Valid()
      reads this
    {
      Distinct(selected) && |selected| <= MaxSeats
    }

    constructor ()
      ensures Valid() && selected == [] && booked == [] && notice == None
    {
      selected, booked, notice := [], [], None;
    }

    /** `setBookedSeats` with the result of `getBookedSeats`. */
    method LoadBooked(seats: seq<string>)
      requires Valid()
      modifies this`booked
      ensures Valid() && booked == seats
    {
      booked := seats;
    }

    /** `toggleSeat(seat)`. */
    method Toggle(seat: string)
      requires Valid()
      modifies this`selected, this`notice
      ensures Valid()
      ensures selected == Apply(ToggleSeat(old(selected), booked, seat), old(selected))
      ensures notice == if ToggleSeat(old(selected), booked, seat).LimitReached? then Some(LimitMessage) else old(notice)
      ensures ValidSelection(old(selected), booked) ==> ValidSelection(selected, booked)
    {
      if seat in booked {
        return;
      }
      if seat in selected {
        WithoutDistinct(selected, seat);
        selected := Without(selected, seat);
      } else {
        if |selected| >= MaxSeats {
          notice := Some(LimitMessage);
          return;
        }
        selected := selected + [seat];
      }
      if ValidSelection(old(selected), booked) {
        ToggleKeepsValid(old(selected), booked, seat);
      }
    }

    /** `calculateTotal()`. */
    function Total(p: Prices): (t: int)
      reads this
      ensures t == p.vip * CountVip(selected) + p.standard * (|selected| - CountVip(selected))
    {
      TotalByTier(selected, p);
      TotalOf(selected, p)
    }

    /** `handleBookTickets`: nothing without a selection, a login prompt (and
        no data-layer call) without a user, and otherwise one confirmed
        booking of the selected seats at `calculateTotal()`, priced with the
        page's `prices` (the carried ones, or those generated from the route
        id). */
    method BookTickets(db: BookingDb.Database, user: Option<string>, showtimeId: BookingDb.Id,
                       carried: Option<Prices>, routeId: Option<string>, fails: bool)
      returns (o: BookOutcome)
      modifies db`bookings, db`nextId
      ensures selected == [] || user.None? || fails ==> db.bookings == old(db.bookings) && db.nextId == old(db.nextId)
      ensures selected == [] ==> o == NothingSelected
      ensures selected != [] && user.None? ==> o == LoginRequired
      ensures selected != [] && user.Some? && fails ==> o == BookingFailed
      ensures selected != [] && user.Some? && !fails ==>
                && o.Booked?
                && o.booking == BookingDb.Booking(old(db.nextId), user.value, showtimeId, selected, Some(Total(PagePrices(carried, routeId))), "confirmed")
                && db.bookings == old(db.bookings) + [o.booking] && db.nextId == old(db.nextId) + 1
                && BookingDb.BookedSeatsOf(db.bookings, showtimeId) == BookingDb.BookedSeatsOf(old(db.bookings), showtimeId) + selected
    {
      if |selected| == 0 {
        return NothingSelected;
      }
      if user.None? {
        return LoginRequired;
      }
      var prices := PagePrices(carried, routeId);
      var r := db.CreateBooking(user.value, showtimeId, selected, Some(Total(prices)), fails);
      if r.Failure? {
        return BookingFailed;
      }
      o := Booked(r.value);
    }
  }
}
