# Movie storefront core, modelled in Dafny

The storefront is a React app for browsing films, picking seats in a cinema
hall, checking out and keeping a list of favourites and bookings. Under its
screens sits a layer of integer and string logic, and this project models that
layer:

- the seat grid, the deterministic price hash and the seat-selection rules;
- the Supabase data layer: movies, theaters, showtimes, bookings and favourites;
- the checkout modal: input formatters, coupons, countdown, wallets and status;
- the list processing on the movie, release, detail and bookings pages;
- the two small parsers: the full-name splitter and the YouTube id extractor;
- the infinite trailer feed;
- the localStorage-backed mock of the Firebase auth and document store.

Modules follow the source files:

| module | models |
|---|---|
| `Wrappers` | `Option` and `Result` |
| `JsText` | the JavaScript string and number built-ins the core relies on: `trim`, `split(c)`, `split(s)`, `join`, `parseInt`, `toUpperCase`, `padStart(2, '0')`, `replace(/\D/g, '')`, `Number#toString`, `Math.ceil(n / 10) * 10`, truthiness and `||` on strings, and, in `ToUtf16`, the UTF-16 code units that `charCodeAt` and `length` count |
| `OrderedMap` | a JavaScript `Map`: `set` keeps a key's first position and overwrites its value; `Array.from(m.values())` |
| `BookingDb` | `src/lib/db.js`: the tables are fields of the `Database` class |
| `SeatLayout` | `src/pages/seatlayout.jsx`: `SeatPicker` holds the selection state |
| `PaymentModal` | `src/components/PaymentModal.jsx`: `Checkout` holds the modal state |
| `MoviesPage` | `src/pages/movies.jsx` |
| `ReleasesPage` | `src/pages/Releases.jsx` |
| `MovieDetail` | `src/pages/moviedetail.jsx` |
| `MyBookings` | `src/pages/mybookings.jsx` |
| `AuthContext` | `splitFullName` in `src/context/AuthContext.jsx` |
| `YouTube` | `getYouTubeId` in `src/components/TrailersSection.jsx` (the copy in `src/pages/MotionTrailers.jsx` is textually identical) |
| `MotionTrailers` | the trailer feed of `src/pages/MotionTrailers.jsx`, with `dummyTrailers` from `src/assets/assets.js` |
| `MockFirebase` | `src/config/mockFirebase.js`: `Store` holds the two localStorage dictionaries, the session and `auth.currentUser` |

Network, storage and randomness become inputs:

- A failing Supabase call is a `bool` parameter (`fails`, `lookupFails`, …) that selects the error path the code takes.
- Every `Math.random()` outcome is an injected value. For showtime generation these are the slot mask, the raw prices and the screen draw. For the mock auth they are the uid suffix and the random e-mail number.
- Every OMDb reply is a datatype value (`Answer`, `Reply`, `OmdbDetail`, `SearchHit`).
- Row ids and `created_at` order are the table's insertion order, with the next id held in `Database.nextId`.

JavaScript integers are unbounded here. The price hash is the one place where 32-bit behaviour matters, and it is written out there: only `hash << 5` wraps, through `ToInt32`, while the subtraction uses the unwrapped previous hash. `HashBound` shows the hash stays far below 2^53, so double arithmetic is exact for every id the app handles.

## Model

| member | source | states |
|---|---|---|
| `SeatLayout.ToInt32` | src/pages/seatlayout.jsx:20 | the result is a signed 32-bit value congruent to the input modulo 2^32 |
| `SeatLayout.ShiftLeft5` | src/pages/seatlayout.jsx:20 | `h << 5` is signed 32-bit and congruent to 32 × ToInt32(h) modulo 2^32 |
| `SeatLayout.HashBound` | src/pages/seatlayout.jsx:18-21 | the hash of n code units stays within n × (2^31 + 2^16) in magnitude |
| `SeatLayout.JsRem` | src/pages/seatlayout.jsx:29 | JavaScript's truncating `%`: its magnitude is \|a\| mod b and its sign follows a |
| `SeatLayout.GeneratePrice` | src/pages/seatlayout.jsx:14-33 | the imperative hash loop computes exactly the price function `GeneratedPrice` |
| `SeatLayout.GeneratedPriceRange` | src/pages/seatlayout.jsx:14-33 | a falsy id gives 250 for 'standard' and 400 otherwise; a standard price is a multiple of 10 in [180, 320]; any other tier's price is a multiple of 10 in [350, 600] |
| `SeatLayout.OtherTiersPriceAsVip` | src/pages/seatlayout.jsx:24-25 | every tier name other than 'standard' prices exactly like 'vip' |
| `SeatLayout.StandardTopReachable` | src/pages/seatlayout.jsx:28-32 | the standard top of 320 is reached (id "01"), because the ceiling lifts 311–319 |
| `SeatLayout.VipTopReachable` | src/pages/seatlayout.jsx:28-32 | the VIP top of 600 is reached (id "FG") |
| `SeatLayout.RestoredPrices` | src/pages/seatlayout.jsx:113-121 | a stored standard price of 250 or 0 counts as a default, and both prices are then generated; otherwise a stored standard price is kept, and a stored VIP price is kept when it is a non-zero number |
| `SeatLayout.RestoredPricesOfGeneratedRow` | src/pages/seatlayout.jsx:113-121 | a showtime generated by the data layer whose standard price is not 250 keeps both of its stored prices on the seat page (the rows of src/lib/db.js:124-129) |
| `SeatLayout.PagePrices` | src/pages/seatlayout.jsx:160 | the prices carried in from the detail page win; without them both prices are those `generatePrice` gives for the route id |
| `SeatLayout.PagePricesRange` | src/pages/seatlayout.jsx:160 | without carried prices the page charges a standard price that is a multiple of 10 in [180, 320] and a VIP price that is a multiple of 10 in [350, 600], or 250 and 400 when the route has no id |
| `SeatLayout.GridSeats` | src/pages/seatlayout.jsx:193-196 | the hall has 7 × 18 seat ids, the dimensions of lines 10-12 |
| `SeatLayout.SeatIdInjective` | src/pages/seatlayout.jsx:194-195 | distinct (row, number) pairs give distinct seat ids |
| `SeatLayout.GridSeatAt` | src/pages/seatlayout.jsx:193-196 | seat k is row 'A' + k / 18 and number k % 18 + 1: 1–9 on the left and 10–18 on the right, the aisle split of line 194 (left and right halves rendered at lines 327 and 332) |
| `SeatLayout.GridSeatsDistinct` | src/pages/seatlayout.jsx:193-196 | the grid has 126 pairwise distinct seat ids |
| `SeatLayout.GridVipRule` | src/pages/seatlayout.jsx:199-200 | a seat is VIP iff its row letter is ≥ 'F', i.e. iff it is one of the last 36 grid positions |
| `SeatLayout.GridVipAt` | src/pages/seatlayout.jsx:199-200 | grid seat k is VIP iff its row is a VIP row, iff k ≥ 90 |
| `SeatLayout.CountVipFromIndex` | src/pages/seatlayout.jsx:199-200 | when exactly the seats from position m on are VIP, there are \|seats\| − m VIP seats |
| `SeatLayout.GridVipCount` | src/pages/seatlayout.jsx:199-200 | the hall has 36 VIP seats |
| `SeatLayout.Without` | src/pages/seatlayout.jsx:150 | `filter(s => s !== seat)` removes every copy of the seat and keeps everything else |
| `SeatLayout.WithoutAbsent` | src/pages/seatlayout.jsx:150 | filtering out an absent seat changes nothing |
| `SeatLayout.WithoutDistinct` | src/pages/seatlayout.jsx:150 | filtering keeps a selection free of duplicates |
| `SeatLayout.WithoutOfDistinctLength` | src/pages/seatlayout.jsx:150 | removing a selected seat from a duplicate-free selection shortens it by exactly one |
| `SeatLayout.WithoutAppended` | src/pages/seatlayout.jsx:150-156 | removing a seat that was just appended restores the earlier selection |
| `SeatLayout.ToggleKeepsValid` | src/pages/seatlayout.jsx:146-158 | a booked seat leaves the selection unchanged; a selected seat is removed; an unselected seat is appended only while fewer than 6 are selected; no duplicates, at most 6 seats and no booked seat are all preserved |
| `SeatLayout.ToggleTwice` | src/pages/seatlayout.jsx:146-158 | toggling a free unselected seat twice restores the selection; toggling a selected seat twice moves it to the end |
| `SeatLayout.TotalByTier` | src/pages/seatlayout.jsx:162-168 | the total is vip × (seats whose first letter ≥ 'F') + standard × (the others), and 0 for no seats |
| `SeatLayout.TotalExample` | src/pages/seatlayout.jsx:162-168 | seats A3 and F1 at 210/460 cost 670 |
| `SeatLayout.SeatPicker.Total` | src/pages/seatlayout.jsx:162-168 | the picker's total is the tier count formula on its current selection |
| `SeatLayout.SeatPicker.Toggle` | src/pages/seatlayout.jsx:146-158 | the selection becomes the toggle's result, the limit notice is raised only when a seventh seat is refused, and a valid selection stays valid |
| `SeatLayout.SeatPicker.LoadBooked` | src/pages/seatlayout.jsx:135-144 | the booked seats are replaced by the fetched list |
| `SeatLayout.SeatPicker.BookTickets` | src/pages/seatlayout.jsx:160-191 | no seats or no user means no booking; a failed insert leaves the table unchanged; otherwise one confirmed booking with the selected seats and `calculateTotal()` at the page's prices (`PagePrices`) is appended, the next id advances by one, and its seats become booked |
| `BookingDb.DummyTheaters` | src/lib/db.js:18-28 | seeding inserts seven theaters with consecutive ids |
| `BookingDb.Database.SeedTheaters` | src/lib/db.js:14-30 | theaters are inserted only when the count query fails or finds none, and not when the insert fails |
| `BookingDb.CountOmdb` | src/lib/db.js:35-39 | the count is 0 iff no movie row carries the OMDb id |
| `BookingDb.UniqueMovie` | src/lib/db.js:35-41 | `maybeSingle()` yields a row iff exactly one row has the OMDb id |
| `BookingDb.GenreList` | src/lib/db.js:52 | genres are the comma-split, trimmed parts of Genre, or none when Genre is falsy; no genre contains a comma |
| `BookingDb.TrimAll` | src/lib/db.js:52 | each part is trimmed, in order |
| `BookingDb.NewMovieRow` | src/lib/db.js:43-56 | the inserted row carries the new id, the OMDb id and the poster as both poster and backdrop |
| `BookingDb.RuntimeOfMinutes` | src/lib/db.js:53 | a runtime of "n min" is stored as n |
| `BookingDb.EnsureMovieIdempotent` | src/lib/db.js:33-60 | after inserting a movie whose OMDb id was absent, the lookup finds exactly that row, so a second call inserts nothing |
| `BookingDb.Database.EnsureMovieExists` | src/lib/db.js:33-60 | an existing unique row's id is returned with no insert; otherwise one new row is appended and its id returned, or the insert error is raised |
| `BookingDb.Database.MovieByOmdbId` | src/lib/db.js:62-71 | a found movie has the OMDb id; a unique row is always found when the query succeeds |
| `BookingDb.ShowtimesOf` | src/lib/db.js:75-102 | the filter never returns more rows than the table holds |
| `BookingDb.ShowtimesOfMembers` | src/lib/db.js:75-102 | a row is returned iff it is in the table and has this movie and date |
| `BookingDb.ShowtimesOfAppend` | src/lib/db.js:75-102 | filtering distributes over appended rows |
| `BookingDb.ShowtimesOfAllMatching` | src/lib/db.js:75-102 | rows that all match are kept as they are |
| `BookingDb.Database.FetchShowtimes` | src/lib/db.js:75-102 | a successful query returns exactly the rows of the movie and date |
| `BookingDb.ScreenLabel` | src/lib/db.js:135 | screen labels are "Screen k" for 1 ≤ k ≤ 5 |
| `BookingDb.KeptSlots` | src/lib/db.js:113-118 | the picked slots, in increasing order, and every picked slot among them |
| `BookingDb.TheaterRowsAreKeptSlots` | src/lib/db.js:113-138 | a theater's generated rows are its picked slots in order, so their times are a subsequence of the five fixed times |
| `BookingDb.SlotRowGenerated` | src/lib/db.js:120-137 | one generated row carries the movie, the date, one of the theaters and one of the five times; its prices are multiples of 10 in [180, 350] and [400, 600]; its screen is 1–5 |
| `BookingDb.TheaterRowsGenerated` | src/lib/db.js:113-138 | one theater contributes at most five rows, each of the generated shape |
| `BookingDb.PlannedShape` | src/lib/db.js:112-139 | the nested loops produce at most 5 rows per theater, each of that shape |
| `BookingDb.GenerateShowtimes` | src/lib/db.js:112-139 | the nested loops build exactly the planned rows: at most 5 per theater, each of the generated shape |
| `BookingDb.Numbered` | src/lib/db.js:142-144 | inserted rows receive consecutive ids and are otherwise unchanged |
| `BookingDb.RequeryFindsGenerated` | src/lib/db.js:142-147 | when no showtime existed, the re-query after the insert returns exactly the inserted rows |
| `BookingDb.Database.EnsureShowtimesForMovie` | src/lib/db.js:107-148 | existing showtimes are returned with no insert; otherwise the planned rows are inserted unless there are none or the insert fails (that error is only logged), and the result is always the re-query |
| `BookingDb.UpcomingMovieIds` | src/lib/db.js:155-165 | the movie ids with a showtime at or after now |
| `BookingDb.MoviesWithIdIn` | src/lib/db.js:168-171 | exactly the movies whose id is in the list |
| `BookingDb.Database.MoviesWithShowtimes` | src/lib/db.js:151-175 | the movies returned are exactly those with an upcoming showtime |
| `BookingDb.BookedSeatsMembership` | src/lib/db.js:179-191 | a seat is booked iff some confirmed booking of the showtime lists it |
| `BookingDb.BookedSeatsLength` | src/lib/db.js:188-190 | the flattening keeps duplicates: its length is the sum of the bookings' seat counts |
| `BookingDb.BookedSeatsAfterBooking` | src/lib/db.js:188-208 | a new confirmed booking appends exactly its seats to its showtime's booked list |
| `BookingDb.Database.GetBookedSeats` | src/lib/db.js:179-191 | a successful query returns exactly the seats of the confirmed bookings of the showtime |
| `BookingDb.Database.CreateBooking` | src/lib/db.js:193-208 | one confirmed booking is appended, or nothing changes on error; the booked seats grow by exactly the new seats |
| `BookingDb.BookingsOf` | src/lib/db.js:210-227 | exactly the bookings of the user |
| `BookingDb.Reverse` | src/lib/db.js:223 | element i of the result is element n − 1 − i of the input |
| `BookingDb.ReverseReverse` | src/lib/db.js:223 | reversing twice restores the order, so the page shows the bookings in insertion order (the second reverse is src/pages/mybookings.jsx:53) |
| `BookingDb.Joined` | src/lib/db.js:214-221 | the join keeps every booking, in order |
| `BookingDb.FindById` | src/lib/db.js:214-221 | the embedded join of a booking to its showtime, and of the showtime to its theater and movie: a joined row has the foreign key's id, and none is joined exactly when no row has that id |
| `BookingDb.Database.GetUserBookings` | src/lib/db.js:210-227 | the user's bookings, newest first, each with its joined showtime |
| `BookingDb.FavoriteCount` | src/lib/db.js:264-273 | the count is 0 iff no favourite row matches the user and movie |
| `BookingDb.WithoutFavorite` | src/lib/db.js:245-250 | delete removes every matching row and keeps all others |
| `BookingDb.WithoutFavoriteUnmatched` | src/lib/db.js:245-250 | deleting an absent favourite changes nothing |
| `BookingDb.FavoriteAddRemove` | src/lib/db.js:241-261 | adding a favourite that was absent and then deleting it restores the table |
| `BookingDb.Database.ToggleFavorite` | src/lib/db.js:231-262 | a single existing row is deleted and false is returned; otherwise, including when the lookup errs, a row is added and true is returned; afterwards `checkIsFavorite` agrees with the result |
| `BookingDb.MatchingMovies` | src/lib/db.js:290-294 | exactly the movies whose title contains the query, ignoring ASCII case |
| `BookingDb.Database.SearchMovies` | src/lib/db.js:286-299 | a falsy query or a failed query returns nothing; otherwise at most 10 matching movies, all of them when there are at most 10 and exactly 10 when there are more (the model takes the first ten in table order; see Left out) |
| `PaymentModal.TwoDigits` | src/components/PaymentModal.jsx:80 | `padStart(2, '0')` of a number below 100 is its two decimal digits |
| `PaymentModal.FormatTimeShape` | src/components/PaymentModal.jsx:77-81 | below 6000 s the text is mm:ss with two-digit minutes and seconds |
| `PaymentModal.FormatTimeLong` | src/components/PaymentModal.jsx:77-81 | from 100 minutes on the minutes take more than two digits |
| `PaymentModal.FormatTimeStart` | src/components/PaymentModal.jsx:77-81 | the starting 600 s reads "10:00" (the timer starts at 600, line 13) |
| `PaymentModal.Take` | src/components/PaymentModal.jsx:126 | definition: `substring(0, n)` keeps the first n characters, or all of them |
| `PaymentModal.SpaceAfterFoursShape` | src/components/PaymentModal.jsx:127 | `replace(/(\d{4})/g, '$1 ')` groups in fours and adds a trailing space exactly when the length is a positive multiple of 4 |
| `PaymentModal.GroupedShape` | src/components/PaymentModal.jsx:127 | the grouped digits start and end with a digit, contain only digits and single separating spaces, and lose only the spaces when filtered |
| `PaymentModal.TrimTrailingSpace` | src/components/PaymentModal.jsx:127 | `trim` removes only the trailing space of a group run |
| `PaymentModal.FormatCardGroups` | src/components/PaymentModal.jsx:124-128 | the card field is the first 16 digits of the input, in groups of four with no trailing space |
| `PaymentModal.FormatCardProperties` | src/components/PaymentModal.jsx:124-128 | the card field has at most 19 characters, only digits and spaces; deleting the spaces gives the input's first 16 digits |
| `PaymentModal.FormatCardIdempotent` | src/components/PaymentModal.jsx:124-128 | reformatting a formatted card number changes nothing |
| `PaymentModal.FormatExpiryShape` | src/components/PaymentModal.jsx:132-137 | fewer than 2 digits are kept bare; otherwise the first two digits, '/', and up to two more; at most 5 characters |
| `PaymentModal.FormatExpiryIdempotent` | src/components/PaymentModal.jsx:132-137 | reformatting a formatted expiry changes nothing |
| `PaymentModal.FormatCvv` | src/components/PaymentModal.jsx:367 | the CVV is the first three digits of the input, or all of them when fewer |
| `PaymentModal.Discounted` | src/components/PaymentModal.jsx:83-105 | after upper-casing, MOVIE50 halves the amount (floor), WELCOME20 gives floor(0.8 × amount), and any other code is refused; a discount never raises the amount |
| `PaymentModal.CouponCaseInsensitive` | src/components/PaymentModal.jsx:84-95 | a code and its upper case give the same discounted amount, so lower- and mixed-case codes apply |
| `PaymentModal.Checkout.Open` | src/components/PaymentModal.jsx:40-59 | opening resets status, method, the fields, the wallet choice, the coupon state, the amount and the 600 s timer |
| `PaymentModal.Checkout.Close` | src/components/PaymentModal.jsx:68 | the modal is closed |
| `PaymentModal.Checkout.Tick` | src/components/PaymentModal.jsx:62-75 | ticks run only while open and idle; a positive timer drops by one, and at 0 the timer stays 0 and the modal closes; the timer never grows or goes negative |
| `PaymentModal.Checkout.TypeCoupon` | src/components/PaymentModal.jsx:260 | the coupon field holds the upper-cased text |
| `PaymentModal.Checkout.ApplyCoupon` | src/components/PaymentModal.jsx:83-105 | a recognised code replaces the amount by its discount and clears the error; any other code keeps the amount and sets 'Invalid Coupon Code'; callable only from the open, idle form before a coupon is applied (Apply button guard at line 255) |
| `PaymentModal.Checkout.TypeCardNumber` | src/components/PaymentModal.jsx:124-128 | the card field holds the formatted card number |
| `PaymentModal.Checkout.TypeExpiry` | src/components/PaymentModal.jsx:132-137 | the expiry field holds the formatted expiry |
| `PaymentModal.Checkout.TypeCvv` | src/components/PaymentModal.jsx:367 | the CVV field holds the filtered CVV |
| `PaymentModal.Checkout.ChooseMethod` | src/components/PaymentModal.jsx:9 | the payment method is the chosen one |
| `PaymentModal.Checkout.SelectWallet` | src/components/PaymentModal.jsx:27 | one of the four wallets becomes selected |
| `PaymentModal.Checkout.AddFunds` | src/components/PaymentModal.jsx:488-495 | the selected wallet's balance becomes amount + 100, the others are unchanged, and submit is then enabled (submit enabling at line 514); callable only from the open, idle form when the chosen wallet's balance is below the amount (button guard at line 481) |
| `PaymentModal.Checkout.Submit` | src/components/PaymentModal.jsx:108-110 | from the open, idle form with submit enabled (form at line 238, disabled guard at line 514), submitting sets status to processing and keeps the invariant |
| `PaymentModal.Checkout.Settle` | src/components/PaymentModal.jsx:113-114 | a processing payment succeeds |
| `PaymentModal.Checkout.Finish` | src/components/PaymentModal.jsx:116-119 | after success, `onSuccess` is called once and the modal closes |
| `MoviesPage.TransformDefaults` | src/pages/movies.jsx:101-108 | poster: Poster unless missing or "N/A", then image.original, then the placeholder; rating: imdbRating unless missing or "N/A", then rating.average, then "N/A"; year: Year, then the part of premiered before its first '-' (itself free of '-'), then "N/A"; actors: the ", "-split of Actors, whose pieces contain no ", " and join back to Actors, or [] |
| `MoviesPage.InsertPermutation` | src/pages/movies.jsx:58-63 | one insertion step adds exactly one element |
| `MoviesPage.SortPermutation` | src/pages/movies.jsx:58-63 | sorting returns a permutation of its input |
| `MoviesPage.FromOriginal` | src/pages/movies.jsx:58-63 | every element of a sub-multiset comes from the original |
| `MoviesPage.RankBound` | src/pages/movies.jsx:61-63 | an insertion keeps all ranks bounded by a later element's rank |
| `MoviesPage.OrderedAppend` | src/pages/movies.jsx:61-63 | appending an element ranked at least as high as everything keeps the order |
| `MoviesPage.InsertOrdered` | src/pages/movies.jsx:61-63 | inserting into an ordered list keeps it ordered |
| `MoviesPage.SortOrdered` | src/pages/movies.jsx:61-63 | the sort is ordered by rank |
| `MoviesPage.KeyAbsentAfter` | src/pages/movies.jsx:130 | a key absent before an insertion of another key stays absent |
| `MoviesPage.InsertDistinct` | src/pages/movies.jsx:130-131 | inserting a new key keeps keys distinct |
| `MoviesPage.SortDistinct` | src/pages/movies.jsx:130-131 | sorting keeps keys distinct |
| `MoviesPage.SortMoviesSpec` | src/pages/movies.jsx:58-72 | the sort is a permutation of its input; 'newest' gives non-increasing and 'oldest' non-decreasing parsed years; any other type keeps the original order |
| `MoviesPage.SortKeeps` | src/pages/movies.jsx:58-72 | any rank's sort is a permutation of its input and keeps distinct keys distinct |
| `MoviesPage.SortNewest` | src/pages/movies.jsx:60-61 | 'newest' is a permutation that keeps keys distinct and, when every year parses, orders years non-increasingly |
| `MoviesPage.SortOldest` | src/pages/movies.jsx:62-63 | 'oldest' is a permutation that keeps keys distinct and, when every year parses, orders years non-decreasingly |
| `MoviesPage.NewestOrdered` | src/pages/movies.jsx:60-61 | with every year parsed, the 'newest' sort lists years from latest to earliest |
| `MoviesPage.OldestOrdered` | src/pages/movies.jsx:62-63 | with every year parsed, the 'oldest' sort lists years from earliest to latest |
| `MoviesPage.Keys` | src/pages/movies.jsx:130 | the `_id` of each movie, in order |
| `MoviesPage.UniqueKeys` | src/pages/movies.jsx:130 | the Map dedupe gives one movie per key in the Map's key order, each being the last movie with that key (the same dedupe at line 188) |
| `MoviesPage.UniqueSpec` | src/pages/movies.jsx:130 | the dedupe yields distinct `_id`s, represents every input id, orders them by first occurrence and keeps each id's last movie (the same dedupe at line 188) |
| `MoviesPage.AppendedPage` | src/pages/movies.jsx:126-132 | appending a page keeps every old and every new id, once each |
| `MoviesPage.KeysKept` | src/pages/movies.jsx:185-191 | the initial load keeps every fetched id, once each |
| `MoviesPage.QueryToUse` | src/pages/movies.jsx:112 | a blank query is replaced by "Avengers", any other is sent as typed |
| `MoviesPage.QueryNeverBlank` | src/pages/movies.jsx:112 | the query sent is never blank |
| `MoviesPage.DefaultQueryTrimmed` | src/pages/movies.jsx:112 | the default query "Avengers" is not blank and trims to itself |
| `MoviesPage.TransformAll` | src/pages/movies.jsx:124 | each search result is transformed, in order |
| `MoviesPage.SearchSpec` | src/pages/movies.jsx:111-154 | a found page is shown, more pages exist iff it had exactly 10 results; a fresh search shows a permutation of the transformed page; an appended page keeps all ids once; other errors show no results (or keep the list when appending) and stop paging; the two key errors switch to TVMaze with a non-blank query |
| `MoviesPage.SearchFoundSpec` | src/pages/movies.jsx:121-136 | a found page is shown with no error, "Load more" iff it had 10 results; fresh: a permutation of the transformed page; appended: distinct ids covering the old list and the page |
| `MoviesPage.SearchOtherSpec` | src/pages/movies.jsx:137-151 | an ordinary refusal stops paging, emptying the list and showing the error for a fresh search and keeping the list when appending; the TVMaze fallback never gets a blank query |
| `MoviesPage.FoundPageSpec` | src/pages/movies.jsx:124-135 | the list after a page: the page rearranged, or with "Load more" one movie per id with every old and new id |
| `MoviesPage.FoundAppended` | src/pages/movies.jsx:126-132 | merging a page into the list and sorting gives distinct ids, keeps every old id and every id of the page |
| `MoviesPage.CollectedEmpty` | src/pages/movies.jsx:177-181 | the collected results are empty iff no page succeeded with results |
| `MoviesPage.InitialLoadFallback` | src/pages/movies.jsx:157-197 | the fallback list is shown iff no page produced a movie |
| `ReleasesPage.FetchMovies` | src/pages/Releases.jsx:126-141 | a "True" reply gives its results; anything else gives []; the limit flag is raised only for "Request limit reached!" |
| `ReleasesPage.Chain` | src/pages/Releases.jsx:153-158 | the second query's results are used only when the first returned none; the limit flag is raised if either query hit the limit |
| `ReleasesPage.Kept` | src/pages/Releases.jsx:167 | only items that exist and have a truthy `imdbID` are kept |
| `ReleasesPage.IdsOf` | src/pages/Releases.jsx:167 | the `imdbID` of each kept item, in order |
| `ReleasesPage.UniqueMovies` | src/pages/Releases.jsx:164-170 | the `forEach` loop builds exactly the Map dedupe of the kept items |
| `ReleasesPage.KeptSpec` | src/pages/Releases.jsx:166-167 | every item with an id is kept, and nothing is kept that was not an input item |
| `ReleasesPage.UniqueMoviesSpec` | src/pages/Releases.jsx:164-170 | the output holds only input items with ids; the ids are distinct; every input id is represented; the order is by first occurrence; each value is its id's last occurrence |
| `ReleasesPage.DedupeEmpty` | src/pages/Releases.jsx:164-170 | the dedupe is empty iff no item has an id |
| `ReleasesPage.LoadAllSpec` | src/pages/Releases.jsx:143-190 | each section is its deduped chain result, or its curated fallback when that is empty; the new-releases fallback is the 12 curated films; no section is ever empty; the error banner shows iff some query hit the limit |
| `MovieDetail.MovieDataSpec` | src/pages/moviedetail.jsx:50-62 | a Poster of "N/A" yields placeholders for both poster and backdrop, otherwise both are Poster; runtime is `parseInt` or 0; language is the first comma part or "EN"; genres are {id: index, name: trimmed part} |
| `MovieDetail.RuntimeOfMinutes` | src/pages/moviedetail.jsx:57 | "n min" gives runtime n |
| `MovieDetail.FirstGenre` | src/pages/moviedetail.jsx:97 | "Action" when Genre is falsy; otherwise a comma-free part of the Genre text |
| `MovieDetail.FirstGenreIsFirstListed` | src/pages/moviedetail.jsx:97 | the related search uses the name of the first listed genre (the genre list of line 61) |
| `MovieDetail.OtherMovies` | src/pages/moviedetail.jsx:103 | exactly the hits whose id differs from the current movie |
| `MovieDetail.OtherMoviesOrder` | src/pages/moviedetail.jsx:103 | the filter preserves search order: it distributes over concatenation |
| `MovieDetail.Related` | src/pages/moviedetail.jsx:102-110 | at most 5 cards, the first of the other movies in order, none of them the current one |
| `MovieDetail.OfTheater` | src/pages/moviedetail.jsx:361-364 | a theater's times are showtimes of that theater, taken from the input |
| `MovieDetail.OfTheaterHas` | src/pages/moviedetail.jsx:361-364 | every showtime is among its theater's times |
| `MovieDetail.OfTheaterAbsent` | src/pages/moviedetail.jsx:361-364 | a theater without showtimes has no times |
| `MovieDetail.PushKeys` | src/pages/moviedetail.jsx:362 | after a step, the groups are keyed by exactly the theaters seen so far |
| `MovieDetail.PushTimes` | src/pages/moviedetail.jsx:363 | after a step, every group's times are its theater's showtimes in input order |
| `MovieDetail.PushFirst` | src/pages/moviedetail.jsx:362 | a group's theater is that of its first showtime |
| `MovieDetail.PushGrouped` | src/pages/moviedetail.jsx:361-364 | one reduce step preserves the grouping invariant |
| `MovieDetail.GroupByTheater` | src/pages/moviedetail.jsx:361-364 | the reduce groups all showtimes by theater id, each group in input order |
| `MovieDetail.GroupsPartition` | src/pages/moviedetail.jsx:361-364 | every showtime is in its own theater's group, and every group member is an input showtime of that theater |
| `MovieDetail.BuyTicketPrices` | src/pages/moviedetail.jsx:238-239 | VIP = standard + 150 |
| `MovieDetail.HandleToggleFavorite` | src/pages/moviedetail.jsx:132-147 | without a user or a movie nothing is called; otherwise the data-layer toggle runs and the displayed status agrees with `checkIsFavorite` |
| `MyBookings.Format` | src/pages/mybookings.jsx:32-42 | id, seats and price are copied; the title defaults to "Unknown Movie", the poster to the placeholder and the screen to "Screen 1"; date and time are both `show_time` |
| `MyBookings.FormatAll` | src/pages/mybookings.jsx:32 | definition: each booking is formatted, in order |
| `MyBookings.PricesOf` | src/pages/mybookings.jsx:45 | definition: the `totalPrice` of each card or booking, in order, that the `reduce` adds up |
| `MyBookings.SumPricesAppend` | src/pages/mybookings.jsx:45 | the total is additive over concatenation |
| `MyBookings.SumPricesReverse` | src/pages/mybookings.jsx:45-53 | the total does not depend on order |
| `MyBookings.SumPricesNonNegative` | src/pages/mybookings.jsx:45 | non-negative prices give a non-negative total |
| `MyBookings.MissingPriceAddsNothing` | src/pages/mybookings.jsx:45 | a missing price counts as 0 |
| `MyBookings.LoadWithoutData` | src/pages/mybookings.jsx:18-58 | loading always ends; without a user, or when the query fails, the page keeps its empty initial state |
| `MyBookings.LoadSpec` | src/pages/mybookings.jsx:26-59 | the page lists every booking of the user in insertion order; movies watched is their number, and total spent is the sum of their prices |
| `MyBookings.CardsOfReversed` | src/pages/mybookings.jsx:45-53 | reversing the newest-first cards gives the bookings in insertion order, with the same total |
| `MyBookings.ReversedCardsMatch` | src/pages/mybookings.jsx:45-53 | reversed card i carries the id and seats of booking i |
| `MyBookings.ReversedCardsTotal` | src/pages/mybookings.jsx:45-53 | the reversed cards' prices sum to the bookings' total |
| `AuthContext.SeveralPartsIffSpace` | src/context/AuthContext.jsx:40-42 | `split(' ')` gives more than one part iff the text has a space |
| `AuthContext.SplitFullNameSpec` | src/context/AuthContext.jsx:39-44 | firstName is the trimmed text before its first space and has no space; lastName is everything after that space, repeated spaces included; with no space, lastName is "" |
| `AuthContext.SplitFullNameRoundTrip` | src/context/AuthContext.jsx:39-44 | when there is a space, firstName + " " + lastName is the trimmed name; otherwise firstName is the trimmed name |
| `YouTube.MarkerAtStart` | src/components/TrailersSection.jsx:7 | the length of the marker alternative that matches at this position, if any; the `.` of `youtu.be` takes one code unit, so only a BMP character other than a line terminator |
| `YouTube.MarkerLength` | src/components/TrailersSection.jsx:7 | a marker never runs past the end of the URL |
| `YouTube.LineEnd` | src/components/TrailersSection.jsx:7 | `^.*` can only reach the first line terminator |
| `YouTube.LastMarkerFrom` | src/components/TrailersSection.jsx:7 | the greedy `.*` backtracks to the last marker start at or before the line end |
| `YouTube.IdRun` | src/components/TrailersSection.jsx:7 | `[^#&?]*` takes the longest run without '#', '&' or '?' |
| `YouTube.GetYouTubeId` | src/components/TrailersSection.jsx:5-10 | a falsy URL gives null; a result has a `length` of exactly 11 UTF-16 code units (so at most 11 characters) and has no '#', '&' or '?' (src/pages/MotionTrailers.jsx:8-13 is the same function) |
| `YouTube.IdAfter` | src/components/TrailersSection.jsx:7-9 | the run after a marker is the id only if its `length` is exactly 11 code units, without '#', '&' or '?' |
| `YouTube.GetYouTubeIdSpec` | src/components/TrailersSection.jsx:5-10 | no marker before the line end gives null; otherwise the id is the run after the last marker, if its `length` is 11 code units |
| `YouTube.NoMarkerNoId` | src/components/TrailersSection.jsx:7-8 | with no marker before the line end the URL gives null |
| `YouTube.GreedyMatchId` | src/components/TrailersSection.jsx:7-8 | the id is read after the marker the greedy match settles on |
| `YouTube.MarkerIdRun` | src/components/TrailersSection.jsx:7-8 | when a marker at p is the last one, the result is the run after p |
| `YouTube.SkipNoMarker` | src/components/TrailersSection.jsx:7 | positions without a marker do not change the last marker |
| `YouTube.PlainNoMarker` | src/components/TrailersSection.jsx:7 | no marker starts at a character that begins no marker |
| `YouTube.TrailingId` | src/components/TrailersSection.jsx:5-10 | a one-line URL ending in a marker and then id characters 11 code units long, with no later marker, yields those characters |
| `YouTube.MarkerShift` | src/components/TrailersSection.jsx:7 | marker matching at a position depends only on the text from there on |
| `YouTube.ShortPrefixMarkers` | src/components/TrailersSection.jsx:7 | in "https://youtu.be/" the last marker is `youtu.be/` (the prefix of src/assets/assets.js:22) |
| `YouTube.WatchPrefixMarkers` | src/components/TrailersSection.jsx:7 | in "https://www.youtube.com/watch?v=" the last marker is `watch?v=` (the prefix of src/assets/assets.js:26) |
| `YouTube.LinkId` | src/components/TrailersSection.jsx:5-10 | a prefix ending in its last marker, followed by a clean id (11 code units), yields that id |
| `YouTube.ShortLinkId` | src/components/TrailersSection.jsx:5-10 | every short youtu.be link with a clean id of 11 code units yields the id |
| `YouTube.WatchLinkId` | src/components/TrailersSection.jsx:5-10 | every watch?v= link with a clean id of 11 code units yields the id |
| `YouTube.PlainIdClean` | src/components/TrailersSection.jsx:7-9 | an id of 11 plain characters, each one code unit, is clean |
| `YouTube.BmpIdClean` | src/components/TrailersSection.jsx:7-9 | 11 allowed one-code-unit characters that start no marker make a clean id |
| `YouTube.AstralHeadClean` | src/components/TrailersSection.jsx:7-9 | one plain character outside the BMP (two code units) and nine plain BMP characters make a clean id |
| `YouTube.AstralIdClean` | src/components/TrailersSection.jsx:7-9 | '\u{1F600}abcdfghij' is clean: ten characters, 11 code units |
| `YouTube.AstralShortLinkId` | src/components/TrailersSection.jsx:5-10 | 'https://youtu.be/\u{1F600}abcdfghij' yields its ten-character id, because `length` counts the emoji twice |
| `YouTube.FirstSampleId` | src/assets/assets.js:20-23 | 'https://youtu.be/WpW36ldAqnM' gives 'WpW36ldAqnM' |
| `YouTube.SecondSampleId` | src/assets/assets.js:24-27 | '…watch?v=-sAOWhvheK8' gives '-sAOWhvheK8' |
| `YouTube.ThirdSampleId` | src/assets/assets.js:28-31 | '…watch?v=1pHDWnXmK7Y' gives '1pHDWnXmK7Y' |
| `YouTube.FourthSampleId` | src/assets/assets.js:32-35 | '…watch?v=umiKiW4En9g' gives 'umiKiW4En9g' |
| `YouTube.FifthSampleId` | src/assets/assets.js:36-39 | '…watch?v=aWzlQ2N6qqg' gives 'aWzlQ2N6qqg' |
| `MotionTrailers.SamplePlayable` | src/assets/assets.js:19-40 | every sample trailer's video has an id, and its image is that id's thumbnail |
| `MotionTrailers.SamplesRepeat` | src/assets/assets.js:19-40 | the sample list is one period of the feed pattern |
| `MotionTrailers.Extend` | src/pages/MotionTrailers.jsx:166-171 | near the end (index ≥ length − 2) the five samples are appended; otherwise the list is unchanged; the old list always stays a prefix |
| `MotionTrailers.ExtendRepeats` | src/pages/MotionTrailers.jsx:166-171 | extending keeps the feed a repetition of the five samples |
| `MotionTrailers.AppendSamplesRepeats` | src/pages/MotionTrailers.jsx:166-171 | appending the five samples to a repetition of them gives a repetition |
| `MotionTrailers.ModShift` | src/pages/MotionTrailers.jsx:170 | positions shift by whole periods of five |
| `MotionTrailers.RepeatsPlayable` | src/pages/MotionTrailers.jsx:166-171 | every trailer in the feed has a playable id |
| `MotionTrailers.Feed.HandleScroll` | src/pages/MotionTrailers.jsx:159-172 | the active index becomes the scrolled index, updated only when it differs; the feed is extended near its end and stays a repetition of the samples |
| `MockFirebase.Doc` | src/config/mockFirebase.js:101-103 | definition: the path is collection + "/" + id and the id is kept |
| `MockFirebase.DocInjective` | src/config/mockFirebase.js:101-103 | for slash-free collection names, distinct (collection, id) pairs give distinct paths |
| `MockFirebase.FirstSlash` | src/config/mockFirebase.js:101-103 | the path's first slash separates the collection from the id (also used at line 115) |
| `MockFirebase.Read` | src/config/mockFirebase.js:122-133 | `exists()` iff the stored value is a truthy object; a path never set has no data |
| `MockFirebase.ReadAfterWrite` | src/config/mockFirebase.js:105-133 | after a write, the path reads back the data written and other paths are unchanged |
| `MockFirebase.ReadNeverWritten` | src/config/mockFirebase.js:122-133 | an empty store reports `exists()` false |
| `MockFirebase.Indexed` | src/config/mockFirebase.js:115-119 | the user index gains the entry under its email key, with uid = the document id, and other entries are unchanged |
| `MockFirebase.IndexedValid` | src/config/mockFirebase.js:115-119 | indexing keeps every entry under its own email |
| `MockFirebase.FindUser` | src/config/mockFirebase.js:41 | a found entry is an index entry with that email |
| `MockFirebase.FindUserComplete` | src/config/mockFirebase.js:41 | an entry with the email is found, and nothing found means no entry has it |
| `MockFirebase.IndexedUserIsTaken` | src/config/mockFirebase.js:115-119 | after a users/ document is written, its email is taken and sign-in finds its entry (the index of lines 18-23) |
| `MockFirebase.Store.SetDoc` | src/config/mockFirebase.js:105-120 | the store is written at the path; a users/ path also indexes the data, and null data there raises a TypeError after the store is written |
| `MockFirebase.Store.CreateUser` | src/config/mockFirebase.js:13-33 | fails with 'auth/email-already-in-use' iff the email is indexed; otherwise a new user with an empty name becomes the session and `currentUser`, and the index is not touched; the store invariant is kept |
| `MockFirebase.Store.SignIn` | src/config/mockFirebase.js:35-55 | always succeeds; the uid and name come from the matching entry, else a random uid and 'Demo User'; the session and `currentUser` are set; the store invariant is kept |
| `MockFirebase.Store.SignInWithPopup` | src/config/mockFirebase.js:61-78 | a Google user with a random `@gmail.com` address and the default photo becomes the session and `currentUser` |
| `MockFirebase.Store.SignOut` | src/config/mockFirebase.js:87-91 | the session is cleared and `currentUser` is null |
| `MockFirebase.Store.UpdateProfile` | src/config/mockFirebase.js:93-97 | the user object's name changes in place and the session is rewritten from it |
| `OrderedMap.Values` | src/pages/movies.jsx:130 | definition: `values()` lists the values in key order |
| `OrderedMap.FromPairsValid` | src/pages/movies.jsx:130 | building a Map from pairs gives exactly the keys of the pairs, once each |
| `OrderedMap.FromPairsValues` | src/pages/movies.jsx:130 | each key holds the value of its last pair |
| `OrderedMap.FromPairsOrder` | src/pages/movies.jsx:130 | keys are in the order of their first occurrence |
| `OrderedMap.DedupeValuesSpec` | src/pages/Releases.jsx:164-170 | the deduped values are one per distinct key, ordered by first occurrence, each being the key's last value (the same Map dedupe as src/pages/movies.jsx:130) |
| `OrderedMap.Distinct` | src/lib/db.js:165 | the distinct ids, in first-occurrence order, covering every id |
| `JsText.OrElse` | src/pages/mybookings.jsx:34-35 | `a \|\| b` on strings gives a when it is truthy, else b |
| `JsText.Trim` | src/context/AuthContext.jsx:40 | the result has no leading or trailing white space |
| `JsText.TrimSpec` | src/context/AuthContext.jsx:40 | only white space is removed: the trimmed text is the slice of the text after its leading white space, and everything after that slice is white space |
| `JsText.TrimKeepsCharacters` | src/context/AuthContext.jsx:40 | every character of the trimmed text is a character of the text (used for the `split(',')` parts that `ensureMovieExists` and the detail page trim) |
| `JsText.Split` | src/context/AuthContext.jsx:40 | `split(c)` gives at least one part, none containing c |
| `JsText.JoinSplit` | src/context/AuthContext.jsx:40-42 | joining the parts of a split with the separator gives the text back |
| `JsText.SplitOn` | src/pages/movies.jsx:107 | `split(', ')` gives at least one part, none containing ", " |
| `JsText.JoinOnSplitOn` | src/pages/movies.jsx:107 | joining the parts of `split(', ')` with ", " gives the text back |
| `JsText.Digits` | src/components/PaymentModal.jsx:125 | `replace(/\D/g, '')` keeps only digits |
| `JsText.DigitsAppend` | src/components/PaymentModal.jsx:125 | the digit filter distributes over concatenation |
| `JsText.NatToString` | src/components/PaymentModal.jsx:80 | a decimal numeral without leading zeros |
| `JsText.DecimalValueOfNatToString` | src/components/PaymentModal.jsx:80 | the numeral reads back as the number |
| `JsText.ParseIntOfNatToString` | src/lib/db.js:53 | `parseInt` of a numeral followed by a non-digit reads back the number (also src/pages/moviedetail.jsx:57) |
| `JsText.ParseIntOfUnsigned` | src/lib/db.js:53 | `parseInt` of text starting with a digit and not with 0x reads its leading decimal digits |
| `JsText.CeilToTen` | src/lib/db.js:124-125 | `Math.ceil(n / 10) * 10` is the least multiple of 10 ≥ n |
| `JsText.PadStart2` | src/components/PaymentModal.jsx:80 | `padStart(2, '0')` keeps the text as a suffix and pads to length 2 |
| `JsText.ToUpper` | src/components/PaymentModal.jsx:84 | the ASCII letters, dotless i and long s are upper-cased one for one; every other character is kept (see Left out) |
| `JsText.ToUpperIdempotent` | src/components/PaymentModal.jsx:84 | upper-casing twice is upper-casing once |
| `JsText.ToUtf16` | src/pages/seatlayout.jsx:19-20 | `charCodeAt` and `length` run over UTF-16 code units, at least one per character |
| `JsText.Utf16LengthOfBmp` | src/components/TrailersSection.jsx:9 | without characters outside the BMP, `length` counts characters |

## Left out

- Rendering, animation, toasts, navigation, confetti and QR codes are not modelled; they produce no data.
- The `setTimeout`/`setInterval` delays are not modelled: the countdown is one method call per tick, and processing → success is two calls.
- OMDb and TVMaze fetches are replies given as inputs. The TVMaze mapping inside `fetchTVMaze` (src/pages/movies.jsx:30-52) is not modelled: the search update only records the switch and its query.
- `fetchDetailedMovies` (src/pages/movies.jsx:75-98) is not modelled: the enriched records are given as input.
- `MoviesPage.SortMovies`: the 'rating' sort uses `parseFloat` and floating-point subtraction and is excluded by its precondition.
- `MoviesPage.SortMoviesSpec`: the year orders are proved only when every year parses. With a NaN comparison JavaScript's sort order is implementation-defined. Stability of the sort is not stated.
- Dates and timezones are not modelled. A showtime's time of day is a (date, time) pair of strings, and `fetchShowtimes`' day window is equality of the date. The re-query's `order('show_time')` keeps table order.
- `BookingDb.Database.SearchMovies`: the query's `.limit(10)` has no ordering, so the database may return any ten matching rows; the model fixes one choice, the first ten in table order.
- `BookingDb.Database.MoviesWithShowtimes`: "now" (the `toISOString()` text, an input since the clock is not modelled) and each row's `show_time` text (`ShowTimeText`, date + "T" + time + ":00") are compared as text with `JsText.StringLe`, whereas the database compares them as timestamps. The two orders agree when both are UTC texts of the same layout that differ before the seconds; time zones and the `.000Z` suffix are not interpreted, so a showtime at exactly the current second counts as past here.
- The Supabase `ilike` wildcards `%`/`_` inside the query and non-ASCII case folding are not modelled: `BookingDb.TitleMatches` is substring search with ASCII lower-casing.
- `BookingDb.Database.ToggleFavorite` stores only the movie's title where the source stores the whole `movie_data` object.
- `getFavorites` (src/lib/db.js:275-284) is read only by the favourites page, which is not part of this model.
- `BookingDb.Database.GetUserBookings`: the nested join is modelled as one optional showtime with its optional theater and movie; unrelated columns are dropped.
- Row ids are consecutive integers and `created_at` is insertion order; concurrent writers, and the double-booking they allow, are not modelled.
- `MovieDetail.BuyTicketPrices`: the standard price `Math.floor(rating × 30 + …)` is floating point and is an input; only VIP = standard + 150 is stated.
- `MovieDetail.GroupByTheater`: the order of the groups follows JavaScript object-key order and is not stated; membership and within-group order are.
- The 7-day date strip and `selectedDate` re-fetch in moviedetail.jsx are not modelled.
- `MotionTrailers.Feed.HandleScroll`: `Math.round(scrollTop / clientHeight)` is floating point, so the index is an input. The handler reads `activeIndex` and `trailers` through a stale closure between effect re-runs; the model uses the current state.
- Math.random suffixes in the mock auth (`toString(36).substr(2, 9)`) are inputs.
- `sendPasswordResetEmail` always resolves true after a delay, and `GoogleAuthProvider` is a constant object; neither carries state.
- `MockFirebase`: the JSON round trip through localStorage is modelled only for text-valued fields; `undefined` values and nested objects are not modelled.
- `AuthContext`: only `splitFullName` is modelled; the provider, the Supabase session code and `signUp` are foreign calls. `splitFullName` on a non-string would throw, and the model takes a string.
- `MyBookings.Load`: stats carry `topGenre: 'Action'` as the page sets them; the initial `topTheater: 'N/A'` is kept in `InitialStats`.
- The remaining files (admin pages, tickets, the search overlay, the theater list, the home, favourite and sign-up pages, and the presentational components) are not part of this model.
- `JsText.ToUpper` upper-cases only a–z, ı and ſ. JavaScript's `toUpperCase` also maps the other lower-case letters ('é' to 'É') and expands some characters into several ('ß' to "SS", 'ﬁ' to "FI"), so its length can grow; full Unicode case mapping is not modelled. Coupon matching (`PaymentModal.Discounted`) is unaffected: the only characters whose upper case lands in "MOVIE50" or "WELCOME20" are the ASCII letters and ı, which are modelled.
- `PaymentModal.Checkout.TypeCoupon`: the field holds `JsText.ToUpper` of the text, so non-ASCII letters other than ı and ſ stay as typed where the page's `toUpperCase` would convert or expand them.
- Strings are sequences of Unicode scalar values, so a JavaScript string holding a lone surrogate code unit has no counterpart. `charCodeAt`, `length` and the YouTube pattern are modelled on the UTF-16 encoding of well-formed strings.
- `SeatLayout.GeneratePrice` works on exact integers. That matches JavaScript doubles only while the hash stays below 2^53, which `SeatLayout.HashBound` guarantees for ids shorter than about 4 million code units.
