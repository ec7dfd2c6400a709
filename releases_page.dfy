/** The releases page: three OMDb searches (Hollywood, Bollywood, new
    releases), each de-duplicated by `imdbID` and replaced by a curated list
    when it comes back empty. */
module ReleasesPage {
  import opened Wrappers
  import opened JsText
  import OrderedMap

  /** One search result; `null` entries of the list are `None`. */
  datatype Release = Release(imdbId: Option<string>, title: Option<string>, year: Option<string>, kind: Option<string>)

  /** What a search answered: the parsed JSON, or a fetch that threw. */
  datatype Answer = Answered(response: string, search: seq<Option<Release>>, error: Option<string>) | Threw

  const LimitReached := "Request limit reached!"

  function Curated(id: string, title: string): Release
  {
    Release(Some(id), Some(title), Some("2024"), Some("movie"))
  }

  const FallbackHollywood: seq<Release> := [
    Curated("tt15239678", "Dune: Part Two"),
    Curated("tt11315808", "Civil War"),
    Curated("tt14539740", "Godzilla x Kong: The New Empire"),
    Curated("tt12037194", "Furiosa: A Mad Max Saga"),
    Curated("tt1684562", "The Fall Guy"),
    Curated("tt1160419", "Kingdom of the Planet of the Apes")]

  const FallbackBollywood: seq<Release> := [
    Curated("tt22409552", "Fighter"),
    Curated("tt26655182", "Shaitaan"),
    Curated("tt14992822", "Crew"),
    Curated("tt9663764", "Bade Miyan Chote Miyan"),
    Curated("tt10839218", "Maidaan"),
    Curated("tt15729350", "Teri Baaton Mein Aisa Uljha Jiya")]

  // ---------------------------------------------------------------- fetchMovies

  /** The list a search yields, and whether it raises the API-limit banner. */
  datatype Fetched = Fetched(items: seq<Option<Release>>, limitHit: bool)

  /** `fetchMovies(query, year)` once the answer is in. */
  function FetchMovies(a: Answer): (r: Fetched)
    ensures r.items != [] ==> a.Answered? && a.response == "True" && r.items == a.search
    ensures a.Answered? && a.response == "True" ==> r.items == a.search
    ensures r.limitHit <==> a.Answered? && a.response != "True" && a.error == Some(LimitReached)
  {
    match a
    case Threw => Fetched([], false)
    case Answered(response, search, error) =>
      if response == "True" then Fetched(search, false)
      else Fetched([], error == Some(LimitReached))
  }

  /** `let x = await fetchMovies(q1); if (x.length === 0) x = await fetchMovies(q2);`
      The second query only matters when the first found nothing; the banner
      flag collects both. */
  function Chain(first: Answer, second: Answer): (r: Fetched)
    ensures FetchMovies(first).items != [] ==> r == FetchMovies(first)
    ensures FetchMovies(first).items == [] ==>
              r.items == FetchMovies(second).items && (r.limitHit <==> FetchMovies(first).limitHit || FetchMovies(second).limitHit)
  {
    var f := FetchMovies(first);
    if |f.items| == 0 then
      var g := FetchMovies(second);
      Fetched(g.items, f.limitHit || g.limitHit)
    else f
  }

  // ---------------------------------------------------------------- uniqueMovies

  /** Whether `unique.set(item.imdbID, item)` runs: the item is not null and
      its `imdbID` is truthy. */
  predicate HasId(o: Option<Release>) { o.Some? && Truthy(o.value.imdbId) }

  /** The items that reach the `Map`, in order. */
  function Kept(arr: seq<Option<Release>>): (r: seq<Release>)
    ensures |r| <= |arr|
    ensures forall i :: 0 <= i < |r| ==> Truthy(r[i].imdbId)
  {
    if arr == [] then []
    else Kept(arr[..|arr| - 1]) + (if HasId(arr[|arr| - 1]) then [arr[|arr| - 1].value] else [])
  }

  /** The `imdbID` of an item that has one. */
  function IdOf(x: Release): string { x.imdbId.GetOr("") }

  function IdsOf(items: seq<Release>): (ks: seq<string>)
    ensures |ks| == |items| && forall i :: 0 <= i < |items| ==> ks[i] == IdOf(items[i])
  {
    if items == [] then [] else IdsOf(items[..|items| - 1]) + [IdOf(items[|items| - 1])]
  }

  /** `uniqueMovies(arr)`: a `Map` filled by a `forEach`, read back with
      `Array.from(unique.values())`. */
  method UniqueMovies(arr: seq<Option<Release>>) returns (r: seq<Release>)
    ensures r == OrderedMap.DedupeValues(IdsOf(Kept(arr)), Kept(arr))
  {
    var unique: OrderedMap.OMap<string, Release> := OrderedMap.Empty();
    var i := 0;
    while i < |arr|
      invariant 0 <= i <= |arr|
      invariant unique == OrderedMap.FromPairs(IdsOf(Kept(arr[..i])), Kept(arr[..i]))
    {
      var item := arr[i];
      assert arr[..i + 1][..i] == arr[..i];
      var ks, vs := IdsOf(Kept(arr[..i + 1])), Kept(arr[..i + 1]);
      if item.Some? && Truthy(item.value.imdbId) {
        assert vs == Kept(arr[..i]) + [item.value];
        assert vs[..|vs| - 1] == Kept(arr[..i]);
        assert ks[..|ks| - 1] == IdsOf(Kept(arr[..i]));
        unique := OrderedMap.Set(unique, item.value.imdbId.value, item.value);
      } else {
        assert vs == Kept(arr[..i]);
      }
      i := i + 1;
    }
    assert arr[..i] == arr;
    OrderedMap.FromPairsValid(IdsOf(Kept(arr)), Kept(arr));
    r := OrderedMap.Values(unique);
  }

  lemma {:induction false} KeptSpec(arr: seq<Option<Release>>)
    ensures forall k :: 0 <= k < |arr| && HasId(arr[k]) ==> arr[k].value in Kept(arr)
    ensures forall x :: x in Kept(arr) ==> Some(x) in arr
  {
    if arr != [] {
      var n := |arr| - 1;
      KeptSpec(arr[..n]);
      assert forall k :: 0 <= k < n ==> arr[..n][k] == arr[k];
      assert arr[n] in arr;
    }
  }

  /** What `uniqueMovies` guarantees: every item carries a truthy `imdbID`
      and came from the input; the ids are distinct; every input item with an
      id is represented; ids come in the order of their first occurrence and
      each holds the item of its last occurrence. */
  lemma UniqueMoviesSpec(arr: seq<Option<Release>>)
    ensures var kept := Kept(arr); var ks := IdsOf(kept);
      var r := OrderedMap.DedupeValues(ks, kept);
      && |r| <= |kept| <= |arr|
      && (forall i :: 0 <= i < |r| ==> Truthy(r[i].imdbId) && Some(r[i]) in arr)
      && (forall i, j :: 0 <= i < j < |r| ==> r[i].imdbId != r[j].imdbId)
      && (forall k :: 0 <= k < |arr| && HasId(arr[k]) ==> exists i :: 0 <= i < |r| && r[i].imdbId == arr[k].value.imdbId)
      && (forall i :: 0 <= i < |r| ==> IdOf(r[i]) in ks && r[i] == kept[OrderedMap.LastIndex(ks, IdOf(r[i]))])
      && (forall a, b :: 0 <= a < b < |r| ==>
            IdOf(r[a]) in ks && IdOf(r[b]) in ks &&
            OrderedMap.FirstIndex(ks, IdOf(r[a])) < OrderedMap.FirstIndex(ks, IdOf(r[b])))
  {
    DedupedDistinct(arr);
    DedupedFromInput(arr);
    DedupedCovers(arr);
    DedupedPositions(arr);
  }

  /** The deduplicated items have distinct ids, and there are no more of
      them than kept items. */
  lemma DedupedDistinct(arr: seq<Option<Release>>)
    ensures var kept := Kept(arr); var r := OrderedMap.DedupeValues(IdsOf(kept), kept);
      && |r| <= |kept| <= |arr|
      && forall i, j :: 0 <= i < j < |r| ==> r[i].imdbId != r[j].imdbId
  {
    var kept := Kept(arr);
    var ks := IdsOf(kept);
    OrderedMap.DedupeValuesSpec(ks, kept);
    DedupedIds(arr);
  }

  /** Each id holds the item of its last occurrence, and ids come in the
      order of their first occurrence. */
  lemma DedupedPositions(arr: seq<Option<Release>>)
    ensures var kept := Kept(arr); var ks := IdsOf(kept);
      var r := OrderedMap.DedupeValues(ks, kept);
      && (forall i :: 0 <= i < |r| ==> IdOf(r[i]) in ks && r[i] == kept[OrderedMap.LastIndex(ks, IdOf(r[i]))])
      && (forall a, b :: 0 <= a < b < |r| ==>
            IdOf(r[a]) in ks && IdOf(r[b]) in ks &&
            OrderedMap.FirstIndex(ks, IdOf(r[a])) < OrderedMap.FirstIndex(ks, IdOf(r[b])))
  {
    var kept := Kept(arr);
    var ks := IdsOf(kept);
    OrderedMap.DedupeValuesSpec(ks, kept);
    DedupedIds(arr);
  }

  /** Each deduplicated item sits under its own id in the Map's key order. */
  lemma DedupedIds(arr: seq<Option<Release>>)
    ensures var kept := Kept(arr); var ks := IdsOf(kept);
      var m, r := OrderedMap.FromPairs(ks, kept), OrderedMap.DedupeValues(ks, kept);
      |r| == |m.keys| && forall i :: 0 <= i < |r| ==> r[i].imdbId == Some(m.keys[i]) && IdOf(r[i]) == m.keys[i]
  {
    var kept := Kept(arr);
    var ks := IdsOf(kept);
    OrderedMap.DedupeValuesSpec(ks, kept);
    var m := OrderedMap.FromPairs(ks, kept);
    var r := OrderedMap.DedupeValues(ks, kept);
    forall i | 0 <= i < |r| ensures r[i].imdbId == Some(m.keys[i]) && IdOf(r[i]) == m.keys[i] {
      assert m.keys[i] in ks;
      var l := OrderedMap.LastIndex(ks, m.keys[i]);
      assert r[i] == kept[l];
    }
  }

  /** Every deduplicated item is an input item with a truthy id. */
  lemma DedupedFromInput(arr: seq<Option<Release>>)
    ensures var kept := Kept(arr); var r := OrderedMap.DedupeValues(IdsOf(kept), kept);
      forall i :: 0 <= i < |r| ==> Truthy(r[i].imdbId) && Some(r[i]) in arr
  {
    var kept := Kept(arr);
    var ks := IdsOf(kept);
    OrderedMap.DedupeValuesSpec(ks, kept);
    KeptSpec(arr);
    var m := OrderedMap.FromPairs(ks, kept);
    var r := OrderedMap.DedupeValues(ks, kept);
    forall i | 0 <= i < |r| ensures Truthy(r[i].imdbId) && Some(r[i]) in arr {
      var l := OrderedMap.LastIndex(ks, m.keys[i]);
      assert r[i] == kept[l] && kept[l] in kept;
    }
  }

  /** Every input item with an id has its id among the deduplicated items. */
  lemma DedupedCovers(arr: seq<Option<Release>>)
    ensures var kept := Kept(arr); var r := OrderedMap.DedupeValues(IdsOf(kept), kept);
      forall k :: 0 <= k < |arr| && HasId(arr[k]) ==> exists i :: 0 <= i < |r| && r[i].imdbId == arr[k].value.imdbId
  {
    var kept := Kept(arr);
    var ks := IdsOf(kept);
    OrderedMap.DedupeValuesSpec(ks, kept);
    KeptSpec(arr);
    DedupedIds(arr);
    var m := OrderedMap.FromPairs(ks, kept);
    var r := OrderedMap.DedupeValues(ks, kept);
    forall k | 0 <= k < |arr| && HasId(arr[k]) ensures exists i :: 0 <= i < |r| && r[i].imdbId == arr[k].value.imdbId {
      var x := arr[k].value;
      assert x in kept;
      var p :| 0 <= p < |kept| && kept[p] == x;
      assert ks[p] in ks;
      assert ks[p] in m.keys;
      var i :| 0 <= i < |m.keys| && m.keys[i] == ks[p];
      assert r[i].imdbId == x.imdbId;
    }
  }

  // ---------------------------------------------------------------- loadAllReleases

  /** The three sections and the banner flag once everything has loaded. */
  datatype Sections = Sections(hollywood: seq<Release>, bollywood: seq<Release>, newReleases: seq<Release>, apiError: bool)

  /** A de-duplicated section, or its curated list when it is empty. */
  function OrFallback(found: seq<Release>, fallback: seq<Release>): seq<Release>
  {
    if |found| == 0 then fallback else found
  }

  function Dedupe(arr: seq<Option<Release>>): seq<Release>
  {
    OrderedMap.DedupeValues(IdsOf(Kept(arr)), Kept(arr))
  }

  /** `loadAllReleases`, given the answers of the five searches: "action" then
      "adventure" for Hollywood, "hindi" then "bollywood" for Bollywood, and
      "movie" for new releases. */
  function LoadAll(action: Answer, adventure: Answer, hindi: Answer, bollywood: Answer, general: Answer): Sections
  {
    var hw := Chain(action, adventure);
    var bw := Chain(hindi, bollywood);
    var nr := FetchMovies(general);
    Sections(
      OrFallback(Dedupe(hw.items), FallbackHollywood),
      OrFallback(Dedupe(bw.items), FallbackBollywood),
      OrFallback(Dedupe(nr.items), FallbackHollywood + FallbackBollywood),
      hw.limitHit || bw.limitHit || nr.limitHit)
  }

  lemma DedupeEmpty(arr: seq<Option<Release>>)
    ensures Dedupe(arr) == [] <==> forall k :: 0 <= k < |arr| ==> !HasId(arr[k])
  {
    UniqueMoviesSpec(arr);
    KeptSpec(arr);
    var kept := Kept(arr);
    if kept != [] {
      assert Some(kept[0]) in arr;
      var k :| 0 <= k < |arr| && arr[k] == Some(kept[0]);
      assert HasId(arr[k]);
    }
  }

  /** Every section shows something: the searched list when it held an item
      with an id, and otherwise the curated list (six titles each, twelve for
      new releases); the banner shows exactly when a search that ran hit the
      request limit. */
  lemma LoadAllSpec(action: Answer, adventure: Answer, hindi: Answer, bollywood: Answer, general: Answer)
    ensures var s := LoadAll(action, adventure, hindi, bollywood, general);
      var hw, bw, nr := Chain(action, adventure), Chain(hindi, bollywood), FetchMovies(general);
      && |s.hollywood| > 0 && |s.bollywood| > 0 && |s.newReleases| > 0
      && (s.hollywood == FallbackHollywood <== forall k :: 0 <= k < |hw.items| ==> !HasId(hw.items[k]))
      && ((exists k :: 0 <= k < |hw.items| && HasId(hw.items[k])) ==> s.hollywood == Dedupe(hw.items))
      && (s.bollywood == FallbackBollywood <== forall k :: 0 <= k < |bw.items| ==> !HasId(bw.items[k]))
      && ((exists k :: 0 <= k < |bw.items| && HasId(bw.items[k])) ==> s.bollywood == Dedupe(bw.items))
      && ((forall k :: 0 <= k < |nr.items| ==> !HasId(nr.items[k])) ==>
            s.newReleases == FallbackHollywood + FallbackBollywood && |s.newReleases| == 12)
      && ((exists k :: 0 <= k < |nr.items| && HasId(nr.items[k])) ==> s.newReleases == Dedupe(nr.items))
      && (s.apiError <==> hw.limitHit || bw.limitHit || nr.limitHit)
  {
    var hw, bw, nr := Chain(action, adventure), Chain(hindi, bollywood), FetchMovies(general);
    DedupeEmpty(hw.items);
    DedupeEmpty(bw.items);
    DedupeEmpty(nr.items);
  }
}
