/** The vertical trailer feed: scrolling sets the active card and, near the
    end of the list, appends another copy of the sample trailers, so the
    feed never runs out. Its `getYouTubeId` is the same function as the
    trailer section's, `YouTube.GetYouTubeId`. */
module MotionTrailers {
  import opened Wrappers
  import YouTube

  datatype Trailer = Trailer(image: string, videoUrl: string)

  /** The thumbnail address of a video id. */
  function Thumbnail(id: string): string {
    "https://img.youtube.com/vi/" + id + "/maxresdefault.jpg"
  }

  /** `dummyTrailers`, each address written as its link prefix followed by
      the video id, and each image as that id's thumbnail. */
  const DummyTrailers: seq<Trailer> := [
    Trailer(Thumbnail("WpW36ldAqnM"), YouTube.ShortPrefix + "WpW36ldAqnM"),
    Trailer(Thumbnail("-sAOWhvheK8"), YouTube.WatchPrefix + "-sAOWhvheK8"),
    Trailer(Thumbnail("1pHDWnXmK7Y"), YouTube.WatchPrefix + "1pHDWnXmK7Y"),
    Trailer(Thumbnail("umiKiW4En9g"), YouTube.WatchPrefix + "umiKiW4En9g"),
    Trailer(Thumbnail("aWzlQ2N6qqg"), YouTube.WatchPrefix + "aWzlQ2N6qqg")
  ]

  /** A sample trailer plays: its address yields a video id, and its image
      is that video's thumbnail. */
  lemma SamplePlayable(k: nat)
    requires k < |DummyTrailers|
    ensures var id := YouTube.GetYouTubeId(Some(DummyTrailers[k].videoUrl));
      id.Some? && DummyTrailers[k].image == Thumbnail(id.value)
  {
    if k == 0 {
      YouTube.FirstSampleId();
    } else if k == 1 {
      YouTube.SecondSampleId();
    } else if k == 2 {
      YouTube.ThirdSampleId();
    } else if k == 3 {
      YouTube.FourthSampleId();
    } else {
      YouTube.FifthSampleId();
    }
  }

  /** The samples on their own are one repetition. */
  lemma SamplesRepeat()
    ensures Repeats(DummyTrailers)
  {
    forall i | 0 <= i < |DummyTrailers| ensures DummyTrailers[i] == DummyTrailers[i % 5] {
      assert i % 5 == i;
    }
  }

  /** The trailer list after a scroll to card `index`: near the end (within
      the last two cards) one more copy of the samples is appended;
      otherwise nothing changes. */
  function Extend(ts: seq<Trailer>, index: nat): (r: seq<Trailer>)
    ensures ts <= r
    ensures index + 2 >= |ts| ==> |r| == |ts| + 5 && r[|ts|..] == DummyTrailers
    ensures index + 2 < |ts| ==> r == ts
  {
    if index >= |ts| - 2 then ts + DummyTrailers else ts
  }

  /** The feed is the samples repeated a whole number of times. */
  predicate Repeats(ts: seq<Trailer>) {
    |ts| > 0 && |ts| % 5 == 0 && forall i :: 0 <= i < |ts| ==> ts[i] == DummyTrailers[i % 5]
  }

  /** Extending keeps the feed a repetition of the samples. */
  lemma ExtendRepeats(ts: seq<Trailer>, index: nat)
    requires Repeats(ts)
    ensures Repeats(Extend(ts, index))
  {
    if index + 2 >= |ts| {
      assert Extend(ts, index) == ts + DummyTrailers;
      AppendSamplesRepeats(ts);
    }
  }

  lemma AppendSamplesRepeats(ts: seq<Trailer>)
    requires Repeats(ts)
    ensures Repeats(ts + DummyTrailers)
  {
    var r := ts + DummyTrailers;
    ModShift(|ts|, |ts| + 5);
    forall i | 0 <= i < |r| ensures r[i] == DummyTrailers[i % 5] {
      AppendedSampleAt(ts, i);
    }
  }

  lemma AppendedSampleAt(ts: seq<Trailer>, i: nat)
    requires Repeats(ts) && i < |ts| + 5
    ensures (ts + DummyTrailers)[i] == DummyTrailers[i % 5]
  {
    var n := |ts|;
    if i >= n {
      var j := i - n;
      ModShift(n, i);
      assert j % 5 == j;
      assert (ts + DummyTrailers)[i] == DummyTrailers[j];
    } else {
      assert (ts + DummyTrailers)[i] == ts[i];
    }
  }

  lemma ModShift(n: nat, i: nat)
    requires n % 5 == 0 && n <= i
    ensures i % 5 == (i - n) % 5
  {
    var q := n / 5;
    assert n == 5 * q;
    assert i == 5 * q + (i - n);
  }

  /** Every card of a repeated feed plays. */
  lemma RepeatsPlayable(ts: seq<Trailer>)
    requires Repeats(ts)
    ensures forall i :: 0 <= i < |ts| ==> YouTube.GetYouTubeId(Some(ts[i].videoUrl)).Some?
  {
    forall i | 0 <= i < |ts| ensures YouTube.GetYouTubeId(Some(ts[i].videoUrl)).Some? {
      assert ts[i] == DummyTrailers[i % 5];
      SamplePlayable(i % 5);
    }
  }

  /** The feed's state: the active card, the list, and how many times the
      active card was set. */
  class Feed {
    var activeIndex: nat
    var trailers: seq<Trailer>
    var activeUpdates: nat

    ghost predicate Valid()
      reads this
    {
      Repeats(trailers)
    }

    constructor ()
      ensures activeIndex == 0 && trailers == DummyTrailers && activeUpdates == 0
      ensures Valid()
    {
      activeIndex := 0;
      trailers := DummyTrailers;
      activeUpdates := 0;
      SamplesRepeat();
    }

    /** `handleScroll`, given the card index the scroll position rounds to:
        the active card is set only when it differs, and the list is
        extended near its end, its old cards kept in place. */
    method HandleScroll(index: nat)
      requires Valid()
      modifies this
      ensures Valid()
      ensures activeIndex == index
      ensures activeUpdates == old(activeUpdates) + (if index != old(activeIndex) then 1 else 0)
      ensures trailers == Extend(old(trailers), index)
    {
      if index != activeIndex {
        activeIndex := index;
        activeUpdates := activeUpdates + 1;
      }
      if index >= |trailers| - 2 {
        trailers := trailers + DummyTrailers;
      }
      ExtendRepeats(old(trailers), index);
    }
  }
}
