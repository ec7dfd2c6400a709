/** `getYouTubeId`, which pulls the 11-character video id out of a YouTube
    address with the regular expression
    `^.*(youtu.be/|v/|u/\w/|embed/|watch?v=|&v=)([^#&?]*).*` (slashes and
    `?` escaped in the source). The match is written out as the regular
    expression engine finds it: the leading `.*` is greedy and stops at the
    first line break, so the marker that wins is the LAST one that starts on
    the first line; the id is then the longest run after it without '#', '&'
    or '?'. The expression has no `u` flag, so it runs over UTF-16 code
    units: the `.` of `youtu.be` takes one code unit, and the id's length is
    counted in code units. */
module YouTube {
  import opened Wrappers
  import opened JsText

  /** The length of the marker alternative that `t` starts with, if any.
      No two alternatives start with the same character, so at most one
      can. */
  function MarkerAtStart(t: string): (r: Option<nat>)
    ensures r.Some? ==> r.value <= |t| && r.value in {2, 3, 4, 6, 8, 9}
  {
    if t == [] then None
    else
      var c := t[0];
      if c == 'y' && |t| >= 9 && t[1..5] == "outu" && !IsLineTerminator(t[5]) && IsBmp(t[5]) && t[6..9] == "be/" then Some(9)
      else if c == 'v' && |t| >= 2 && t[1] == '/' then Some(2)
      else if c == 'u' && |t| >= 4 && t[1] == '/' && IsWordChar(t[2]) && t[3] == '/' then Some(4)
      else if c == 'e' && |t| >= 6 && t[..6] == "embed/" then Some(6)
      else if c == 'w' && |t| >= 8 && t[..8] == "watch?v=" then Some(8)
      else if c == '&' && |t| >= 3 && t[..3] == "&v=" then Some(3)
      else None
  }

  /** The marker that starts at position `p` of `s`. */
  function MarkerLength(s: string, p: nat): (r: Option<nat>)
    ensures r.Some? ==> p + r.value <= |s|
  {
    if p >= |s| then None else MarkerAtStart(s[p..])
  }

  /** Where the first line ends: what `.` (and so the leading `.*`) cannot
      cross. */
  function LineEnd(s: string): (e: nat)
    ensures e <= |s| && (e == |s| || IsLineTerminator(s[e]))
    ensures forall i :: 0 <= i < e ==> !IsLineTerminator(s[i])
  {
    if s == [] || IsLineTerminator(s[0]) then 0 else 1 + LineEnd(s[1..])
  }

  /** The backtracking of the greedy `.*`: the largest position not after
      `p` where a marker starts. */
  function LastMarkerFrom(s: string, p: nat): (r: Option<nat>)
    ensures r.Some? ==> r.value <= p && MarkerLength(s, r.value).Some?
    ensures r.Some? ==> forall q :: r.value < q <= p ==> MarkerLength(s, q).None?
    ensures r.None? ==> forall q :: 0 <= q <= p ==> MarkerLength(s, q).None?
  {
    if MarkerLength(s, p).Some? then Some(p)
    else if p == 0 then None
    else LastMarkerFrom(s, p - 1)
  }

  predicate IsIdChar(c: char) { c != '#' && c != '&' && c != '?' }

  /** The greedy `([^#&?]*)`: the longest run of allowed characters from
      `start`. */
  function IdRun(s: string, start: nat): (r: string)
    requires start <= |s|
    ensures start + |r| <= |s| && r == s[start..start + |r|]
    ensures forall i :: 0 <= i < |r| ==> IsIdChar(r[i])
    ensures start + |r| == |s| || !IsIdChar(s[start + |r|])
    decreases |s| - start
  {
    if start == |s| || !IsIdChar(s[start]) then ""
    else
      var rest := IdRun(s, start + 1);
      assert s[start..start + 1 + |rest|] == [s[start]] + s[start + 1..start + 1 + |rest|];
      [s[start]] + rest
  }

  /** `getYouTubeId`: a missing or empty address gives null, as does a match
      whose id is not exactly 11 code units long. */
  function GetYouTubeId(url: Option<string>): (r: Option<string>)
    ensures !Truthy(url) ==> r.None?
    ensures r.Some? ==> Utf16Length(r.value) == 11 && |r.value| <= 11
    ensures r.Some? ==> forall i :: 0 <= i < |r.value| ==> IsIdChar(r.value[i])
  {
    if !Truthy(url) then None
    else
      var s := url.value;
      match LastMarkerFrom(s, LineEnd(s))
      case None => None
      case Some(p) => IdAfter(s, p)
  }

  /** The id captured after the marker at `p`, kept when its `length` is
      11. */
  function IdAfter(s: string, p: nat): (r: Option<string>)
    requires MarkerLength(s, p).Some?
    ensures r.Some? ==> Utf16Length(r.value) == 11 && |r.value| <= 11
    ensures r.Some? ==> forall i :: 0 <= i < |r.value| ==> IsIdChar(r.value[i])
  {
    var id := IdRun(s, p + MarkerLength(s, p).value);
    if Utf16Length(id) == 11 then Some(id) else None
  }

  /** The match the engine reports: a marker at `p` on the first line, with
      no marker starting later on that line. */
  ghost predicate GreedyMatch(s: string, p: nat) {
    p <= LineEnd(s) && MarkerLength(s, p).Some? && forall q :: p < q <= LineEnd(s) ==> MarkerLength(s, q).None?
  }

  /** What the regular expression promises: with no marker on the first
      line the result is null; otherwise the id is the run after the last
      marker, kept only when it is 11 code units long. */
  lemma GetYouTubeIdSpec(s: string)
    requires s != ""
    ensures (forall p :: 0 <= p <= LineEnd(s) ==> MarkerLength(s, p).None?) ==> GetYouTubeId(Some(s)).None?
    ensures forall p: nat :: GreedyMatch(s, p) ==>
              var id := IdRun(s, p + MarkerLength(s, p).value);
              GetYouTubeId(Some(s)) == (if Utf16Length(id) == 11 then Some(id) else None)
  {
    if forall p :: 0 <= p <= LineEnd(s) ==> MarkerLength(s, p).None? {
      NoMarkerNoId(s);
    }
    forall p: nat | GreedyMatch(s, p)
      ensures var id := IdRun(s, p + MarkerLength(s, p).value);
              GetYouTubeId(Some(s)) == (if Utf16Length(id) == 11 then Some(id) else None)
    {
      GreedyMatchId(s, p);
    }
  }

  lemma NoMarkerNoId(s: string)
    requires s != ""
    requires forall p :: 0 <= p <= LineEnd(s) ==> MarkerLength(s, p).None?
    ensures GetYouTubeId(Some(s)) == None
  {
    assert LastMarkerFrom(s, LineEnd(s)).None?;
  }

  lemma GreedyMatchId(s: string, p: nat)
    requires s != "" && GreedyMatch(s, p)
    ensures var id := IdRun(s, p + MarkerLength(s, p).value);
            GetYouTubeId(Some(s)) == (if Utf16Length(id) == 11 then Some(id) else None)
  {
    SkipNoMarker(s, p, LineEnd(s));
    MarkerIdRun(s, p);
  }

  /** The id taken after the marker the search settles on. */
  lemma MarkerIdRun(s: string, p: nat)
    requires s != "" && MarkerLength(s, p).Some? && LastMarkerFrom(s, LineEnd(s)) == LastMarkerFrom(s, p)
    ensures GetYouTubeId(Some(s)) == IdAfter(s, p)
  {
    var e := LineEnd(s);
    assert LastMarkerFrom(s, p) == Some(p);
    assert LastMarkerFrom(s, e) == Some(p);
  }

  /** With no marker at any position in `(lo, hi]`, the search from `hi`
      goes on as the search from `lo`. */
  lemma {:induction false} SkipNoMarker(s: string, lo: nat, hi: nat)
    requires lo <= hi
    requires forall q :: lo < q <= hi ==> MarkerLength(s, q).None?
    ensures LastMarkerFrom(s, hi) == LastMarkerFrom(s, lo)
    decreases hi - lo
  {
    if lo < hi {
      SkipNoMarker(s, lo, hi - 1);
    }
  }

  /** A character that starts no marker. */
  predicate Plain(c: char) {
    c != 'y' && c != 'v' && c != 'u' && c != 'e' && c != 'w' && c != '&'
  }

  lemma PlainNoMarker(s: string, q: nat)
    requires q < |s| ==> Plain(s[q])
    ensures MarkerLength(s, q).None?
  {
  }

  /** A one-line address whose last marker is followed by allowed
      characters up to the end, 11 code units of them: those are the id. */
  lemma {:induction false} TrailingId(s: string, p: nat, len: nat)
    requires MarkerLength(s, p) == Some(len) && Utf16Length(s[p + len..]) == 11
    requires forall i :: 0 <= i < |s| ==> !IsLineTerminator(s[i])
    requires forall i :: p < i < |s| ==> MarkerLength(s, i).None?
    requires forall i :: p + len <= i < |s| ==> IsIdChar(s[i])
    ensures GetYouTubeId(Some(s)) == Some(s[p + len..])
  {
    var e := LineEnd(s);
    assert e == |s|;
    SkipNoMarker(s, p, e);
    var id := IdRun(s, p + len);
    assert |id| == |s| - (p + len);
    assert id == s[p + len..];
  }

  const ShortPrefix := "https://youtu.be/"
  const WatchPrefix := "https://www.youtube.com/watch?v="

  /** A marker that starts inside the text appended to a prefix is the
      marker of that text. */
  lemma MarkerShift(prefix: string, t: string, j: nat)
    ensures MarkerLength(prefix + t, |prefix| + j) == MarkerLength(t, j)
  {
    if j < |t| {
      assert (prefix + t)[|prefix| + j..] == t[j..];
    }
  }

  /** The markers of the short-link prefix: only its `youtu.be/`. */
  lemma ShortPrefixMarkers(t: string)
    ensures MarkerLength(ShortPrefix + t, 8) == Some(9)
    ensures forall i :: 8 < i < |ShortPrefix| ==> MarkerLength(ShortPrefix + t, i).None?
  {
    var s := ShortPrefix + t;
    assert |ShortPrefix| == 17;
    assert s[..17] == ShortPrefix;
    var w := s[8..];
    assert s[8..17] == "youtu.be/";
    assert w[..9] == "youtu.be/";
    assert w[1..5] == w[..9][1..5] == "outu";
    assert w[6..9] == w[..9][6..9] == "be/";
    assert w[0] == 'y' && w[5] == '.';
    forall i | 8 < i < 17 ensures MarkerLength(s, i).None? {
      if Plain(s[i]) {
        PlainNoMarker(s, i);
      } else {
        assert i == 10 || i == 12 || i == 15;
        assert s[11] == 't' && s[13] == '.' && s[16] == '/';
      }
    }
  }

  /** The markers of the watch prefix: only its `watch?v=`. */
  lemma WatchPrefixMarkers(t: string)
    ensures MarkerLength(WatchPrefix + t, 24) == Some(8)
    ensures forall i :: 24 < i < |WatchPrefix| ==> MarkerLength(WatchPrefix + t, i).None?
  {
    var s := WatchPrefix + t;
    assert |WatchPrefix| == 32;
    assert s[..32] == WatchPrefix;
    assert s[24..][..8] == "watch?v=";
    forall i | 24 < i < 32 ensures MarkerLength(s, i).None? {
      if Plain(s[i]) {
        PlainNoMarker(s, i);
      } else {
        assert i == 30;
        assert s[31] == '=';
      }
    }
  }

  /** A video id is 11 code units of allowed characters on one line, none
      of them starting a marker. */
  predicate CleanId(id: string) {
    && Utf16Length(id) == 11
    && (forall i :: 0 <= i < |id| ==> IsIdChar(id[i]) && !IsLineTerminator(id[i]))
    && (forall j :: 0 <= j < |id| ==> MarkerLength(id, j).None?)
  }

  /** A one-line prefix whose last marker ends it, followed by a clean id:
      the id is the result. */
  lemma LinkId(prefix: string, p: nat, len: nat, id: string)
    requires CleanId(id)
    requires p + len == |prefix| && MarkerLength(prefix + id, p) == Some(len)
    requires forall i :: p < i < |prefix| ==> MarkerLength(prefix + id, i).None?
    requires forall i :: 0 <= i < |prefix| ==> !IsLineTerminator(prefix[i])
    ensures GetYouTubeId(Some(prefix + id)) == Some(id)
  {
    var s := prefix + id;
    CleanIdAppended(prefix, id);
    OneLineAppended(prefix, id);
    assert s[|prefix|..] == id;
    TrailingId(s, p, len);
  }

  /** After any prefix, a clean id starts no marker and holds only allowed
      characters. */
  lemma CleanIdAppended(prefix: string, id: string)
    requires CleanId(id)
    ensures forall i :: |prefix| <= i < |prefix + id| ==> MarkerLength(prefix + id, i).None? && IsIdChar((prefix + id)[i])
  {
    var s := prefix + id;
    var n := |prefix|;
    forall i | n <= i < |s| ensures MarkerLength(s, i).None? && IsIdChar(s[i]) {
      MarkerShift(prefix, id, i - n);
      assert s[i] == id[i - n];
    }
  }

  lemma OneLineAppended(prefix: string, id: string)
    requires CleanId(id)
    requires forall i :: 0 <= i < |prefix| ==> !IsLineTerminator(prefix[i])
    ensures forall i :: 0 <= i < |prefix + id| ==> !IsLineTerminator((prefix + id)[i])
  {
    var s := prefix + id;
    forall i | 0 <= i < |s| ensures !IsLineTerminator(s[i]) {
      if i >= |prefix| {
        assert s[i] == id[i - |prefix|];
      } else {
        assert s[i] == prefix[i];
      }
    }
  }

  lemma ShortLinkId(id: string)
    requires CleanId(id)
    ensures GetYouTubeId(Some(ShortPrefix + id)) == Some(id)
  {
    ShortPrefixMarkers(id);
    LinkId(ShortPrefix, 8, 9, id);
  }

  lemma WatchLinkId(id: string)
    requires CleanId(id)
    ensures GetYouTubeId(Some(WatchPrefix + id)) == Some(id)
  {
    WatchPrefixMarkers(id);
    LinkId(WatchPrefix, 24, 8, id);
  }

  /** An id of 11 plain allowed characters of one code unit each is
      clean. */
  lemma PlainIdClean(id: string)
    requires |id| == 11
    requires forall i :: 0 <= i < 11 ==> Plain(id[i]) && IsIdChar(id[i]) && !IsLineTerminator(id[i]) && IsBmp(id[i])
    ensures CleanId(id)
  {
    forall j | 0 <= j < 11 ensures MarkerLength(id, j).None? {
      PlainNoMarker(id, j);
    }
    BmpIdClean(id);
  }

  /** Eleven allowed characters of one code unit each, none starting a
      marker, make a clean id. */
  lemma BmpIdClean(id: string)
    requires |id| == 11
    requires forall i :: 0 <= i < 11 ==> IsIdChar(id[i]) && !IsLineTerminator(id[i]) && IsBmp(id[i])
    requires forall j :: 0 <= j < 11 ==> MarkerLength(id, j).None?
    ensures CleanId(id)
  {
    Utf16LengthOfBmp(id);
  }

  /** The short link of the first sample trailer. */
  lemma FirstSampleId()
    ensures GetYouTubeId(Some(ShortPrefix + "WpW36ldAqnM")) == Some("WpW36ldAqnM")
  {
    PlainIdClean("WpW36ldAqnM");
    ShortLinkId("WpW36ldAqnM");
  }

  /** The watch links of the sample trailers. */
  lemma SecondSampleId()
    ensures GetYouTubeId(Some(WatchPrefix + "-sAOWhvheK8")) == Some("-sAOWhvheK8")
  {
    var a := "-sAOWhvheK8";
    forall j | 0 <= j < 11 ensures MarkerLength(a, j).None? {
      if Plain(a[j]) {
        PlainNoMarker(a, j);
      } else {
        assert j == 6 || j == 8;
        assert a[7] == 'h';
      }
    }
    BmpIdClean(a);
    WatchLinkId(a);
  }

  lemma ThirdSampleId()
    ensures GetYouTubeId(Some(WatchPrefix + "1pHDWnXmK7Y")) == Some("1pHDWnXmK7Y")
  {
    PlainIdClean("1pHDWnXmK7Y");
    WatchLinkId("1pHDWnXmK7Y");
  }

  lemma FourthSampleId()
    ensures GetYouTubeId(Some(WatchPrefix + "umiKiW4En9g")) == Some("umiKiW4En9g")
  {
    var c := "umiKiW4En9g";
    forall j | 0 <= j < 11 ensures MarkerLength(c, j).None? {
      if Plain(c[j]) {
        PlainNoMarker(c, j);
      } else {
        assert j == 0;
        assert c[1] == 'm';
      }
    }
    BmpIdClean(c);
    WatchLinkId(c);
  }

  lemma FifthSampleId()
    ensures GetYouTubeId(Some(WatchPrefix + "aWzlQ2N6qqg")) == Some("aWzlQ2N6qqg")
  {
    PlainIdClean("aWzlQ2N6qqg");
    WatchLinkId("aWzlQ2N6qqg");
  }

  /** A character outside the Basic Multilingual Plane counts as two code
      units: followed by nine plain characters it makes an id of length
      11. */
  lemma AstralShortLinkId()
    ensures GetYouTubeId(Some(ShortPrefix + "\U{1F600}abcdfghij")) == Some("\U{1F600}abcdfghij")
  {
    AstralIdClean();
    ShortLinkId("\U{1F600}abcdfghij");
  }

  lemma AstralIdClean()
    ensures CleanId("\U{1F600}abcdfghij")
  {
    AstralHeadClean('\U{1F600}', "abcdfghij");
    assert "\U{1F600}abcdfghij" == ['\U{1F600}'] + "abcdfghij";
  }

  /** A plain character of two code units followed by nine plain characters
      of one code unit each is a clean id. */
  lemma AstralHeadClean(c: char, rest: string)
    requires Plain(c) && IsIdChar(c) && !IsLineTerminator(c) && !IsBmp(c)
    requires |rest| == 9
    requires forall i :: 0 <= i < 9 ==> Plain(rest[i]) && IsIdChar(rest[i]) && !IsLineTerminator(rest[i]) && IsBmp(rest[i])
    ensures CleanId([c] + rest)
  {
    var id := [c] + rest;
    assert id[1..] == rest;
    Utf16LengthOfBmp(rest);
    assert ToUtf16(id) == Utf16Units(c) + ToUtf16(rest);
    forall j | 0 <= j < |id| ensures MarkerLength(id, j).None? && IsIdChar(id[j]) && !IsLineTerminator(id[j]) {
      if j > 0 {
        assert id[j] == rest[j - 1];
      }
      PlainNoMarker(id, j);
    }
  }
}
