/**
 * The track detail page: it looks the route's track up in the page's own
 * catalogue, shows a player only for a track with audio (a status card
 * otherwise, and "Track Not Found" for no track), and formats times as `m:ss`.
 */
module TrackDetail {
  import opened Optional
  import opened Strings

  /** A catalogue entry; the images, descriptions and lyrics are display text and are not kept. */
  datatype Track = Track(
    id: string, title: string, artist: string, status: string, releaseDate: string,
    duration: string, badge: string, audioUrl: Option<string>)

  const Artist: string := "The Sixth Rift"

  const TracksData: seq<Track> := [
    Track("cosmic-dreams", "Cosmic Dreams", Artist, "Coming Soon", "December 2025", "4:12", "New", None),
    Track("digital-rifts", "Digital Rifts", Artist, "In Production", "January 2026", "5:30", "Production", None),
    Track("tabla-fusion", "Tabla Fusion", Artist, "Demo Stage", "February 2026", "3:55", "Demo", None),
    Track("ethereal-voices", "Ethereal Voices", Artist, "Concept Phase", "March 2026", "4:45", "Concept", None)
  ]

  // ---------------------------------------------------------------------------
  // lookup

  /** `t.id === trackId`: an undefined `trackId` equals no id. */
  predicate Matches(t: Track, trackId: Option<string>) {
    trackId == Some(t.id)
  }

  /** `tracks.find(t => t.id === trackId)`. */
  function FindTrack(tracks: seq<Track>, trackId: Option<string>): (r: Option<Track>)
    ensures r.None? <==> forall i :: 0 <= i < |tracks| ==> !Matches(tracks[i], trackId)
    ensures r.Some? ==> Matches(r.value, trackId) && r.value in tracks
  {
    if |tracks| == 0 then None
    else if Matches(tracks[0], trackId) then Some(tracks[0])
    else
      var r := FindTrack(tracks[1..], trackId);
      assert forall i :: 1 <= i < |tracks| ==> tracks[i] == tracks[1..][i - 1];
      r
  }

  /** `find` returns the first match: the entry at a matching index before which nothing matches. */
  lemma {:induction false} FindTrackFirst(tracks: seq<Track>, trackId: Option<string>, i: nat)
    requires i < |tracks| && Matches(tracks[i], trackId)
    requires forall j :: 0 <= j < i ==> !Matches(tracks[j], trackId)
    ensures FindTrack(tracks, trackId) == Some(tracks[i])
  {
    if i > 0 {
      FindTrackFirst(tracks[1..], trackId, i - 1);
    }
  }

  predicate IdsDistinct(tracks: seq<Track>) {
    forall i, j :: 0 <= i < j < |tracks| ==> tracks[i].id != tracks[j].id
  }

  lemma TracksDataIdsDistinct()
    ensures IdsDistinct(TracksData)
  {
  }

  /** With distinct ids a track is found by its own id, whatever its place. */
  lemma FindById(tracks: seq<Track>, i: nat)
    requires IdsDistinct(tracks) && i < |tracks|
    ensures FindTrack(tracks, Some(tracks[i].id)) == Some(tracks[i])
  {
    FindTrackFirst(tracks, Some(tracks[i].id), i);
  }

  // ---------------------------------------------------------------------------
  // routing

  const TrackRoutePrefix: string := "/track/"

  /** The parameters of the route `/track/:slug` when `path` matches it (one non-empty segment). */
  function TrackRouteParams(path: string): (params: Option<map<string, string>>)
    ensures params.Some? ==> params.value.Keys == {"slug"}
  {
    if StartsWith(path, TrackRoutePrefix) && |path| > |TrackRoutePrefix| && '/' !in path[|TrackRoutePrefix|..] then
      Some(map["slug" := path[|TrackRoutePrefix|..]])
    else None
  }

  /** `params.id`. */
  function IdParam(params: map<string, string>): Option<string> {
    if "id" in params then Some(params["id"]) else None
  }

  /** The route names its parameter `slug` and the page reads `id`, so every visit ends at "Track Not Found". */
  lemma EveryVisitNotFound(path: string)
    requires TrackRouteParams(path).Some?
    ensures IdParam(TrackRouteParams(path).value) == None
    ensures FindTrack(TracksData, IdParam(TrackRouteParams(path).value)) == None
  {
  }

  /** The parameter the page evidently means to read: the one the route defines. */
  function SlugParam(params: map<string, string>): (id: Option<string>)
    ensures id.Some? <==> "slug" in params
  {
    if "slug" in params then Some(params["slug"]) else None
  }

  /** `/track/` followed by one non-empty segment matches the route, and the segment is the `slug`. */
  lemma RouteOfSegment(segment: string)
    requires segment != "" && '/' !in segment
    ensures TrackRouteParams(TrackRoutePrefix + segment) == Some(map["slug" := segment])
  {
    var path := TrackRoutePrefix + segment;
    assert path[..|TrackRoutePrefix|] == TrackRoutePrefix;
    assert path[|TrackRoutePrefix|..] == segment;
  }

  lemma CatalogueIdIsSegment(i: nat)
    requires i < |TracksData|
    ensures TracksData[i].id != "" && '/' !in TracksData[i].id
  {
    var ids := ["cosmic-dreams", "digital-rifts", "tabla-fusion", "ethereal-voices"];
    assert TracksData[i].id == ids[i];
    PlainIds(i);
  }

  lemma PlainIds(i: nat)
    requires i < 4
    ensures var ids := ["cosmic-dreams", "digital-rifts", "tabla-fusion", "ethereal-voices"];
      ids[i] != "" && '/' !in ids[i]
  {
  }

  /** Reading `slug`, every catalogue track is shown at `/track/` followed by its id. */
  lemma SlugRouteFindsTrack(i: nat)
    requires i < |TracksData|
    ensures var params := TrackRouteParams(TrackRoutePrefix + TracksData[i].id);
      params.Some? && FindTrack(TracksData, SlugParam(params.value)) == Some(TracksData[i])
  {
    CatalogueIdIsSegment(i);
    RouteOfSegment(TracksData[i].id);
    TracksDataIdsDistinct();
    FindById(TracksData, i);
  }

  // ---------------------------------------------------------------------------
  // what the page shows

  /** `track?.audioUrl` is truthy. */
  predicate HasAudio(track: Option<Track>) {
    track.Some? && track.value.audioUrl.Some? && track.value.audioUrl.value != ""
  }

  datatype View = NotFound | StatusCard(status: string) | Player(audioUrl: string)

  function ViewOf(track: Option<Track>): (v: View)
    ensures v.NotFound? <==> track.None?
    ensures v.Player? <==> HasAudio(track)
  {
    if track.None? then NotFound
    else if HasAudio(track) then Player(track.value.audioUrl.value)
    else StatusCard(track.value.status)
  }

  /**
   * No catalogue entry has audio: any found track gets the status card with its
   * own status, and `TogglePlay` on any page of this catalogue changes nothing.
   */
  lemma CatalogueShowsStatusCards(trackId: Option<string>)
    ensures !HasAudio(FindTrack(TracksData, trackId))
    ensures FindTrack(TracksData, trackId).Some? ==>
      ViewOf(FindTrack(TracksData, trackId)) == StatusCard(FindTrack(TracksData, trackId).value.status)
  {
  }

  // ---------------------------------------------------------------------------
  // times

  /** An `audio` time as the page can see it: not a number, or whole non-negative seconds. */
  datatype Seconds = NaN | Whole(n: nat)

  /** `seconds.toString().padStart(2, "0")`. */
  function TwoDigits(n: nat): string {
    PadStart(Decimal(n), 2, '0')
  }

  /** For `n` below 100 the field is exactly two digits and reads back as `n`. */
  lemma TwoDigitsParse(n: nat)
    requires n < 100
    ensures |TwoDigits(n)| == 2 && IsDigit(TwoDigits(n)[0]) && IsDigit(TwoDigits(n)[1])
    ensures ParseDecimal(TwoDigits(n)) == Some(n)
  {
    var t := TwoDigits(n);
    if n < 10 {
      assert Decimal(n) == [DigitChar(n)];
      assert t == "0" + [DigitChar(n)];
      assert t[..1] == "0";
    } else {
      assert Decimal(n) == Decimal(n / 10) + [DigitChar(n % 10)];
      assert Decimal(n / 10) == [DigitChar(n / 10)];
      ParseDecimalOfDecimal(n);
    }
  }

  /** Two-digit numbers are their two digits, unpadded. */
  lemma TwoDigitsOf(n: nat)
    requires 10 <= n < 100
    ensures TwoDigits(n) == [DigitChar(n / 10), DigitChar(n % 10)]
  {
    assert Decimal(n) == Decimal(n / 10) + [DigitChar(n % 10)];
    assert Decimal(n / 10) == [DigitChar(n / 10)];
  }

  /** The page's `formatTime`: "0:00" for 0 or NaN, otherwise whole minutes, a colon and two-digit seconds. */
  function FormatTime(t: Seconds): (s: string)
    ensures ':' in s
  {
    if t.NaN? || t.n == 0 then "0:00"
    else
      var s := Decimal(t.n / 60) + ":" + TwoDigits(t.n % 60);
      assert s[|Decimal(t.n / 60)|] == ':';
      s
  }

  /** The guard for 0 changes nothing: every whole time is minutes, a colon and the padded remainder. */
  lemma FormatWhole(n: nat)
    ensures FormatTime(Whole(n)) == Decimal(n / 60) + ":" + TwoDigits(n % 60)
  {
    if n == 0 {
      assert Decimal(0) == "0";
      assert TwoDigits(0) == "00";
    }
  }

  /** The seconds field is two digits that read 00 to 59. */
  lemma SecondsField(n: nat)
    ensures var s := FormatTime(Whole(n));
      var i := IndexOf(s, ':');
      |s[i + 1..]| == 2 && ParseDecimal(s[i + 1..]) == Some(n % 60) && n % 60 < 60
  {
    FormatWhole(n);
    IndexOfAfter(Decimal(n / 60), ':', TwoDigits(n % 60));
    TwoDigitsParse(n % 60);
    var s := FormatTime(Whole(n));
    assert s[|Decimal(n / 60)| + 1..] == TwoDigits(n % 60);
  }

  /** Reads `m:ss` back as `m * 60 + ss`, for two-digit seconds below 60. */
  function ParseClock(s: string): Option<nat> {
    if ':' !in s then None
    else
      var i := IndexOf(s, ':');
      ClockValue(ParseDecimal(s[..i]), s[i + 1..])
  }

  /** The value of a clock whose minutes read as `minutes` and whose seconds field is `seconds`. */
  function ClockValue(minutes: Option<nat>, seconds: string): (r: Option<nat>)
    ensures r.Some? ==> minutes.Some? && |seconds| == 2
  {
    if minutes.None? || |seconds| != 2 then None
    else
      match ParseDecimal(seconds)
      case Some(v) => if v < 60 then Some(minutes.value * 60 + v) else None
      case None => None
  }

  /** `m:ss` with a numeral before the colon and two digits below 60 after it reads as `m * 60 + ss`. */
  lemma ParseClockOf(m: string, ss: string, minutes: nat, seconds: nat)
    requires ':' !in m && ParseDecimal(m) == Some(minutes)
    requires |ss| == 2 && ParseDecimal(ss) == Some(seconds) && seconds < 60
    ensures ParseClock(m + [':'] + ss) == Some(minutes * 60 + seconds)
  {
    ClockOfParts(m, ss);
  }

  lemma ClockOfParts(m: string, ss: string)
    requires ':' !in m
    ensures ParseClock(m + [':'] + ss) == ClockValue(ParseDecimal(m), ss)
  {
    var s := m + [':'] + ss;
    IndexOfAfter(m, ':', ss);
    assert s[..|m|] == m;
    assert s[|m| + 1..] == ss;
  }

  /** Round trip: reading the formatted text back gives the whole time again, including 0. */
  lemma ParseFormat(n: nat)
    ensures ParseClock(FormatTime(Whole(n))) == Some(n)
  {
    FormatWhole(n);
    ParseFields(n / 60, n % 60);
  }

  /** Minutes and a seconds count below 60, formatted as the page does, read back as their total. */
  lemma ParseFields(minutes: nat, seconds: nat)
    requires seconds < 60
    ensures ParseClock(Decimal(minutes) + ":" + TwoDigits(seconds)) == Some(minutes * 60 + seconds)
  {
    var m := Decimal(minutes);
    assert ':' !in m by {
      assert forall k :: 0 <= k < |m| ==> IsDigit(m[k]);
    }
    TwoDigitsParse(seconds);
    ParseDecimalOfDecimal(minutes);
    ParseClockOf(m, TwoDigits(seconds), minutes, seconds);
  }

  lemma FormatNaN()
    ensures FormatTime(NaN) == "0:00" && ParseClock(FormatTime(NaN)) == Some(0)
  {
    ParseFormat(0);
  }

  // ---------------------------------------------------------------------------
  // the page's state

  class TrackDetailPage {
    const track: Option<Track>
    /** Whether the `<audio>` element is mounted, so that `audioRef.current` is set. */
    const audioMounted: bool
    var isPlaying: bool
    var currentTime: Seconds
    var duration: Seconds

    /** The page for `trackId`; the audio element is rendered only in the player view. */
    constructor (trackId: Option<string>)
      ensures track == FindTrack(TracksData, trackId)
      ensures audioMounted == ViewOf(track).Player?
      ensures !isPlaying && currentTime == Whole(0) && duration == Whole(0)
    {
      track := FindTrack(TracksData, trackId);
      audioMounted := ViewOf(FindTrack(TracksData, trackId)).Player?;
      isPlaying := false;
      currentTime := Whole(0);
      duration := Whole(0);
    }

    /** `togglePlay`: flips the flag only with a mounted audio element and a truthy `audioUrl`. */
    method TogglePlay()
      modifies this`isPlaying
      ensures isPlaying == if audioMounted && HasAudio(track) then !old(isPlaying) else old(isPlaying)
    {
      if audioMounted && HasAudio(track) {
        isPlaying := !isPlaying;
      }
    }
  }
}
