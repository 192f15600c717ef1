/**
 * The home page's music section: the featured track's play control and
 * clock, and the test ids of the upcoming tracks.
 */
module MusicPlayer {
  import opened Optional
  import opened Strings
  import TrackDetail

  /** The featured track's length, 3:47 in seconds. */
  const FeaturedDuration: nat := 227

  /**
   * The player's state. The section renders no `<audio>` element, so the
   * reference is always null and only the flag changes.
   */
  class MusicPlayerState {
    var isPlaying: bool
    var currentTime: nat
    var duration: nat

    constructor ()
      ensures !isPlaying && currentTime == 0 && duration == FeaturedDuration
    {
      isPlaying := false;
      currentTime := 0;
      duration := FeaturedDuration;
    }

    /** `togglePlay`: the flag flips whether or not there is an audio element. */
    method TogglePlay()
      modifies this`isPlaying
      ensures isPlaying == !old(isPlaying)
    {
      isPlaying := !isPlaying;
    }
  }

  /** The section's `formatTime` on whole seconds: it has no special case for 0. */
  function FormatTime(t: nat): (s: string)
    ensures ':' in s
  {
    var s := Decimal(t / 60) + ":" + TrackDetail.TwoDigits(t % 60);
    assert s[|Decimal(t / 60)|] == ':';
    s
  }

  /** On whole seconds the two formatters agree, "0:00" at 0 included. */
  lemma AgreesWithTrackDetail(t: nat)
    ensures FormatTime(t) == TrackDetail.FormatTime(TrackDetail.Whole(t))
  {
    TrackDetail.FormatWhole(t);
  }

  /** The seconds field is two digits reading 00 to 59, and the text reads back as `t`. */
  lemma FormatTimeFields(t: nat)
    ensures var s := FormatTime(t);
      var i := IndexOf(s, ':');
      |s[i + 1..]| == 2 && ParseDecimal(s[i + 1..]) == Some(t % 60)
    ensures TrackDetail.ParseClock(FormatTime(t)) == Some(t)
  {
    AgreesWithTrackDetail(t);
    TrackDetail.SecondsField(t);
    TrackDetail.ParseFormat(t);
  }

  /** The featured track's duration shows as "3:47", its listed length. */
  lemma FeaturedDurationShown()
    ensures FormatTime(FeaturedDuration) == "3:47"
  {
    ClockOf(FeaturedDuration, 3, 47);
    SpelledClock();
  }

  lemma SpelledClock()
    ensures [DigitChar(3), ':', DigitChar(4), DigitChar(7)] == "3:47"
  {
  }

  /** Under ten minutes, with ten seconds or more left over, the clock is four characters `m:ss`. */
  lemma ClockOf(t: nat, m: nat, s: nat)
    requires m < 10 && 10 <= s < 60 && t / 60 == m && t % 60 == s
    ensures FormatTime(t) == [DigitChar(m), ':', DigitChar(s / 10), DigitChar(s % 10)]
  {
    ClockText(m, s);
  }

  /** A one-digit minute count and a two-digit seconds count make four characters `m:ss`. */
  lemma ClockText(m: nat, s: nat)
    requires m < 10 && 10 <= s < 100
    ensures Decimal(m) + ":" + TrackDetail.TwoDigits(s) == [DigitChar(m), ':', DigitChar(s / 10), DigitChar(s % 10)]
  {
    assert Decimal(m) == [DigitChar(m)];
    TrackDetail.TwoDigitsOf(s);
    FourCharacters(DigitChar(m), DigitChar(s / 10), DigitChar(s % 10));
  }

  lemma FourCharacters(a: char, b: char, c: char)
    ensures [a] + ":" + [b, c] == [a, ':', b, c]
  {
  }

  // ---------------------------------------------------------------------------
  // test ids

  const UpcomingTitles: seq<string> := ["Cosmic Dreams", "Digital Rifts", "Tabla Fusion", "Ethereal Voices"]

  /** `title.toLowerCase().replace(' ', '-')`: a string pattern replaces only the first space. */
  function Slug(title: string): (slug: string)
    ensures |slug| == |title|
  {
    ReplaceFirst(ToLower(title), ' ', '-')
  }

  /** A title with at most one space gives a slug with none; with more, the later spaces stay. */
  lemma SlugSpaces(title: string)
    ensures Count(title, ' ') <= 1 ==> ' ' !in Slug(title)
    ensures Count(title, ' ') >= 2 ==> ' ' in Slug(title)
  {
    LowerKeepsSpaces(title);
    FirstReplaced(ToLower(title));
  }

  /** Replacing the first space leaves one space fewer. */
  lemma FirstReplaced(s: string)
    ensures Count(ReplaceFirst(s, ' ', '-'), ' ') == if ' ' in s then Count(s, ' ') - 1 else 0
  {
    if ' ' in s {
      var i := IndexOf(s, ' ');
      var t := ReplaceFirst(s, ' ', '-');
      assert s == s[..i] + [' '] + s[i + 1..];
      assert t == s[..i] + ['-'] + s[i + 1..];
      CountAppend(s[..i] + [' '], s[i + 1..], ' ');
      CountAppend(s[..i], [' '], ' ');
      CountAppend(s[..i] + ['-'], s[i + 1..], ' ');
      CountAppend(s[..i], ['-'], ' ');
    }
  }

  /** Lowering the case keeps exactly the spaces. */
  lemma {:induction false} LowerKeepsSpaces(title: string)
    ensures Count(ToLower(title), ' ') == Count(title, ' ')
  {
    if |title| > 0 {
      LowerKeepsSpaces(title[1..]);
      assert ToLower(title)[1..] == ToLower(title[1..]);
    }
  }

  lemma OneSpace(a: string, b: string)
    requires ' ' !in a && ' ' !in b
    ensures ' ' !in Slug(a + " " + b)
  {
    CountAppend(a + " ", b, ' ');
    CountAppend(a, " ", ' ');
    SlugSpaces(a + " " + b);
  }

  /** Every upcoming title has one space, so its slug has none. */
  lemma UpcomingSlugsHaveNoSpace()
    ensures forall k :: 0 <= k < |UpcomingTitles| ==> ' ' !in Slug(UpcomingTitles[k])
  {
    forall k | 0 <= k < |UpcomingTitles|
      ensures ' ' !in Slug(UpcomingTitles[k])
    {
      UpcomingSlugAt(k);
    }
  }

  lemma UpcomingSlugAt(k: nat)
    requires k < |UpcomingTitles|
    ensures ' ' !in Slug(UpcomingTitles[k])
  {
    if k == 0 {
      assert UpcomingTitles[k] == "Cosmic" + " " + "Dreams";
      OneSpace("Cosmic", "Dreams");
    } else if k == 1 {
      assert UpcomingTitles[k] == "Digital" + " " + "Rifts";
      OneSpace("Digital", "Rifts");
    } else if k == 2 {
      assert UpcomingTitles[k] == "Tabla" + " " + "Fusion";
      OneSpace("Tabla", "Fusion");
    } else {
      assert UpcomingTitles[k] == "Ethereal" + " " + "Voices";
      OneSpace("Ethereal", "Voices");
    }
  }

  /** Two words joined by one space give their lowered forms joined by `-`. */
  lemma TwoWordSlug(a: string, b: string)
    requires ' ' !in a
    ensures Slug(a + " " + b) == ToLower(a) + "-" + ToLower(b)
  {
    var lower := ToLower(a + " " + b);
    assert lower == ToLower(a) + " " + ToLower(b);
    assert ' ' !in ToLower(a);
    IndexOfAfter(ToLower(a), ' ', ToLower(b));
  }

  /** The first card's id suffix is "cosmic-dreams". */
  lemma CosmicDreamsSlug()
    ensures Slug(UpcomingTitles[0]) == "cosmic-dreams"
  {
    FirstTitleWords();
    TwoWordSlug("Cosmic", "Dreams");
    CosmicDreamsLowered();
  }

  lemma FirstTitleWords()
    ensures UpcomingTitles[0] == "Cosmic" + " " + "Dreams"
  {
  }

  lemma CosmicDreamsLowered()
    ensures ToLower("Cosmic") + "-" + ToLower("Dreams") == "cosmic-dreams"
  {
    assert ToLower("Cosmic") == "cosmic";
    assert ToLower("Dreams") == "dreams";
  }
}
