/**
 * `src/scraper/six_nations.py`: the pure helpers of the Six Nations
 * fixtures scraper. A CSS class attribute is tested for a class with a given
 * prefix, the home team fixes one of three time zones, and the kickoff is
 * read first from a `DDMMYYYY-HHMM` run in the match link, then from the
 * displayed date and time. The page loading and the HTML walk are not
 * modelled; dateutil's fuzzy parse of the displayed text is the parameter
 * `parseDisplay`.
 */
module SixNations {
  import opened Text

  // ------------------------------------------------------------ class prefix

  /** A `class` attribute as BeautifulSoup hands it over: missing, one string, or a list of classes. */
  datatype Classes = NoClasses | ClassText(text: string) | ClassList(items: seq<string>)

  /** The classes the attribute names (`classes.split()` for a string). */
  function Members(classes: Classes): seq<string>
  {
    match classes
    case NoClasses => []
    case ClassText(s) => Split(s)
    case ClassList(cs) => cs
  }

  /** `any(cls.startswith(prefix) for cls in cs)` */
  function AnyStartsWith(cs: seq<string>, prefix: string): (r: bool)
    ensures r <==> exists i :: 0 <= i < |cs| && StartsWith(cs[i], prefix)
  {
    if |cs| == 0 then false
    else AnyStartsWith(cs[..|cs| - 1], prefix) || StartsWith(cs[|cs| - 1], prefix)
  }

  /** `_class_has_prefix(classes, prefix)` */
  function ClassHasPrefix(classes: Classes, prefix: string): bool
  {
    match classes
    case NoClasses => false
    case ClassText(s) => s != "" && AnyStartsWith(Split(s), prefix)
    case ClassList(cs) => cs != [] && AnyStartsWith(cs, prefix)
  }

  /** A falsy attribute (missing, "" or []) has no class with the prefix. */
  lemma ClassHasPrefixFalsy(classes: Classes, prefix: string)
    requires classes == NoClasses || classes == ClassText("") || classes == ClassList([])
    ensures !ClassHasPrefix(classes, prefix)
  {
  }

  /** Otherwise the test holds exactly when one of the named classes starts with the prefix. */
  lemma ClassHasPrefixSpec(classes: Classes, prefix: string)
    ensures ClassHasPrefix(classes, prefix) <==> exists i :: 0 <= i < |Members(classes)| && StartsWith(Members(classes)[i], prefix)
  {
    match classes
    case NoClasses =>
    case ClassText(t) =>
      if t == "" { EmptySplit(t); }
      assert Members(classes) == Split(t);
    case ClassList(cs) =>
      assert Members(classes) == cs;
  }

  lemma EmptySplit(t: string)
    requires t == ""
    ensures Split(t) == []
  {
  }

  /** The string form and the list of its whitespace-separated classes give the same answer. */
  lemma ClassTextAsList(s: string, prefix: string)
    ensures ClassHasPrefix(ClassText(s), prefix) == ClassHasPrefix(ClassList(Split(s)), prefix)
  {
    if s == "" {
      EmptySplit(s);
    }
  }

  // --------------------------------------------------------------- time zone

  /** `_infer_timezone(home_team)`: France and Italy play at home in Paris and Rome time, everyone else in London time. */
  function InferTimezone(homeTeam: string): string
  {
    ZoneOfKey(Upper(Strip(homeTeam)))
  }

  /** The zone for the stripped, upper-cased `team_key`. */
  function ZoneOfKey(key: string): string
  {
    if key == "FRA" || key == "FRANCE" then "Europe/Paris"
    else if key == "ITA" || key == "ITALY" then "Europe/Rome"
    else "Europe/London"
  }

  lemma UpperChars(s: string)
    ensures forall i :: 0 <= i < |s| ==> (IsSpace(Upper(s)[i]) <==> IsSpace(s[i]))
    ensures Upper(Upper(s)) == Upper(s)
  {
  }

  lemma UpperLower(s: string)
    ensures Upper(Lower(s)) == Upper(s)
  {
  }

  /** The three zones are the only answers, Paris and Rome exactly for the two spellings of France and of Italy. */
  lemma InferTimezoneSpec(homeTeam: string)
    ensures var key := Upper(Strip(homeTeam));
      var tz := InferTimezone(homeTeam);
      (tz == "Europe/Paris" || tz == "Europe/Rome" || tz == "Europe/London")
      && (tz == "Europe/Paris" <==> key == "FRA" || key == "FRANCE")
      && (tz == "Europe/Rome" <==> key == "ITA" || key == "ITALY")
  {
  }

  /** The team's spelling does not matter. */
  lemma InferTimezoneCase(homeTeam: string)
    ensures InferTimezone(Lower(homeTeam)) == InferTimezone(homeTeam)
  {
    LowerStrip(homeTeam);
  }

  /** Nor does surrounding whitespace: the answer for the stripped, upper-cased name is the same. */
  lemma InferTimezoneOfKey(homeTeam: string)
    ensures InferTimezone(Upper(Strip(homeTeam))) == InferTimezone(homeTeam)
  {
    var t := Strip(homeTeam);
    assert Trimmed(t);
    UpperKey(t);
  }

  /** The key of an already stripped, upper-cased name is the name itself. */
  lemma UpperKey(t: string)
    requires Trimmed(t)
    ensures Upper(Strip(Upper(t))) == Upper(t)
  {
    UpperChars(t);
    assert Trimmed(Upper(t));
    StripOfTrimmed(Upper(t));
  }

  /** Lower-casing commutes with stripping, and upper-casing forgets it. */
  lemma LowerStrip(s: string)
    ensures Upper(Strip(Lower(s))) == Upper(Strip(s))
  {
    StripLower(s);
    UpperLower(Strip(s));
  }

  lemma {:induction false} StripLower(s: string)
    ensures Strip(Lower(s)) == Lower(Strip(s))
  {
    StripLeftLower(s);
    StripRightLower(StripLeft(s));
    assert Strip(Lower(s)) == StripRight(StripLeft(Lower(s)));
  }

  lemma {:induction false} StripLeftLower(s: string)
    ensures StripLeft(Lower(s)) == Lower(StripLeft(s))
    decreases |s|
  {
    if |s| > 0 && IsSpace(s[0]) {
      assert Lower(s)[1..] == Lower(s[1..]);
      StripLeftLower(s[1..]);
    }
  }

  lemma {:induction false} StripRightLower(s: string)
    ensures StripRight(Lower(s)) == Lower(StripRight(s))
    decreases |s|
  {
    if |s| > 0 {
      var n := |s| - 1;
      LowerLast(s);
      if IsSpace(s[n]) {
        StripRightLower(s[..n]);
      }
    }
  }

  /** Lower-casing keeps whether the last character is whitespace, and commutes with dropping it. */
  lemma LowerLast(s: string)
    requires |s| > 0
    ensures IsSpace(Lower(s)[|s| - 1]) == IsSpace(s[|s| - 1])
    ensures Lower(s)[..|s| - 1] == Lower(s[..|s| - 1])
  {
    assert Lower(s)[|s| - 1] == LowerChar(s[|s| - 1]);
  }

  // ------------------------------------------------------------ url datetime

  /** A wall-clock time with the name of its zone (`datetime(...).replace(tzinfo=ZoneInfo(zone))`). */
  datatype WallClock = WallClock(year: int, month: int, day: int, hour: int, minute: int, zone: string)

  /** `(\d{2})(\d{2})(\d{4})-(\d{2})(\d{2})` matches at position `i`. */
  predicate RunAt(url: string, i: int)
  {
    0 <= i && i + 13 <= |url|
    && AllDigits(url[i..i + 2]) && AllDigits(url[i + 2..i + 4]) && AllDigits(url[i + 4..i + 8])
    && url[i + 8] == '-' && AllDigits(url[i + 9..i + 11]) && AllDigits(url[i + 11..i + 13])
  }

  /** `re.search` of that pattern from position `i`: the leftmost match. */
  function FirstRunFrom(url: string, i: nat): (r: Option<nat>)
    ensures r.Some? ==> i <= r.value && RunAt(url, r.value) && forall j :: i <= j < r.value ==> !RunAt(url, j)
    ensures r.None? ==> forall j :: i <= j ==> !RunAt(url, j)
    decreases |url| - i
  {
    if i + 13 > |url| then None
    else if RunAt(url, i) then Some(i)
    else FirstRunFrom(url, i + 1)
  }

  /** What `datetime(year, month, day, hour, minute, 0)` accepts without a ValueError. */
  predicate ValidClock(year: int, month: int, day: int, hour: int, minute: int)
  {
    1 <= year <= 9999 && 1 <= month <= 12 && 1 <= day <= DaysIn(year, month) && 0 <= hour < 24 && 0 <= minute < 60
  }

  /** The five groups of the match at `i`, as `int(...)` reads them. */
  function ClockAt(url: string, i: nat, zone: string): WallClock
    requires RunAt(url, i)
  {
    WallClock(DigitsValue(url[i + 4..i + 8]), DigitsValue(url[i + 2..i + 4]), DigitsValue(url[i..i + 2]),
              DigitsValue(url[i + 9..i + 11]), DigitsValue(url[i + 11..i + 13]), zone)
  }

  predicate Valid(w: WallClock) { ValidClock(w.year, w.month, w.day, w.hour, w.minute) }

  /** `_extract_datetime_from_url(url, timezone_name)`: only the first run is read; an impossible date gives None. */
  function ExtractDatetimeFromUrl(url: string, zone: string): Option<WallClock>
  {
    match FirstRunFrom(url, 0)
    case None => None
    case Some(i) => if Valid(ClockAt(url, i, zone)) then Some(ClockAt(url, i, zone)) else None
  }

  /**
   * A time is found exactly when the url has a run and its leftmost run is
   * a real date and time; the time is that run's, in the given zone. A later
   * run is never tried.
   */
  lemma ExtractSpec(url: string, zone: string)
    ensures var r := ExtractDatetimeFromUrl(url, zone);
      (r.None? <==> (forall j :: !RunAt(url, j)) || exists i :: RunAt(url, i) && !Valid(ClockAt(url, i, zone)) && forall j :: 0 <= j < i ==> !RunAt(url, j))
      && (r.Some? ==> exists i :: RunAt(url, i) && r.value == ClockAt(url, i, zone) && Valid(r.value) && forall j :: 0 <= j < i ==> !RunAt(url, j))
  {
    var f := FirstRunFrom(url, 0);
    if f.Some? {
      var i := f.value;
      forall i' | RunAt(url, i') && forall j :: 0 <= j < i' ==> !RunAt(url, j)
        ensures i' == i
      {
      }
    } else {
      forall j ensures !RunAt(url, j) {
        if j >= 0 { assert !RunAt(url, j); }
      }
    }
  }

  /** The `DDMMYYYY-HHMM` stamp of a valid time, as the fixture links carry it. */
  function Stamp(w: WallClock): (r: string)
    requires Valid(w)
    ensures |r| == 13
  {
    Digits2(w.day) + Digits2(w.month) + Digits4(w.year) + "-" + Digits2(w.hour) + Digits2(w.minute)
  }

  /** A run laid out in `url` at `|p|`. */
  lemma StampPieces(url: string, p: string, q: string, w: WallClock, st: string)
    requires Valid(w) && st == Stamp(w) && url == p + st + q
    ensures RunAt(url, |p|) && ClockAt(url, |p|, w.zone) == w
  {
    var i := |p|;
    assert url[i..i + 13] == st;
    assert url[i..i + 2] == st[0..2] == Digits2(w.day);
    assert url[i + 2..i + 4] == st[2..4] == Digits2(w.month);
    assert url[i + 4..i + 8] == st[4..8] == Digits4(w.year);
    assert url[i + 8] == st[8] == '-';
    assert url[i + 9..i + 11] == st[9..11] == Digits2(w.hour);
    assert url[i + 11..i + 13] == st[11..13] == Digits2(w.minute);
  }

  /** Round trip: a link whose text before the stamp has no digit gives back the stamped time. */
  lemma ExtractOfStamp(p: string, q: string, w: WallClock)
    requires Valid(w) && forall k :: 0 <= k < |p| ==> !IsDigit(p[k])
    ensures ExtractDatetimeFromUrl(p + Stamp(w) + q, w.zone) == Some(w)
  {
    var url := p + Stamp(w) + q;
    StampPieces(url, p, q, w, Stamp(w));
    forall j | 0 <= j < |p| ensures !RunAt(url, j) {
      assert url[j] == p[j];
    }
    var f := FirstRunFrom(url, 0);
    assert f == Some(|p|);
  }

  // ----------------------------------------------------------------- kickoff

  /**
   * The kickoff of `_extract_match_info`: from the card's link when it has a
   * non-empty href and the link yields a time; otherwise from
   * "{current_date} {time text}" when both are there, read in the home
   * team's zone; otherwise none.
   */
  function Kickoff(href: Option<string>, currentDate: string, timeText: Option<string>, zone: string,
                   parseDisplay: string -> Option<WallClock>): Option<WallClock>
  {
    var fromUrl := if href.Some? && href.value != "" then ExtractDatetimeFromUrl(href.value, zone) else None;
    if fromUrl.Some? then fromUrl
    else if currentDate != "" && timeText.Some? && Strip(timeText.value) != "" then
      match parseDisplay(currentDate + " " + Strip(timeText.value))
      case None => None
      case Some(d) => Some(d.(zone := zone))
    else None
  }

  /** Where the link yields a time it wins, the display text is then never read, and every kickoff is in the home team's zone. */
  lemma KickoffSpec(href: Option<string>, currentDate: string, timeText: Option<string>, zone: string,
                    parseDisplay: string -> Option<WallClock>, otherParse: string -> Option<WallClock>)
    ensures var r := Kickoff(href, currentDate, timeText, zone, parseDisplay);
      (r.Some? ==> r.value.zone == zone)
      && (href.Some? && href.value != "" && ExtractDatetimeFromUrl(href.value, zone).Some? ==>
            r == ExtractDatetimeFromUrl(href.value, zone) && r == Kickoff(href, currentDate, timeText, zone, otherParse))
      && (r.Some? && (href.None? || href.value == "" || ExtractDatetimeFromUrl(href.value, zone).None?) ==>
            currentDate != "" && timeText.Some? && Strip(timeText.value) != ""
            && parseDisplay(currentDate + " " + Strip(timeText.value)).Some?)
  {
    if href.Some? && href.value != "" {
      ExtractSpec(href.value, zone);
    }
  }
}
