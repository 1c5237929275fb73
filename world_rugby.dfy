/**
 * The World Rugby collector (`src/collectors/international/world_rugby.py`):
 * the date window of the match query, the competition filter, the paged
 * match list, the normalisation of one API match into `build_match`
 * arguments and the `scrape` pipeline (normalise, `assign_match_ids`, save
 * as `wri/<year>`). The HTTP requests are a function parameter, the clock
 * is the `today` argument, and the ISO renderings of a kickoff instant are
 * given as a function of the epoch milliseconds and the offset.
 */
module WorldRugby {
  import opened Text
  import opened Sorting
  import opened BaseMatches
  import BN = BaseNames
  import BC = BaseCatalog

  /** The competition id every record and the saved file carry. */
  const CompetitionId := "wri"
  const MatchUrlPrefix := "https://www.world.rugby/match/"
  const LookbackDays := 30
  const LookaheadDays := 450

  /** The patterns of the internationals scraper: what it keeps, and what it drops first. */
  const IncludePatterns: seq<string> := ["Autumn Nations Series", "Rugby Championship", "Men's Internationals",
    "Women's Internationals", "Pacific Nations Cup", "Nations Championship", "Summer Nations Series"]
  const ExcludePatterns: seq<string> := ["Six Nations", "U20", "U18", "U21", "U19", "Sevens"]

  /** The keep patterns of the two competition scrapers. */
  const RugbyChampionshipPatterns: seq<string> := ["Rugby Championship"]
  const AutumnNationsPatterns: seq<string> := ["Autumn Nations Series"]

  // -------------------------------------------------------------- calendar

  /** A `datetime.date`. */
  datatype Date = Date(year: int, month: int, day: int)

  /** The dates `datetime.date` can hold: years 1 to 9999. */
  predicate ValidDate(d: Date)
  {
    1 <= d.year <= 9999 && 1 <= d.month <= 12 && 1 <= d.day <= DaysIn(d.year, d.month)
  }

  const MinDate := Date(1, 1, 1)
  const MaxDate := Date(9999, 12, 31)

  function YearLength(y: int): int { if IsLeap(y) then 366 else 365 }

  function DaysBeforeYear(y: int): int
    decreases y
  {
    if y <= 1 then 0 else DaysBeforeYear(y - 1) + YearLength(y - 1)
  }

  function DaysBeforeMonth(y: int, m: int): int
    decreases m
  {
    if m <= 1 then 0 else DaysBeforeMonth(y, m - 1) + DaysIn(y, m - 1)
  }

  /** `date.toordinal()`: 0001-01-01 is day 1. */
  function Ordinal(d: Date): int
  {
    DaysBeforeYear(d.year) + DaysBeforeMonth(d.year, d.month) + d.day
  }

  /** The twelve months fill the year. */
  lemma MonthsOfYear(y: int)
    ensures DaysBeforeMonth(y, 12) + 31 == YearLength(y)
  {
    assert DaysBeforeMonth(y, 2) == 31;
    assert DaysBeforeMonth(y, 3) == 31 + DaysIn(y, 2);
    assert DaysBeforeMonth(y, 4) == 62 + DaysIn(y, 2);
    assert DaysBeforeMonth(y, 5) == 92 + DaysIn(y, 2);
    assert DaysBeforeMonth(y, 6) == 123 + DaysIn(y, 2);
    assert DaysBeforeMonth(y, 7) == 153 + DaysIn(y, 2);
    assert DaysBeforeMonth(y, 8) == 184 + DaysIn(y, 2);
    assert DaysBeforeMonth(y, 9) == 215 + DaysIn(y, 2);
    assert DaysBeforeMonth(y, 10) == 245 + DaysIn(y, 2);
    assert DaysBeforeMonth(y, 11) == 276 + DaysIn(y, 2);
    assert DaysBeforeMonth(y, 12) == 306 + DaysIn(y, 2);
  }

  function NextDay(d: Date): (r: Date)
    requires ValidDate(d) && d != MaxDate
    ensures ValidDate(r)
  {
    if d.day < DaysIn(d.year, d.month) then d.(day := d.day + 1)
    else if d.month < 12 then Date(d.year, d.month + 1, 1)
    else Date(d.year + 1, 1, 1)
  }

  function PrevDay(d: Date): (r: Date)
    requires ValidDate(d) && d != MinDate
    ensures ValidDate(r)
  {
    if d.day > 1 then d.(day := d.day - 1)
    else if d.month > 1 then Date(d.year, d.month - 1, DaysIn(d.year, d.month - 1))
    else Date(d.year - 1, 12, 31)
  }

  lemma NextDayOrdinal(d: Date)
    requires ValidDate(d) && d != MaxDate
    ensures Ordinal(NextDay(d)) == Ordinal(d) + 1
  {
    var y, m := d.year, d.month;
    if d.day < DaysIn(y, m) {
    } else if m < 12 {
      assert DaysBeforeMonth(y, m + 1) == DaysBeforeMonth(y, m) + DaysIn(y, m);
    } else {
      MonthsOfYear(y);
      assert DaysBeforeYear(y + 1) == DaysBeforeYear(y) + YearLength(y);
    }
  }

  lemma PrevDayOrdinal(d: Date)
    requires ValidDate(d) && d != MinDate
    ensures Ordinal(PrevDay(d)) == Ordinal(d) - 1
  {
    var y, m := d.year, d.month;
    if d.day > 1 {
    } else if m > 1 {
      assert DaysBeforeMonth(y, m) == DaysBeforeMonth(y, m - 1) + DaysIn(y, m - 1);
    } else {
      MonthsOfYear(y - 1);
      assert DaysBeforeYear(y) == DaysBeforeYear(y - 1) + YearLength(y - 1);
    }
  }

  /** `d + timedelta(days=n)`, one day at a time; `None` where `date` raises `OverflowError`. */
  function AddDays(d: Date, n: int): (r: Option<Date>)
    requires ValidDate(d)
    ensures r.Some? ==> ValidDate(r.value)
    decreases if n < 0 then -n else n
  {
    if n == 0 then Some(d)
    else if n > 0 then (if d == MaxDate then None else AddDays(NextDay(d), n - 1))
    else if d == MinDate then None
    else AddDays(PrevDay(d), n + 1)
  }

  /** Adding days moves the ordinal by exactly that many, and fails exactly when it leaves years 1 to 9999. */
  lemma {:induction false} AddDaysSpec(d: Date, n: int)
    requires ValidDate(d)
    ensures var r := AddDays(d, n);
      (r.Some? <==> 1 <= Ordinal(d) + n <= Ordinal(MaxDate))
      && (r.Some? ==> Ordinal(r.value) == Ordinal(d) + n)
    decreases if n < 0 then -n else n
  {
    if n == 0 {
      OrdinalBounds(d);
    } else if n > 0 {
      if d != MaxDate {
        NextDayOrdinal(d);
        AddDaysSpec(NextDay(d), n - 1);
      }
    } else if d != MinDate {
      PrevDayOrdinal(d);
      AddDaysSpec(PrevDay(d), n + 1);
    }
  }

  /** Every date lies between the first and the last one. */
  lemma OrdinalBounds(d: Date)
    requires ValidDate(d)
    ensures 1 <= Ordinal(d) <= Ordinal(MaxDate)
  {
    var y, m := d.year, d.month;
    DaysBeforeMonthNonNeg(y, m);
    DaysBeforeYearNonNeg(y);
    MonthsOfYear(y);
    MonthsOfYear(9999);
    if m < 12 {
      DaysBeforeMonthStep(y, m);
    }
    assert Ordinal(d) <= DaysBeforeYear(y) + YearLength(y);
    DaysBeforeYearMono(y, 9999);
  }

  lemma DaysBeforeMonthStep(y: int, m: int)
    requires 1 <= m < 12
    ensures DaysBeforeMonth(y, m) + DaysIn(y, m) <= DaysBeforeMonth(y, 12)
  {
    DaysBeforeMonthMono(y, m + 1, 12);
  }

  lemma {:induction false} DaysBeforeMonthMono(y: int, m: int, k: int)
    requires 1 <= m <= k
    ensures 0 <= DaysBeforeMonth(y, m) <= DaysBeforeMonth(y, k)
    decreases k - m
  {
    if m < k {
      DaysBeforeMonthMono(y, m, k - 1);
    } else {
      DaysBeforeMonthNonNeg(y, m);
    }
  }

  lemma {:induction false} DaysBeforeMonthNonNeg(y: int, m: int)
    ensures 0 <= DaysBeforeMonth(y, m)
    decreases m
  {
    if m > 1 {
      DaysBeforeMonthNonNeg(y, m - 1);
    }
  }

  lemma {:induction false} DaysBeforeYearMono(y: int, k: int)
    requires 1 <= y <= k
    ensures 0 <= DaysBeforeYear(y) && DaysBeforeYear(y) + YearLength(y) <= DaysBeforeYear(k) + YearLength(k)
    decreases k - y
  {
    if y < k {
      DaysBeforeYearMono(y, k - 1);
    } else {
      DaysBeforeYearNonNeg(y);
    }
  }

  lemma {:induction false} DaysBeforeYearNonNeg(y: int)
    ensures 0 <= DaysBeforeYear(y)
    decreases y
  {
    if y > 1 {
      DaysBeforeYearNonNeg(y - 1);
    }
  }

  /** `strftime("%Y-%m-%d")`. */
  function Iso(d: Date): (r: string)
    requires ValidDate(d)
    ensures |r| == 10 && r[4] == '-' && r[7] == '-'
    ensures AllDigits(r[..4]) && AllDigits(r[5..7]) && AllDigits(r[8..])
    ensures DigitsValue(r[..4]) == d.year && DigitsValue(r[5..7]) == d.month && DigitsValue(r[8..]) == d.day
  {
    var y, m, dd := Digits4(d.year), Digits2(d.month), Digits2(d.day);
    var r := y + "-" + m + "-" + dd;
    assert r[..4] == y && r[5..7] == m && r[8..] == dd;
    r
  }

  /** `_date_range()`: the dates 30 days before and 450 days after today. */
  function DateWindow(today: Date): (r: Option<(Date, Date)>)
    requires ValidDate(today)
    ensures r.Some? ==> ValidDate(r.value.0) && ValidDate(r.value.1)
  {
    var start := AddDays(today, -LookbackDays);
    var end := AddDays(today, LookaheadDays);
    if start.Some? && end.Some? then Some((start.value, end.value)) else None
  }

  /** The two query dates as `YYYY-MM-DD`. */
  function DateRange(today: Date): Option<(string, string)>
    requires ValidDate(today)
  {
    var w := DateWindow(today);
    if w.Some? then Some((Iso(w.value.0), Iso(w.value.1))) else None
  }

  /**
   * The window opens 30 days before today and closes 450 days after it, so
   * it spans 480 days; it exists exactly when both ends are dates.
   */
  lemma DateWindowSpec(today: Date)
    requires ValidDate(today)
    ensures var w := DateWindow(today);
      (w.Some? <==> 31 <= Ordinal(today) && Ordinal(today) + 450 <= Ordinal(MaxDate))
      && (w.Some? ==> Ordinal(w.value.0) == Ordinal(today) - 30 && Ordinal(w.value.1) == Ordinal(today) + 450
                      && Ordinal(w.value.1) - Ordinal(w.value.0) == 480)
  {
    AddDaysSpec(today, -LookbackDays);
    AddDaysSpec(today, LookaheadDays);
    OrdinalBounds(today);
  }

  // -------------------------------------------------------------- filter

  /** The `competition` field: a string, or anything else (missing, `None`, a dict). */
  datatype Competition = NotString | Str(s: string)

  /** `re.search(pattern, text, re.IGNORECASE)` for a pattern without metacharacters. */
  predicate SearchI(text: string, pattern: string)
  {
    Contains(Lower(text), Lower(pattern))
  }

  /** `any(re.search(p, text, re.IGNORECASE) for p in patterns)` */
  function AnySearch(patterns: seq<string>, text: string): (r: bool)
    ensures r <==> exists i :: 0 <= i < |patterns| && SearchI(text, patterns[i])
  {
    if |patterns| == 0 then false
    else SearchI(text, patterns[0]) || AnySearch(patterns[1..], text)
  }

  /** `_is_target_competition(competition)` */
  function IsTargetCompetition(c: Competition, keep: seq<string>, drop: seq<string>): bool
  {
    if c.NotString? || c.s == "" then false
    else if AnySearch(drop, c.s) then false
    else AnySearch(keep, c.s)
  }

  /** A competition is kept exactly when it is a non-empty string that no drop pattern and some keep pattern finds. */
  lemma IsTargetSpec(c: Competition, keep: seq<string>, drop: seq<string>)
    ensures IsTargetCompetition(c, keep, drop) <==>
      c.Str? && c.s != ""
      && (forall i :: 0 <= i < |drop| ==> !SearchI(c.s, drop[i]))
      && (exists i :: 0 <= i < |keep| && SearchI(c.s, keep[i]))
  {
  }

  /** An drop pattern wins over every keep pattern. */
  lemma ExcludeWins(s: string, keep: seq<string>, drop: seq<string>, i: int)
    requires 0 <= i < |drop| && SearchI(s, drop[i])
    ensures !IsTargetCompetition(Str(s), keep, drop)
  {
    assert AnySearch(drop, s);
  }

  /** The filter ignores letter case. */
  lemma IsTargetCase(s: string, keep: seq<string>, drop: seq<string>)
    ensures IsTargetCompetition(Str(Lower(s)), keep, drop) == IsTargetCompetition(Str(s), keep, drop)
  {
    LowerTwice(s);
    assert forall p :: SearchI(Lower(s), p) == SearchI(s, p);
    AnySearchSame(drop, Lower(s), s);
    AnySearchSame(keep, Lower(s), s);
  }

  lemma LowerTwice(s: string)
    ensures Lower(Lower(s)) == Lower(s)
  {
  }

  lemma {:induction false} AnySearchSame(patterns: seq<string>, a: string, b: string)
    requires Lower(a) == Lower(b)
    ensures AnySearch(patterns, a) == AnySearch(patterns, b)
  {
    if |patterns| > 0 {
      AnySearchSame(patterns[1..], a, b);
    }
  }

  /** More keep patterns keep at least the same competitions. */
  lemma IncludeMonotone(c: Competition, keep1: seq<string>, keep2: seq<string>, drop: seq<string>)
    requires forall p :: p in keep1 ==> p in keep2
    ensures IsTargetCompetition(c, keep1, drop) ==> IsTargetCompetition(c, keep2, drop)
  {
    IsTargetSpec(c, keep1, drop);
    IsTargetSpec(c, keep2, drop);
    if IsTargetCompetition(c, keep1, drop) {
      var i :| 0 <= i < |keep1| && SearchI(c.s, keep1[i]);
      assert keep1[i] in keep2;
      var j :| 0 <= j < |keep2| && keep2[j] == keep1[i];
    }
  }

  /** The Rugby Championship and Autumn Nations scrapers keep a subset of what the internationals scraper keeps. */
  lemma CompetitionScrapersNarrower(c: Competition)
    ensures IsTargetCompetition(c, RugbyChampionshipPatterns, ExcludePatterns) ==> IsTargetCompetition(c, IncludePatterns, ExcludePatterns)
    ensures IsTargetCompetition(c, AutumnNationsPatterns, ExcludePatterns) ==> IsTargetCompetition(c, IncludePatterns, ExcludePatterns)
  {
    assert IncludePatterns[1] == RugbyChampionshipPatterns[0];
    assert IncludePatterns[0] == AutumnNationsPatterns[0];
    IncludeMonotone(c, RugbyChampionshipPatterns, IncludePatterns, ExcludePatterns);
    IncludeMonotone(c, AutumnNationsPatterns, IncludePatterns, ExcludePatterns);
  }

  // ---------------------------------------------------------------- teams

  /** One entry of `teams`: a dict of string fields. */
  type TeamInfo = map<string, string>

  /** `_split_teams(teams)`: the first two entries, `{}` for a missing one. */
  function SplitTeams(teams: seq<TeamInfo>): (TeamInfo, TeamInfo)
  {
    if |teams| >= 2 then (teams[0], teams[1])
    else if |teams| == 1 then (teams[0], map[])
    else (map[], map[])
  }

  /** `team.get("name", "") if team else ""` */
  function TeamName(t: TeamInfo): string
  {
    if t == map[] then "" else if "name" in t then t["name"] else ""
  }

  /** The home side is the first entry and the away side the second; a missing one has no name and later entries are ignored. */
  lemma SplitTeamsSpec(teams: seq<TeamInfo>)
    ensures TeamName(SplitTeams(teams).0) == (if |teams| >= 1 && "name" in teams[0] then teams[0]["name"] else "")
    ensures TeamName(SplitTeams(teams).1) == (if |teams| >= 2 && "name" in teams[1] then teams[1]["name"] else "")
    ensures |teams| > 2 ==> SplitTeams(teams) == SplitTeams(teams[..2])
  {
  }

  // -------------------------------------------------------------- kickoff

  /**
   * The `time` field: the epoch milliseconds, if any, and `gmtOffset`
   * converted to whole seconds (0 when missing).
   */
  datatype TimeInfo = TimeInfo(millis: Option<int>, offsetSeconds: int)

  /** The `tz_name` of `_build_kickoff`: `UTC±HH:MM` with the sign of the offset and its whole minutes. */
  function OffsetName(offsetSeconds: int): string
  {
    var minutes := (if offsetSeconds < 0 then -offsetSeconds else offsetSeconds) / 60;
    "UTC" + [if offsetSeconds >= 0 then '+' else '-'] + Pad2(minutes / 60) + [':'] + Pad2(minutes % 60)
  }

  /** `_build_kickoff(time_info)`'s zone name: "UTC" without milliseconds. */
  function KickoffZone(t: TimeInfo): string
  {
    if t.millis.None? then "UTC" else OffsetName(t.offsetSeconds)
  }

  /**
   * For an offset of whole minutes within a day, the name is the offset
   * `_parse_timezone_offset` reads back, so the zone name of a record
   * names its own offset.
   */
  lemma OffsetNameRoundTrip(offsetSeconds: int)
    requires offsetSeconds % 60 == 0 && -1440 < offsetSeconds / 60 < 1440
    ensures ParseTimezoneOffset(OffsetName(offsetSeconds)) == Some(offsetSeconds / 60)
  {
    var m := offsetSeconds / 60;
    OffsetNameIsFormat(offsetSeconds);
    ParseFormattedOffset(m);
  }

  lemma OffsetNameIsFormat(offsetSeconds: int)
    requires offsetSeconds % 60 == 0
    ensures OffsetName(offsetSeconds) == "UTC" + FormatOffset(offsetSeconds / 60)
  {
    var m := offsetSeconds / 60;
    var a := if offsetSeconds < 0 then -offsetSeconds else offsetSeconds;
    var am := if m < 0 then -m else m;
    assert offsetSeconds == 60 * m;
    assert a == 60 * am;
    assert a / 60 == am;
    assert (offsetSeconds >= 0) == !(m < 0);
  }

  // -------------------------------------------------------- normalisation

  /** The fields of one API match that `_normalize_matches` reads ("" for a missing string). */
  datatype RawMatch = RawMatch(competition: Competition, time: TimeInfo, teams: seq<TeamInfo>,
    venueName: string, eventPhase: string, status: string, matchId: Option<string>)

  /**
   * What stays fixed over a scrape: the collector's update flag, base-name
   * cache, alias-key normalisation and own competition (used when saving),
   * the zone test of `_normalize_datetime`, the local and UTC ISO renderings
   * of an instant (milliseconds, offset seconds), the current year and the
   * scraper's patterns.
   */
  datatype Env = Env(flag: bool, cache: BN.NameCache, aliasKey: string -> string, saveComp: string,
    isZone: string -> bool, render: (int, int) -> (string, string), currentYear: int,
    keep: seq<string>, drop: seq<string>)

  function HomeName(m: RawMatch): string { TeamName(SplitTeams(m.teams).0) }
  function AwayName(m: RawMatch): string { TeamName(SplitTeams(m.teams).1) }

  /** `match_url_template.format(match_id=...)`: a missing id formats as "None". */
  function MatchUrl(id: Option<string>): string
  {
    MatchUrlPrefix + (if id.Some? then id.value else "None")
  }

  /** The `build_match` arguments of one kept match, given the team ids it resolved (`None` for an empty name). */
  function ArgsOf(env: Env, m: RawMatch, homeId: Option<string>, awayId: Option<string>): BC.MatchInput
  {
    var kickoff := if m.time.millis.Some? then IntToString(m.time.millis.value) else "";
    var parsed := if m.time.millis.Some? then Aware(KickoffZone(m.time)) else Unparsed;
    var rendered := if m.time.millis.Some? then env.render(m.time.millis.value, m.time.offsetSeconds) else ("", "");
    BC.MatchInput(CompetitionId, IntToString(env.currentYear), kickoff, parsed, rendered, KickoffZone(m.time),
      m.venueName, HomeName(m), AwayName(m), MatchUrl(m.matchId), [], m.eventPhase, m.status,
      if m.matchId.Some? then m.matchId.value else "", homeId, awayId)
  }

  /** `_resolve_team_id(name, "wri")` for a non-empty name, `None` otherwise; the catalog afterwards. */
  function IdFor(c: BC.Catalog, env: Env, name: string): (Option<string>, BC.Catalog)
  {
    if name != "" then
      var (id, d) := BC.Resolve(c, env.flag, env.cache, env.aliasKey, name, CompetitionId);
      (Some(id), d)
    else (None, c)
  }

  /** One iteration of `_normalize_matches`: a match of another competition is skipped before any team is resolved. */
  function Normalize(c: BC.Catalog, env: Env, m: RawMatch): (Option<Match>, BC.Catalog)
  {
    if !IsTargetCompetition(m.competition, env.keep, env.drop) then (None, c)
    else
      var (h, c1) := IdFor(c, env, HomeName(m));
      var (a, c2) := IdFor(c1, env, AwayName(m));
      var (r, c3) := BC.BuildMatchSpec(c2, env.flag, env.cache, env.aliasKey, env.isZone, ArgsOf(env, m, h, a));
      (Some(r), c3)
  }

  /** One iteration of `_normalize_matches` as a step on the catalog. */
  type NormStep = (BC.Catalog, RawMatch) -> (Option<Match>, BC.Catalog)

  /** `Normalize` under a fixed environment. */
  function NormOf(env: Env): NormStep
  {
    (c: BC.Catalog, m: RawMatch) => Normalize(c, env, m)
  }

  /** The records so far and the catalog after one more step: its record, if any, appended. */
  function Emit(prev: (seq<Match>, BC.Catalog), step: (Option<Match>, BC.Catalog)): (seq<Match>, BC.Catalog)
  {
    (prev.0 + (if step.0.Some? then [step.0.value] else []), step.1)
  }

  /** `_normalize_matches(raw_matches)` with the step `norm`, the catalog threaded through. */
  function NormalizeAll(c: BC.Catalog, norm: NormStep, ms: seq<RawMatch>): (seq<Match>, BC.Catalog)
  {
    if |ms| == 0 then ([], c)
    else
      var prev := NormalizeAll(c, norm, ms[..|ms| - 1]);
      Emit(prev, norm(prev.1, ms[|ms| - 1]))
  }

  /** The loop over `s + [m]` is the loop over `s`, then one step. */
  lemma NormalizeAllSnoc(c: BC.Catalog, norm: NormStep, s: seq<RawMatch>, m: RawMatch)
    ensures var prev := NormalizeAll(c, norm, s);
      NormalizeAll(c, norm, s + [m]) == Emit(prev, norm(prev.1, m))
  {
    assert (s + [m])[..|s|] == s;
  }

  /** The matches of a target competition, in order. */
  function Targets(keep: seq<string>, drop: seq<string>, ms: seq<RawMatch>): (r: seq<RawMatch>)
    ensures forall i :: 0 <= i < |r| ==> IsTargetCompetition(r[i].competition, keep, drop)
  {
    if |ms| == 0 then []
    else
      Targets(keep, drop, ms[..|ms| - 1])
      + (if IsTargetCompetition(ms[|ms| - 1].competition, keep, drop) then [ms[|ms| - 1]] else [])
  }

  /** A step that skips the match of another competition without touching the catalog. */
  ghost predicate Skips(norm: NormStep, keep: seq<string>, drop: seq<string>)
  {
    forall c: BC.Catalog, m: RawMatch :: !IsTargetCompetition(m.competition, keep, drop) ==> norm(c, m) == (None, c)
  }

  lemma NormOfSkips(env: Env)
    ensures Skips(NormOf(env), env.keep, env.drop)
  {
  }

  /** Filtering first changes nothing: a skipped match leaves no record and resolves no team. */
  lemma {:induction false} FilterFirst(c: BC.Catalog, norm: NormStep, keep: seq<string>, drop: seq<string>, ms: seq<RawMatch>)
    requires Skips(norm, keep, drop)
    ensures NormalizeAll(c, norm, ms) == NormalizeAll(c, norm, Targets(keep, drop, ms))
  {
    if |ms| > 0 {
      var init := ms[..|ms| - 1];
      var m := ms[|ms| - 1];
      assert init + [m] == ms;
      FilterFirst(c, norm, keep, drop, init);
      NormalizeAllSnoc(c, norm, init, m);
      var prev := NormalizeAll(c, norm, init);
      if IsTargetCompetition(m.competition, keep, drop) {
        assert Targets(keep, drop, ms) == Targets(keep, drop, init) + [m];
        NormalizeAllSnoc(c, norm, Targets(keep, drop, init), m);
      } else {
        assert Targets(keep, drop, ms) == Targets(keep, drop, init);
        assert norm(prev.1, m) == (None, prev.1);
        assert prev.0 + [] == prev.0;
      }
    }
  }

  /** "wri" is no national-team competition, so its teams resolve as clubs of "wri" (see `ClubResolve`). */
  lemma WriIsClub()
    ensures CompetitionId !in BN.InternationalCompetitions
  {
  }

  /** In a competition without national-team ids, no national id is tried. */
  lemma ClubResolve(c: BC.Catalog, flag: bool, cache: BN.NameCache, aliasKey: string -> string, name: string, comp: string)
    requires comp !in BN.InternationalCompetitions
    ensures var base := BN.NormalizeTeamName(name, comp, cache, aliasKey);
      BC.Resolve(c, flag, cache, aliasKey, name, comp) == BC.ResolveWith(c, flag, name, base, "", comp)
  {
    var base := BN.NormalizeTeamName(name, comp, cache, aliasKey);
    assert BC.NationalIdFor(base, comp) == "";
  }

  /** The id a side ends with: the resolved one, or "" for an empty name. */
  function IdOrEmpty(id: Option<string>): string { if id.Some? then id.value else "" }

  /** The fields of the record of one kept match that do not depend on the catalog. */
  predicate Fields(r: Match, env: Env, m: RawMatch)
  {
    r.competitionId == CompetitionId && r.season == IntToString(env.currentYear)
    && r.round == ExtractRoundNumber(m.eventPhase) && r.status == m.status && r.venue == m.venueName
    && r.timezone == KickoffZone(m.time)
    && (m.time.millis.None? ==> r.kickoff == "" && r.kickoffUtc == "")
    && r.matchId == (if m.matchId.Some? then m.matchId.value else "") && r.matchUrl == MatchUrl(m.matchId)
    && r.homeTeam == HomeName(m) && r.awayTeam == AwayName(m) && r.broadcasters == []
    && (HomeName(m) == "" ==> r.homeTeamId == "") && (AwayName(m) == "" ==> r.awayTeamId == "")
  }

  /** What one step promises: a record exactly for a kept match, a catalog that only grows, and none that changes with updates off. */
  predicate StepOk(c: BC.Catalog, env: Env, m: RawMatch, r: (Option<Match>, BC.Catalog))
  {
    (r.0.Some? <==> IsTargetCompetition(m.competition, env.keep, env.drop))
    && (r.0.Some? ==>
          Fields(r.0.value, env, m)
          && (!env.flag ==> (r.0.value.homeTeamId == "" || r.0.value.homeTeamId in c.teams)
                            && (r.0.value.awayTeamId == "" || r.0.value.awayTeamId in c.teams)))
    && BC.WellFormed(r.1) && BC.Extends(c, r.1) && (!env.flag ==> r.1 == c)
  }

  /** An empty name resolves to "" and registers nothing. */
  lemma ResolveEmpty(c: BC.Catalog, flag: bool, cache: BN.NameCache, aliasKey: string -> string)
    ensures BC.Resolve(c, flag, cache, aliasKey, "", CompetitionId) == ("", c)
  {
  }

  /** Resolving one side: an empty name gives `None`; with updates off the catalog stays and a found id is one of its keys. */
  lemma IdForSpec(c: BC.Catalog, env: Env, name: string)
    requires BC.WellFormed(c)
    ensures var (id, d) := IdFor(c, env, name);
      BC.WellFormed(d) && BC.Extends(c, d) && (id.None? <==> name == "")
      && (!env.flag ==> d == c && (IdOrEmpty(id) == "" || IdOrEmpty(id) in c.teams))
  {
    if name != "" {
      BC.ResolveTeam(c, env.flag, env.cache, env.aliasKey, name, CompetitionId);
    } else {
      assert c.ids[..|c.ids|] == c.ids;
    }
  }

  /** `build_match` resolves nothing more: a side passed as `None` has an empty name. */
  lemma NormalizeShape(c: BC.Catalog, env: Env, m: RawMatch)
    requires IsTargetCompetition(m.competition, env.keep, env.drop)
    ensures var (h, c1) := IdFor(c, env, HomeName(m));
      var (a, c2) := IdFor(c1, env, AwayName(m));
      Normalize(c, env, m) == (Some(BC.MatchOf(ArgsOf(env, m, h, a), env.isZone, IdOrEmpty(h), IdOrEmpty(a))), c2)
  {
    var (h, c1) := IdFor(c, env, HomeName(m));
    var (a, c2) := IdFor(c1, env, AwayName(m));
    ResolveEmpty(c2, env.flag, env.cache, env.aliasKey);
    ResolveEmpty(c1, env.flag, env.cache, env.aliasKey);
  }

  /** The record's fields, read off `MatchOf`. */
  lemma MatchOfFields(env: Env, m: RawMatch, h: Option<string>, a: Option<string>)
    requires h.None? <==> HomeName(m) == ""
    requires a.None? <==> AwayName(m) == ""
    ensures Fields(BC.MatchOf(ArgsOf(env, m, h, a), env.isZone, IdOrEmpty(h), IdOrEmpty(a)), env, m)
  {
  }

  /**
   * One API match: a record exactly when its competition is a target, with
   * "wri" as competition, the current year as season, the digits of the
   * event phase as round, the zone name of `_build_kickoff`, the match url
   * and no broadcasters; a named side gets the id `_resolve_team_id` gives.
   */
  lemma NormalizeSpec(c: BC.Catalog, env: Env, m: RawMatch)
    requires BC.WellFormed(c)
    ensures StepOk(c, env, m, Normalize(c, env, m))
  {
    if IsTargetCompetition(m.competition, env.keep, env.drop) {
      NormalizeShape(c, env, m);
      var (h, c1) := IdFor(c, env, HomeName(m));
      IdForSpec(c, env, HomeName(m));
      var (a, c2) := IdFor(c1, env, AwayName(m));
      IdForSpec(c1, env, AwayName(m));
      BC.ExtendsTrans(c, c1, c2);
      MatchOfFields(env, m, h, a);
    } else {
      assert c.ids[..|c.ids|] == c.ids;
    }
  }

  /** Every step of `norm` keeps its promise from a well-formed catalog. */
  ghost predicate NormSound(norm: NormStep, env: Env)
  {
    forall c: BC.Catalog, m: RawMatch :: BC.WellFormed(c) ==> StepOk(c, env, m, norm(c, m))
  }

  lemma NormOfSound(env: Env)
    ensures NormSound(NormOf(env), env)
  {
    forall c: BC.Catalog, m: RawMatch | BC.WellFormed(c)
      ensures StepOk(c, env, m, NormOf(env)(c, m))
    {
      NormalizeSpec(c, env, m);
    }
  }

  /** What the loop promises over `ms` for the result `r`: one record per kept match, in order. */
  predicate AllOk(c: BC.Catalog, env: Env, ms: seq<RawMatch>, r: (seq<Match>, BC.Catalog))
  {
    BC.WellFormed(r.1) && BC.Extends(c, r.1) && (!env.flag ==> r.1 == c)
    && var ts := Targets(env.keep, env.drop, ms);
    |r.0| == |ts| && forall i :: 0 <= i < |ts| ==> Fields(r.0[i], env, ts[i])
  }

  lemma AllOkSnoc(c: BC.Catalog, env: Env, init: seq<RawMatch>, m: RawMatch,
                  prev: (seq<Match>, BC.Catalog), step: (Option<Match>, BC.Catalog))
    requires AllOk(c, env, init, prev)
    requires StepOk(prev.1, env, m, step)
    ensures AllOk(c, env, init + [m], Emit(prev, step))
  {
    BC.ExtendsTrans(c, prev.1, step.1);
    var ms := init + [m];
    assert ms[..|ms| - 1] == init;
    var ts := Targets(env.keep, env.drop, ms);
    var r := prev.0 + (if step.0.Some? then [step.0.value] else []);
    assert ts == Targets(env.keep, env.drop, init) + (if step.0.Some? then [m] else []);
    forall i | 0 <= i < |ts| ensures Fields(r[i], env, ts[i])
    {
      if i < |Targets(env.keep, env.drop, init)| {
        assert ts[i] == Targets(env.keep, env.drop, init)[i] && r[i] == prev.0[i];
      }
    }
  }

  /** Every record carries the fields of its own kept match, and the catalog only grows (and stays with updates off). */
  lemma {:induction false} NormalizeAllSpec(c: BC.Catalog, norm: NormStep, env: Env, ms: seq<RawMatch>)
    requires BC.WellFormed(c) && NormSound(norm, env)
    ensures AllOk(c, env, ms, NormalizeAll(c, norm, ms))
  {
    if |ms| == 0 {
      assert c.ids[..|c.ids|] == c.ids;
    } else {
      var init := ms[..|ms| - 1];
      NormalizeAllSpec(c, norm, env, init);
      var prev := NormalizeAll(c, norm, init);
      assert StepOk(prev.1, env, ms[|ms| - 1], norm(prev.1, ms[|ms| - 1]));
      AllOkSnoc(c, env, init, ms[|ms| - 1], prev, norm(prev.1, ms[|ms| - 1]));
      assert init + [ms[|ms| - 1]] == ms;
      NormalizeAllSnoc(c, norm, init, ms[|ms| - 1]);
    }
  }

  /** One more match: the loop over `ms[..i + 1]` extends the one over `ms[..i]` by one step. */
  lemma NormalizeAllStep(c: BC.Catalog, norm: NormStep, ms: seq<RawMatch>, i: nat)
    requires i < |ms|
    ensures var prev := NormalizeAll(c, norm, ms[..i]);
      NormalizeAll(c, norm, ms[..i + 1]) == Emit(prev, norm(prev.1, ms[i]))
  {
    assert ms[..i + 1] == ms[..i] + [ms[i]];
    NormalizeAllSnoc(c, norm, ms[..i], ms[i]);
  }

  /** Normalising two lists one after the other is normalising their concatenation. */
  lemma {:induction false} NormalizeAllAppend(c: BC.Catalog, norm: NormStep, a: seq<RawMatch>, b: seq<RawMatch>)
    ensures var ra := NormalizeAll(c, norm, a);
      var rb := NormalizeAll(ra.1, norm, b);
      NormalizeAll(c, norm, a + b) == (ra.0 + rb.0, rb.1)
  {
    if |b| == 0 {
      assert a + b == a;
      assert NormalizeAll(c, norm, a).0 + [] == NormalizeAll(c, norm, a).0;
    } else {
      var b0, x := b[..|b| - 1], b[|b| - 1];
      NormalizeAllAppend(c, norm, a, b0);
      assert a + b == (a + b0) + [x] && b == b0 + [x];
      NormalizeAllSnoc(c, norm, a + b0, x);
      var ra := NormalizeAll(c, norm, a);
      NormalizeAllSnoc(ra.1, norm, b0, x);
      var rb0 := NormalizeAll(ra.1, norm, b0);
      var step := norm(rb0.1, x);
      assert (ra.0 + rb0.0) + (if step.0.Some? then [step.0.value] else [])
          == ra.0 + (rb0.0 + (if step.0.Some? then [step.0.value] else []));
    }
  }

  // ---------------------------------------------------------------- pages

  /** One response of the match endpoint: `pageInfo.numPages` (0 when missing) and `content`. */
  datatype Page = Page(numPages: int, content: seq<RawMatch>)

  /** The content of pages 1 .. n-1, in page order, from the page fetcher `fetch`. */
  function LaterPages(fetch: int -> Page, n: int): seq<RawMatch>
    decreases n
  {
    if n <= 1 then [] else LaterPages(fetch, n - 1) + fetch(n - 1).content
  }

  lemma LaterPagesStep(first: seq<RawMatch>, fetch: int -> Page, page: int)
    requires page >= 1
    ensures (first + LaterPages(fetch, page)) + fetch(page).content == first + LaterPages(fetch, page + 1)
  {
  }

  /** One more page, normalised on its own from where the previous pages left the catalog. */
  lemma PageStep(c: BC.Catalog, norm: NormStep, first: seq<RawMatch>, fetch: int -> Page, page: int,
                 prev: (seq<Match>, BC.Catalog), more: (seq<Match>, BC.Catalog))
    requires page >= 1
    requires prev == NormalizeAll(c, norm, first + LaterPages(fetch, page))
    requires more == NormalizeAll(prev.1, norm, fetch(page).content)
    ensures (prev.0 + more.0, more.1) == NormalizeAll(c, norm, first + LaterPages(fetch, page + 1))
  {
    NormalizeAllAppend(c, norm, first + LaterPages(fetch, page), fetch(page).content);
    LaterPagesStep(first, fetch, page);
  }

  /** Every match `_fetch_matches` sees: page 0's content, then pages 1 .. numPages-1 of page 0's count. */
  function AllContent(fetch: int -> Page): seq<RawMatch>
  {
    fetch(0).content + LaterPages(fetch, fetch(0).numPages)
  }

  // ---------------------------------------------------------------- scrape

  /** What `scrape` returns and saves from the normalised records and the catalog after them. */
  function Finish(env: Env, res: (seq<Match>, BC.Catalog)): (Option<seq<Match>>, Option<string>, BC.Catalog)
  {
    if |res.0| == 0 then (Some([]), None, res.1)
    else
      (Some(BC.SavedNames(env.saveComp, env.cache, env.aliasKey, Assigned(res.0))),
       Some(CompetitionId + "/" + IntToString(env.currentYear)), res.1)
  }

  /** What `scrape` returns and saves once the pages are fetched. */
  function ScrapeFrom(c: BC.Catalog, env: Env, all: seq<RawMatch>): (Option<seq<Match>>, Option<string>, BC.Catalog)
  {
    Finish(env, NormalizeAll(c, NormOf(env), all))
  }

  /** `scrape()`: `None` when a window date overflows, else the outcome on the pages fetched for the window. */
  function ScrapeSpec(c: BC.Catalog, env: Env, today: Date, fetch: (string, string) -> (int -> Page))
    : (Option<seq<Match>>, Option<string>, BC.Catalog)
    requires ValidDate(today)
  {
    var range := DateRange(today);
    if range.None? then (None, None, c)
    else ScrapeFrom(c, env, AllContent(fetch(range.value.0, range.value.1)))
  }

  /**
   * Once the pages are in, `scrape` saves `wri/<year>` exactly when some
   * fetched match is of a target competition, one record per such match.
   */
  lemma ScrapeFromProps(c: BC.Catalog, env: Env, all: seq<RawMatch>)
    requires BC.WellFormed(c)
    ensures var (r, file, d) := ScrapeFrom(c, env, all);
      var ts := Targets(env.keep, env.drop, all);
      r.Some? && |r.value| == |ts| && (file.Some? <==> |ts| > 0)
      && (file.Some? ==> file.value == "wri/" + IntToString(env.currentYear))
      && BC.WellFormed(d) && BC.Extends(c, d) && (!env.flag ==> d == c)
  {
    var res := NormalizeAll(c, NormOf(env), all);
    NormOfSound(env);
    NormalizeAllSpec(c, NormOf(env), env, all);
    assert AllOk(c, env, all, res);
    FinishProps(env, res);
  }

  /** One record per normalised record, saved under `wri/<year>` when there is at least one. */
  lemma FinishProps(env: Env, res: (seq<Match>, BC.Catalog))
    ensures var (r, file, d) := Finish(env, res);
      r.Some? && |r.value| == |res.0| && (file.Some? <==> |res.0| > 0) && d == res.1
      && (file.Some? ==> file.value == "wri/" + IntToString(env.currentYear))
  {
    if |res.0| > 0 {
      AssignedSpec(res.0);
    }
  }

  /** `scrape` returns `None` exactly when the date window overflows, and then saves nothing and changes nothing. */
  lemma ScrapeSpecProps(c: BC.Catalog, env: Env, today: Date, fetch: (string, string) -> (int -> Page))
    requires ValidDate(today)
    ensures var (r, file, d) := ScrapeSpec(c, env, today, fetch);
      (r.None? <==> DateWindow(today).None?)
      && (r.None? ==> file.None? && d == c)
      && (r.Some? ==> (r, file, d) == ScrapeFrom(c, env, AllContent(fetch(DateRange(today).value.0, DateRange(today).value.1))))
  {
    if DateRange(today).Some? {
      var range := DateRange(today).value;
      var all := AllContent(fetch(range.0, range.1));
      assert ScrapeFrom(c, env, all).0.Some?;
    }
  }

  /**
   * A World Rugby scraper: the base collector it builds on and its keep
   * and drop patterns (the competition scrapers replace the keep list).
   */
  class WorldRugbyScraper {
    const collector: BC.Collector
    const includePatterns: seq<string>
    const excludePatterns: seq<string>

    /** `WorldRugbyInternationalsScraper()` */
    constructor (base: BC.Collector)
      ensures collector == base && includePatterns == IncludePatterns && excludePatterns == ExcludePatterns
    {
      collector := base;
      includePatterns := IncludePatterns;
      excludePatterns := ExcludePatterns;
    }

    /** `WorldRugbyCompetitionScraper(include_patterns)`; `RugbyChampionshipScraper` and `AutumnNationsSeriesScraper` pass their one pattern. */
    constructor WithPatterns(base: BC.Collector, keep: seq<string>)
      ensures collector == base && includePatterns == keep && excludePatterns == ExcludePatterns
    {
      collector := base;
      includePatterns := keep;
      excludePatterns := ExcludePatterns;
    }

    /** What the collector's fields, the scraper's patterns and the call's parameters fix for one scrape. */
    function EnvOf(isZone: string -> bool, render: (int, int) -> (string, string), currentYear: int): Env
    {
      Env(collector.updateTeamMaster, collector.cache, collector.aliasKey, collector.competitionId,
        isZone, render, currentYear, includePatterns, excludePatterns)
    }

    /** `_is_target_competition(competition)` */
    method IsTarget(competition: Competition) returns (r: bool)
      ensures r == IsTargetCompetition(competition, includePatterns, excludePatterns)
    {
      if competition.NotString? || competition.s == "" {
        return false;
      }
      var i := 0;
      while i < |excludePatterns|
        invariant 0 <= i <= |excludePatterns|
        invariant AnySearch(excludePatterns, competition.s) == AnySearch(excludePatterns[i..], competition.s)
      {
        assert excludePatterns[i..][1..] == excludePatterns[i + 1..];
        if SearchI(competition.s, excludePatterns[i]) {
          return false;
        }
        i := i + 1;
      }
      var j := 0;
      while j < |includePatterns|
        invariant 0 <= j <= |includePatterns|
        invariant AnySearch(includePatterns, competition.s) == AnySearch(includePatterns[j..], competition.s)
      {
        assert includePatterns[j..][1..] == includePatterns[j + 1..];
        if SearchI(competition.s, includePatterns[j]) {
          return true;
        }
        j := j + 1;
      }
      return false;
    }

    /** One iteration of `_normalize_matches`. */
    method NormalizeMatch(m: RawMatch, isZone: string -> bool, render: (int, int) -> (string, string), currentYear: int)
      returns (r: Option<Match>)
      requires collector.Valid()
      modifies collector
      ensures collector.Valid()
      ensures (r, collector.Snapshot()) == Normalize(old(collector.Snapshot()), EnvOf(isZone, render, currentYear), m)
    {
      var target := IsTarget(m.competition);
      if !target {
        return None;
      }
      var home, away := SplitTeams(m.teams).0, SplitTeams(m.teams).1;
      var homeName := TeamName(home);
      var awayName := TeamName(away);
      var homeId: Option<string> := None;
      if homeName != "" {
        var id := collector.ResolveTeamId(homeName, CompetitionId);
        homeId := Some(id);
      }
      var awayId: Option<string> := None;
      if awayName != "" {
        var id := collector.ResolveTeamId(awayName, CompetitionId);
        awayId := Some(id);
      }
      var args := ArgsOf(EnvOf(isZone, render, currentYear), m, homeId, awayId);
      var x := collector.BuildMatch(args, isZone);
      r := Some(x);
    }

    /** `_normalize_matches(raw_matches)` */
    method NormalizeMatches(raws: seq<RawMatch>, isZone: string -> bool, render: (int, int) -> (string, string), currentYear: int)
      returns (normalized: seq<Match>)
      requires collector.Valid()
      modifies collector
      ensures collector.Valid()
      ensures (normalized, collector.Snapshot()) == NormalizeAll(old(collector.Snapshot()), NormOf(EnvOf(isZone, render, currentYear)), raws)
    {
      ghost var env := EnvOf(isZone, render, currentYear);
      ghost var c0 := collector.Snapshot();
      normalized := [];
      var i := 0;
      while i < |raws|
        invariant 0 <= i <= |raws| && collector.Valid()
        invariant env == EnvOf(isZone, render, currentYear)
        invariant (normalized, collector.Snapshot()) == NormalizeAll(c0, NormOf(env), raws[..i])
      {
        ghost var prev := (normalized, collector.Snapshot());
        var x := NormalizeMatch(raws[i], isZone, render, currentYear);
        if x.Some? {
          normalized := normalized + [x.value];
        } else {
          assert normalized + [] == normalized;
        }
        assert (normalized, collector.Snapshot()) == Emit(prev, (x, collector.Snapshot()));
        NormalizeAllStep(c0, NormOf(env), raws, i);
        i := i + 1;
      }
      assert raws[..i] == raws;
    }

    /** `_fetch_matches(start_date, end_date)`: page 0, then every later page it announces, each normalised as it arrives. */
    method FetchMatches(fetch: int -> Page, isZone: string -> bool, render: (int, int) -> (string, string), currentYear: int)
      returns (matches: seq<Match>)
      requires collector.Valid()
      modifies collector
      ensures collector.Valid()
      ensures (matches, collector.Snapshot()) == NormalizeAll(old(collector.Snapshot()), NormOf(EnvOf(isZone, render, currentYear)), AllContent(fetch))
    {
      ghost var env := EnvOf(isZone, render, currentYear);
      ghost var c0 := collector.Snapshot();
      var firstPage := fetch(0);
      var totalPages := firstPage.numPages;
      matches := NormalizeMatches(firstPage.content, isZone, render, currentYear);
      assert firstPage.content + LaterPages(fetch, 1) == firstPage.content;
      var page := 1;
      while page < totalPages
        invariant 1 <= page <= (if totalPages >= 1 then totalPages else 1)
        invariant collector.Valid() && env == EnvOf(isZone, render, currentYear)
        invariant (matches, collector.Snapshot()) == NormalizeAll(c0, NormOf(env), firstPage.content + LaterPages(fetch, page))
      {
        ghost var prev := (matches, collector.Snapshot());
        var more := NormalizeMatches(fetch(page).content, isZone, render, currentYear);
        PageStep(c0, NormOf(env), firstPage.content, fetch, page, prev, (more, collector.Snapshot()));
        matches := matches + more;
        page := page + 1;
      }
      assert LaterPages(fetch, page) == LaterPages(fetch, totalPages);
    }

    /**
     * `scrape()`: the date window (an overflow ends the scrape with `None`),
     * the pages, then, when there are matches, `assign_match_ids` and the
     * save as `wri/<year>`, whose name rewrite the returned records share.
     */
    method Scrape(today: Date, fetch: (string, string) -> (int -> Page), isZone: string -> bool,
                  render: (int, int) -> (string, string))
      returns (r: Option<seq<Match>>, file: Option<string>)
      requires ValidDate(today) && collector.Valid()
      modifies collector
      ensures collector.Valid()
      ensures (r, file, collector.Snapshot()) == ScrapeSpec(old(collector.Snapshot()), EnvOf(isZone, render, today.year), today, fetch)
    {
      var start := AddDays(today, -LookbackDays);
      var end := AddDays(today, LookaheadDays);
      if start.None? || end.None? {
        return None, None;
      }
      var startDate, endDate := Iso(start.value), Iso(end.value);
      var matches := FetchMatches(fetch(startDate, endDate), isZone, render, today.year);
      file := None;
      if |matches| > 0 {
        matches := AssignMatchIds(matches);
        file := Some(CompetitionId + "/" + IntToString(today.year));
        matches := collector.NormalizeForSave(matches);
      }
      r := Some(matches);
    }
  }
}
