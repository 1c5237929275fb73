/**
 * The RugbyViz feed collector (`src/collectors/european/rugbyviz.py`): the
 * feed configuration scraped from the fixtures page and cached, the paged
 * match list, the normalisation of one feed match into `build_match`
 * arguments, and the `scrape` pipeline (normalise, `assign_match_ids`,
 * choose the file season, save). The HTTP requests are function parameters
 * and the values `_extract_config_value` finds are given as inputs.
 */
module RugbyViz {
  import opened Text
  import opened Sorting
  import opened BaseMatches
  import BN = BaseNames
  import BC = BaseCatalog

  /** The two feeds: Gallagher Premiership (feed competition 1011) and the United Rugby Championship (1068). */
  const GallagherPremiership: (int, string) := (1011, "gp")
  const UnitedRugbyChampionship: (int, string) := (1068, "urc")

  // ------------------------------------------------------------------ config

  /**
   * What `_extract_config_value` found on the page for each key; "" stands
   * for `None` (a match captures at least one character, so "" is never found).
   */
  datatype RawConfig = RawConfig(apiKey: string, appId: string, realmId: string, clientId: string,
    seasonRaw: string, provider: string)

  /** `_config_cache`. */
  datatype Config = Config(apiKey: string, appId: string, realmId: string, clientId: string,
    season: string, seasonId: string, provider: string)

  /** The config dict `_fetch_config` builds: the season cut to its first four characters, the raw one kept as `season_id`. */
  function MakeConfig(raw: RawConfig): (cfg: Config)
    ensures cfg.seasonId == raw.seasonRaw && StartsWith(raw.seasonRaw, cfg.season)
    ensures |cfg.season| == if |raw.seasonRaw| >= 4 then 4 else |raw.seasonRaw|
    ensures cfg.provider != "" && (raw.provider != "" ==> cfg.provider == raw.provider)
    ensures (cfg.apiKey, cfg.appId, cfg.realmId, cfg.clientId) == (raw.apiKey, raw.appId, raw.realmId, raw.clientId)
  {
    var season := if |raw.seasonRaw| >= 4 then raw.seasonRaw[..4] else raw.seasonRaw;
    Config(raw.apiKey, raw.appId, raw.realmId, raw.clientId, season, raw.seasonRaw,
      if raw.provider != "" then raw.provider else "rugbyviz")
  }

  /** The `seasonId` request parameter: `season_id`, or `season` when that is empty. */
  function SeasonParam(cfg: Config): string
  {
    if cfg.seasonId != "" then cfg.seasonId else cfg.season
  }

  /** The feed is always asked for the raw season, even when the config season was cut to a year. */
  lemma SeasonParamIsRaw(raw: RawConfig)
    ensures SeasonParam(MakeConfig(raw)) == raw.seasonRaw
  {
  }

  // ----------------------------------------------------------- feed matches

  /** A JSON scalar of the feed (`round`, `title`); `Null` also stands for a missing key. */
  datatype Scalar = Null | Int(i: int) | Str(s: string)

  /** Python truthiness of a scalar. */
  predicate Truthy(v: Scalar)
  {
    match v
    case Null => false
    case Int(i) => i != 0
    case Str(s) => s != ""
  }

  /** `str(v)` */
  function Render(v: Scalar): string
  {
    match v
    case Null => "None"
    case Int(i) => IntToString(i)
    case Str(s) => s
  }

  /**
   * One element of the feed's `data` list, each missing or null string
   * read as "": `id`, `date`, `status`, `round`, `title`, the names of
   * `homeTeam`, `awayTeam` and `venue`, `broadcasters`, and the `name` of
   * each `icBroadcasters` entry.
   */
  datatype ApiMatch = ApiMatch(id: string, date: string, status: string, round: Scalar, title: Scalar,
    homeName: string, awayName: string, venueName: string, broadcasters: seq<string>, icNames: seq<string>)

  /** `[b.get("name") for b in ic if b.get("name")]` */
  function NonEmptyNames(names: seq<string>): (r: seq<string>)
    ensures |r| <= |names|
    ensures forall x :: x in r <==> x in names && x != ""
    ensures (forall i :: 0 <= i < |names| ==> names[i] != "") ==> r == names
  {
    if |names| == 0 then []
    else
      var init := NonEmptyNames(names[..|names| - 1]);
      assert names == names[..|names| - 1] + [names[|names| - 1]];
      if names[|names| - 1] != "" then init + [names[|names| - 1]] else init
  }

  /** `broadcasters`, falling back to the named `icBroadcasters` entries when it is empty. */
  function BroadcastersOf(m: ApiMatch): (r: seq<string>)
    ensures |m.broadcasters| > 0 ==> r == m.broadcasters
    ensures |m.broadcasters| == 0 ==> forall x :: x in r <==> x in m.icNames && x != ""
  {
    if |m.broadcasters| > 0 then m.broadcasters else NonEmptyNames(m.icNames)
  }

  /** `round_name`: `Round {round}` when the round is truthy, else `str(title)` when the title is, else "". */
  function RoundNameOf(round: Scalar, title: Scalar): (r: string)
    ensures !Truthy(round) && !Truthy(title) ==> r == ""
    ensures Truthy(round) ==> StartsWith(r, "Round ") && r[6..] == Render(round)
    ensures !Truthy(round) && Truthy(title) ==> r == Render(title)
  {
    if Truthy(round) then "Round " + Render(round)
    else if Truthy(title) then Render(title)
    else ""
  }

  /** A positive round number comes back as the record's `round`; a missing one leaves the digits of the title, or "". */
  lemma RoundNumberOfFeed(round: Scalar, title: Scalar)
    ensures round.Int? && round.i > 0 ==> ExtractRoundNumber(RoundNameOf(round, title)) == IntToString(round.i)
    ensures !Truthy(round) && !Truthy(title) ==> ExtractRoundNumber(RoundNameOf(round, title)) == ""
    ensures !Truthy(round) && title.Str? ==> ExtractRoundNumber(RoundNameOf(round, title)) == ExtractRoundNumber(title.s)
  {
    if round.Int? && round.i > 0 {
      ExtractRoundOfLabel(round.i);
    }
  }

  /** The match season: the first four characters of the date; without a date the config season, else the current year. */
  function MatchSeason(date: string, cfgSeason: string, currentYear: int): (r: string)
    ensures r != ""
    ensures date != "" ==> r == Take(date, 4)
    ensures date == "" ==> r == if cfgSeason != "" then cfgSeason else IntToString(currentYear)
  {
    var fromDate := Take(date, 4);
    if fromDate != "" then fromDate
    else if cfgSeason != "" then cfgSeason
    else IntToString(currentYear)
  }

  /** The season of the saved file: the config season, else the first kickoff's year, else the current year. */
  function FileSeason(cfgSeason: string, firstKickoffUtc: string, currentYear: int): (r: string)
    ensures r != ""
    ensures cfgSeason != "" ==> r == cfgSeason
    ensures cfgSeason == "" && firstKickoffUtc != "" ==> r == Take(firstKickoffUtc, 4)
  {
    if cfgSeason != "" then cfgSeason
    else if firstKickoffUtc != "" then Take(firstKickoffUtc, 4)
    else IntToString(currentYear)
  }

  // ---------------------------------------------------------- normalisation

  /**
   * What stays fixed over a scrape: the collector's update flag, base-name
   * cache, alias-key normalisation and own competition (used when saving),
   * the zone test and the date parser of `_normalize_datetime`, the feed
   * slug and the current year.
   */
  datatype Env = Env(flag: bool, cache: BN.NameCache, aliasKey: string -> string, saveComp: string,
    isZone: string -> bool, clock: string -> (Parsed, (string, string)), slug: string, currentYear: int)

  /** The `build_match` arguments of `_normalize_match`, given the team ids it resolved (`None` for an empty name). */
  function ArgsOf(env: Env, cfgSeason: string, m: ApiMatch, homeId: Option<string>, awayId: Option<string>): BC.MatchInput
  {
    BC.MatchInput(env.slug, MatchSeason(m.date, cfgSeason, env.currentYear),
      m.date, env.clock(m.date).0, env.clock(m.date).1, "UTC",
      m.venueName, m.homeName, m.awayName, "", BroadcastersOf(m),
      RoundNameOf(m.round, m.title), m.status, m.id, homeId, awayId)
  }

  /** `_resolve_team_id(name, slug)` for a non-empty name, `None` otherwise; the catalog afterwards. */
  function IdFor(c: BC.Catalog, env: Env, name: string): (Option<string>, BC.Catalog)
  {
    if name != "" then
      var (id, d) := BC.Resolve(c, env.flag, env.cache, env.aliasKey, name, env.slug);
      (Some(id), d)
    else (None, c)
  }

  /** `_normalize_match(match, config)`: home resolved, then away, then `build_match`. */
  function Normalize(c: BC.Catalog, env: Env, cfgSeason: string, m: ApiMatch): (Match, BC.Catalog)
  {
    var (h, c1) := IdFor(c, env, m.homeName);
    var (a, c2) := IdFor(c1, env, m.awayName);
    BC.BuildMatchSpec(c2, env.flag, env.cache, env.aliasKey, env.isZone, ArgsOf(env, cfgSeason, m, h, a))
  }

  /** An empty name resolves to "" and registers nothing. */
  lemma ResolveEmpty(c: BC.Catalog, flag: bool, cache: BN.NameCache, aliasKey: string -> string, comp: string)
    ensures BC.Resolve(c, flag, cache, aliasKey, "", comp) == ("", c)
  {
  }

  /** The id a side ends with: the resolved one, or "" for an empty name. */
  function IdOrEmpty(id: Option<string>): string { if id.Some? then id.value else "" }

  /** `build_match` resolves nothing more: a side passed as `None` has an empty name, which resolves to "". */
  lemma NormalizeShape(c: BC.Catalog, env: Env, cfgSeason: string, m: ApiMatch)
    ensures var (h, c1) := IdFor(c, env, m.homeName);
      var (a, c2) := IdFor(c1, env, m.awayName);
      Normalize(c, env, cfgSeason, m) == (BC.MatchOf(ArgsOf(env, cfgSeason, m, h, a), env.isZone, IdOrEmpty(h), IdOrEmpty(a)), c2)
  {
    var (h, c1) := IdFor(c, env, m.homeName);
    var (a, c2) := IdFor(c1, env, m.awayName);
    ResolveEmpty(c2, env.flag, env.cache, env.aliasKey, env.slug);
  }

  /** Resolving one side: an empty name gives `None`; with updates off the catalog stays and a found id is one of its keys. */
  lemma IdForSpec(c: BC.Catalog, env: Env, name: string)
    requires BC.WellFormed(c)
    ensures var (id, d) := IdFor(c, env, name);
      BC.WellFormed(d) && BC.Extends(c, d) && (id.None? <==> name == "")
      && (!env.flag ==> d == c && (IdOrEmpty(id) == "" || IdOrEmpty(id) in c.teams))
  {
    if name != "" {
      BC.ResolveTeam(c, env.flag, env.cache, env.aliasKey, name, env.slug);
    } else {
      assert c.ids[..|c.ids|] == c.ids;
    }
  }

  /** The fields of the record of one feed match that do not depend on the catalog. */
  predicate Fields(r: Match, env: Env, cfgSeason: string, m: ApiMatch)
  {
    r.competitionId == env.slug && r.season == MatchSeason(m.date, cfgSeason, env.currentYear)
    && r.round == ExtractRoundNumber(RoundNameOf(m.round, m.title))
    && r.timezone == TimezoneLabel(m.date, env.clock(m.date).0, "UTC", env.isZone)
    && r.venue == m.venueName && r.status == m.status && r.matchId == m.id && r.matchUrl == ""
    && r.homeTeam == m.homeName && r.awayTeam == m.awayName && r.broadcasters == BroadcastersOf(m)
    && (m.homeName == "" ==> r.homeTeamId == "") && (m.awayName == "" ==> r.awayTeamId == "")
  }

  /** What a normalisation step promises: the fields above, a catalog that only grows, and none that changes with updates off. */
  predicate StepOk(c: BC.Catalog, env: Env, cfgSeason: string, m: ApiMatch, r: (Match, BC.Catalog))
  {
    Fields(r.0, env, cfgSeason, m) && BC.WellFormed(r.1) && BC.Extends(c, r.1)
    && (!env.flag ==> r.1 == c && (r.0.homeTeamId == "" || r.0.homeTeamId in c.teams)
                      && (r.0.awayTeamId == "" || r.0.awayTeamId in c.teams))
  }

  /**
   * The record of one feed match: the slug as competition, the match
   * season, the digits of the round name, the `UTC` hint for the time zone,
   * the broadcasters with their fallback, no match url, and "" as the id of
   * an unnamed side; each named side gets the id `_resolve_team_id` gives.
   * With team-master updates off the catalog is unchanged and every id found
   * is one of its keys.
   */
  lemma NormalizeSpec(c: BC.Catalog, env: Env, cfgSeason: string, m: ApiMatch)
    requires BC.WellFormed(c)
    ensures StepOk(c, env, cfgSeason, m, Normalize(c, env, cfgSeason, m))
    ensures m.homeName != "" ==>
      Normalize(c, env, cfgSeason, m).0.homeTeamId == BC.Resolve(c, env.flag, env.cache, env.aliasKey, m.homeName, env.slug).0
  {
    NormalizeShape(c, env, cfgSeason, m);
    var (h, c1) := IdFor(c, env, m.homeName);
    IdForSpec(c, env, m.homeName);
    var (a, c2) := IdFor(c1, env, m.awayName);
    IdForSpec(c1, env, m.awayName);
    BC.ExtendsTrans(c, c1, c2);
  }

  /** `_normalize_match` under a fixed config season, as a step on the catalog. */
  function NormOf(env: Env, cfgSeason: string): (BC.Catalog, ApiMatch) -> (Match, BC.Catalog)
  {
    (c: BC.Catalog, m: ApiMatch) => Normalize(c, env, cfgSeason, m)
  }

  /** Every step of `norm` keeps its promise from a well-formed catalog. */
  ghost predicate NormSound(norm: (BC.Catalog, ApiMatch) -> (Match, BC.Catalog), env: Env, cfgSeason: string)
  {
    forall c: BC.Catalog, m: ApiMatch :: BC.WellFormed(c) ==> StepOk(c, env, cfgSeason, m, norm(c, m))
  }

  lemma NormOfSound(env: Env, cfgSeason: string)
    ensures NormSound(NormOf(env, cfgSeason), env, cfgSeason)
  {
    forall c: BC.Catalog, m: ApiMatch | BC.WellFormed(c)
      ensures StepOk(c, env, cfgSeason, m, NormOf(env, cfgSeason)(c, m))
    {
      NormalizeSpec(c, env, cfgSeason, m);
    }
  }

  /** The list comprehension over every feed match with the step `norm`, the catalog threaded through. */
  function NormalizeAll(c: BC.Catalog, norm: (BC.Catalog, ApiMatch) -> (Match, BC.Catalog), ms: seq<ApiMatch>): (r: (seq<Match>, BC.Catalog))
    ensures |r.0| == |ms|
  {
    if |ms| == 0 then ([], c)
    else
      var (prev, c1) := NormalizeAll(c, norm, ms[..|ms| - 1]);
      var (x, c2) := norm(c1, ms[|ms| - 1]);
      (prev + [x], c2)
  }

  /** What the comprehension promises over `ms` for the result `r`. */
  predicate AllOk(c: BC.Catalog, env: Env, cfgSeason: string, ms: seq<ApiMatch>, r: (seq<Match>, BC.Catalog))
  {
    BC.WellFormed(r.1) && BC.Extends(c, r.1) && (!env.flag ==> r.1 == c)
    && |r.0| == |ms| && forall i :: 0 <= i < |ms| ==> Fields(r.0[i], env, cfgSeason, ms[i])
  }

  /** One more feed match: the comprehension over `ms[..i + 1]` extends the one over `ms[..i]` by one step. */
  lemma NormalizeAllStep(c: BC.Catalog, norm: (BC.Catalog, ApiMatch) -> (Match, BC.Catalog), ms: seq<ApiMatch>, i: nat)
    requires i < |ms|
    ensures var (prev, c1) := NormalizeAll(c, norm, ms[..i]);
      NormalizeAll(c, norm, ms[..i + 1]) == (prev + [norm(c1, ms[i]).0], norm(c1, ms[i]).1)
  {
    assert ms[..i + 1][..i] == ms[..i];
  }

  lemma AllOkSnoc(c: BC.Catalog, env: Env, cfgSeason: string, init: seq<ApiMatch>, m: ApiMatch,
                  prev: (seq<Match>, BC.Catalog), step: (Match, BC.Catalog))
    requires AllOk(c, env, cfgSeason, init, prev)
    requires StepOk(prev.1, env, cfgSeason, m, step)
    ensures AllOk(c, env, cfgSeason, init + [m], (prev.0 + [step.0], step.1))
  {
    BC.ExtendsTrans(c, prev.1, step.1);
    var ms := init + [m];
    var r := prev.0 + [step.0];
    forall i | 0 <= i < |ms| ensures Fields(r[i], env, cfgSeason, ms[i])
    {
      if i < |init| {
        assert ms[i] == init[i] && r[i] == prev.0[i];
      }
    }
  }

  /** Every record carries the fields of its own feed match, and the catalog only grows (and stays with updates off). */
  lemma {:induction false} NormalizeAllSpec(c: BC.Catalog, norm: (BC.Catalog, ApiMatch) -> (Match, BC.Catalog), env: Env, cfgSeason: string, ms: seq<ApiMatch>)
    requires BC.WellFormed(c) && NormSound(norm, env, cfgSeason)
    ensures AllOk(c, env, cfgSeason, ms, NormalizeAll(c, norm, ms))
  {
    if |ms| == 0 {
      assert c.ids[..|c.ids|] == c.ids;
    } else {
      var init := ms[..|ms| - 1];
      NormalizeAllSpec(c, norm, env, cfgSeason, init);
      var prev := NormalizeAll(c, norm, init);
      assert StepOk(prev.1, env, cfgSeason, ms[|ms| - 1], norm(prev.1, ms[|ms| - 1]));
      AllOkSnoc(c, env, cfgSeason, init, ms[|ms| - 1], prev, norm(prev.1, ms[|ms| - 1]));
      assert init + [ms[|ms| - 1]] == ms;
    }
  }

  // ------------------------------------------------------------------ pages

  /** The `data` of pages 1 .. n-1, in page order, from the page fetcher `fetch`. */
  function LaterPages(fetch: int -> seq<ApiMatch>, n: int): seq<ApiMatch>
    decreases n
  {
    if n <= 1 then [] else LaterPages(fetch, n - 1) + fetch(n - 1)
  }

  /** `all_matches`: the first page's data, then pages 1 .. totalPages-1. */
  function AllMatches(first: seq<ApiMatch>, totalPages: int, fetch: int -> seq<ApiMatch>): (r: seq<ApiMatch>)
    ensures totalPages <= 1 ==> r == first
    ensures totalPages >= 2 ==> r == AllMatches(first, totalPages - 1, fetch) + fetch(totalPages - 1)
  {
    first + LaterPages(fetch, totalPages)
  }

  /** The page loop of `scrape`. */
  method CollectPages(first: seq<ApiMatch>, totalPages: int, fetch: int -> seq<ApiMatch>) returns (all: seq<ApiMatch>)
    ensures all == AllMatches(first, totalPages, fetch)
  {
    all := first;
    var page := 1;
    while page < totalPages
      invariant 1 <= page <= (if totalPages >= 1 then totalPages else 1)
      invariant all == first + LaterPages(fetch, page)
    {
      all := all + fetch(page);
      page := page + 1;
    }
    assert LaterPages(fetch, page) == LaterPages(fetch, totalPages);
  }

  // ----------------------------------------------------------------- scrape

  /** What `scrape` ends with: `None` without an api key, else the records and the saved file (`slug/season`), if any. */
  datatype Outcome = NoApiKey | Scraped(matches: seq<Match>, file: Option<string>)

  /** The in-place rewrite of `save_to_json`: home and away names normalised for the collector's own competition. */
  function SavedNames(env: Env, ms: seq<Match>): seq<Match>
  {
    BC.SavedNames(env.saveComp, env.cache, env.aliasKey, ms)
  }

  /** `scrape()` from the config, the records and the catalog. */
  function ScrapeSpec(c: BC.Catalog, env: Env, cfg: Config, all: seq<ApiMatch>): (Outcome, BC.Catalog)
  {
    if cfg.apiKey == "" then (NoApiKey, c)
    else
      var (normalized, d) := NormalizeAll(c, NormOf(env, cfg.season), all);
      if |normalized| == 0 then (Scraped([], None), d)
      else
        var numbered := Assigned(normalized);
        var season := FileSeason(cfg.season, numbered[0].kickoffUtc, env.currentYear);
        (Scraped(SavedNames(env, numbered), Some(env.slug + "/" + season)), d)
  }

  /**
   * `scrape` saves a file exactly when the feed returned matches, one record
   * per feed match. Without a config season the file is named after the
   * year of the earliest UTC kickoff, since `assign_match_ids` sorts by it.
   */
  lemma ScrapeSpecProps(c: BC.Catalog, env: Env, cfg: Config, all: seq<ApiMatch>)
    ensures var (o, d) := ScrapeSpec(c, env, cfg, all);
      (o.NoApiKey? <==> cfg.apiKey == "")
      && (o.Scraped? ==> |o.matches| == |all| && (o.file.Some? <==> |all| > 0))
      && (o.Scraped? && o.file.Some? && cfg.season != "" ==> o.file.value == env.slug + "/" + cfg.season)
      && (o.Scraped? && |all| > 0 && cfg.season == "" ==>
            var numbered := Assigned(NormalizeAll(c, NormOf(env, cfg.season), all).0);
            forall i :: 0 <= i < |numbered| ==> StrLe(numbered[0].kickoffUtc, numbered[i].kickoffUtc))
  {
    if cfg.apiKey != "" && |all| > 0 {
      EarliestFirst(NormalizeAll(c, NormOf(env, cfg.season), all).0);
    }
  }

  /** With `update_team_master` off, `scrape` leaves the team catalog as it found it; with it on, the catalog only grows. */
  lemma ScrapeCatalog(c: BC.Catalog, env: Env, cfg: Config, all: seq<ApiMatch>)
    requires BC.WellFormed(c)
    ensures var d := ScrapeSpec(c, env, cfg, all).1;
      BC.WellFormed(d) && BC.Extends(c, d) && (!env.flag ==> d == c)
  {
    ScrapeSpecCatalog(c, env, cfg, all);
    if cfg.apiKey == "" {
      assert c.ids[..|c.ids|] == c.ids;
    } else {
      NormOfSound(env, cfg.season);
      NormalizeAllSpec(c, NormOf(env, cfg.season), env, cfg.season, all);
    }
  }

  lemma ScrapeSpecCatalog(c: BC.Catalog, env: Env, cfg: Config, all: seq<ApiMatch>)
    ensures ScrapeSpec(c, env, cfg, all).1 == if cfg.apiKey == "" then c else NormalizeAll(c, NormOf(env, cfg.season), all).1
  {
  }

  /** A RugbyViz collector: its feed competition, its slug, the base collector it builds on, and `_config_cache`. */
  class RugbyVizScraper {
    const competitionId: int
    const competitionSlug: string
    const collector: BC.Collector
    var configCache: Option<Config>

    constructor (id: int, slug: string, base: BC.Collector)
      ensures competitionId == id && competitionSlug == slug && collector == base && configCache == None
    {
      competitionId := id;
      competitionSlug := slug;
      collector := base;
      configCache := None;
    }

    /** `_fetch_config()`: the cached config once there is one, else the one built from the page, now cached. */
    method FetchConfig(raw: RawConfig) returns (cfg: Config)
      modifies this
      ensures old(configCache).Some? ==> cfg == old(configCache).value && configCache == old(configCache)
      ensures old(configCache).None? ==> cfg == MakeConfig(raw) && configCache == Some(cfg)
    {
      if configCache.Some? {
        return configCache.value;
      }
      var season := raw.seasonRaw;
      if |season| >= 4 {
        season := season[..4];
      }
      var provider := if raw.provider != "" then raw.provider else "rugbyviz";
      cfg := Config(raw.apiKey, raw.appId, raw.realmId, raw.clientId, season, raw.seasonRaw, provider);
      configCache := Some(cfg);
    }

    /** What the collector's fields and the call's parameters fix for one scrape. */
    function EnvOf(isZone: string -> bool, clock: string -> (Parsed, (string, string)), currentYear: int): Env
    {
      Env(collector.updateTeamMaster, collector.cache, collector.aliasKey, collector.competitionId,
        isZone, clock, competitionSlug, currentYear)
    }

    /** `_normalize_match(match, config)` */
    method NormalizeMatch(m: ApiMatch, cfgSeason: string, isZone: string -> bool,
                          clock: string -> (Parsed, (string, string)), currentYear: int) returns (r: Match)
      requires collector.Valid()
      modifies collector
      ensures collector.Valid()
      ensures (r, collector.Snapshot()) == Normalize(old(collector.Snapshot()), EnvOf(isZone, clock, currentYear), cfgSeason, m)
    {
      var homeId: Option<string> := None;
      if m.homeName != "" {
        var id := collector.ResolveTeamId(m.homeName, competitionSlug);
        homeId := Some(id);
      }
      var awayId: Option<string> := None;
      if m.awayName != "" {
        var id := collector.ResolveTeamId(m.awayName, competitionSlug);
        awayId := Some(id);
      }
      var args := ArgsOf(EnvOf(isZone, clock, currentYear), cfgSeason, m, homeId, awayId);
      r := collector.BuildMatch(args, isZone);
    }

    /** `[self._normalize_match(m, config) for m in all_matches]` */
    method NormalizeEach(all: seq<ApiMatch>, cfgSeason: string, isZone: string -> bool,
                         clock: string -> (Parsed, (string, string)), currentYear: int) returns (normalized: seq<Match>)
      requires collector.Valid()
      modifies collector
      ensures collector.Valid()
      ensures (normalized, collector.Snapshot())
        == NormalizeAll(old(collector.Snapshot()), NormOf(EnvOf(isZone, clock, currentYear), cfgSeason), all)
    {
      ghost var env := EnvOf(isZone, clock, currentYear);
      ghost var c0 := collector.Snapshot();
      normalized := [];
      var i := 0;
      while i < |all|
        invariant 0 <= i <= |all| && collector.Valid()
        invariant env == EnvOf(isZone, clock, currentYear)
        invariant (normalized, collector.Snapshot()) == NormalizeAll(c0, NormOf(env, cfgSeason), all[..i])
      {
        var x := NormalizeMatch(all[i], cfgSeason, isZone, clock, currentYear);
        normalized := normalized + [x];
        NormalizeAllStep(c0, NormOf(env, cfgSeason), all, i);
        i := i + 1;
      }
      assert all[..i] == all;
    }

    /**
     * `scrape()`: fetch the config, stop without an api key, collect the
     * pages, normalise every match, then number, name the file and save.
     */
    method Scrape(raw: RawConfig, first: seq<ApiMatch>, totalPages: int, fetch: int -> seq<ApiMatch>,
                  isZone: string -> bool, clock: string -> (Parsed, (string, string)), currentYear: int)
      returns (r: Option<seq<Match>>, file: Option<string>)
      requires collector.Valid()
      modifies this, collector
      ensures collector.Valid()
      ensures var cfg := if old(configCache).Some? then old(configCache).value else MakeConfig(raw);
        var (o, d) := ScrapeSpec(old(collector.Snapshot()), EnvOf(isZone, clock, currentYear), cfg,
                                 AllMatches(first, totalPages, fetch));
        collector.Snapshot() == d
        && (o.NoApiKey? ==> r.None? && file.None?)
        && (o.Scraped? ==> r == Some(o.matches) && file == o.file)
    {
      var cfg := FetchConfig(raw);
      if cfg.apiKey == "" {
        return None, None;
      }
      var all := CollectPages(first, totalPages, fetch);
      ghost var env := EnvOf(isZone, clock, currentYear);
      var normalized := NormalizeEach(all, cfg.season, isZone, clock, currentYear);
      file := None;
      if |normalized| > 0 {
        AssignedSpec(normalized);
        normalized := AssignMatchIds(normalized);
        var season := cfg.season;
        if season == "" {
          var firstKickoff := normalized[0].kickoffUtc;
          if firstKickoff != "" {
            season := Take(firstKickoff, 4);
          } else {
            season := IntToString(currentYear);
          }
        }
        file := Some(competitionSlug + "/" + season);
        ghost var numbered := normalized;
        normalized := collector.NormalizeForSave(normalized);
        assert normalized == SavedNames(env, numbered);
      }
      r := Some(normalized);
    }
  }
}
