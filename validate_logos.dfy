/**
 * The official logo check (`scripts/validate_official_logos.py`): the teams
 * of `teams.json` are grouped by competition; every competition of the
 * expected-count table must have its expected number of teams, and each of
 * its teams a logo URL whose host is one of the competition's allowed
 * domains. Every problem found counts one error; the exit code is 0 when
 * there is none. The host of a URL (`urlparse(url).netloc`, "" when parsing
 * raises) is the parameter `domain`.
 */
module ValidateLogos {
  import opened Text
  import opened Sorting

  /** A record of `teams.json` as far as the check reads it ("" for a missing or null key). */
  datatype Team = Team(competitionId: string, name: string, logoUrl: string)

  /** `EXPECTED_COUNTS`, in its order. */
  const ExpectedCounts: seq<(string, nat)> := [
    ("premier", 10), ("urc", 16), ("epcr-champions", 24), ("epcr-challenge", 18),
    ("t14", 14), ("m6n", 6), ("w6n", 6), ("u6n", 6),
    ("jrlo-div1", 12), ("jrlo-div2", 8), ("jrlo-div3", 6), ("srp", 11)]

  const EpcrDomains: set<string> := {"www.epcrugby.com", "epcrugby.com", "media-cdn.incrowdsports.com", "media-cdn.cortextech.io"}
  const SixNationsDomains: set<string> := {"www.sixnationsrugby.com", "sixnationsrugby.com", "contentfulproxy.stadion.io",
    "media-cdn.incrowdsports.com", "media-cdn.cortextech.io"}
  const LeagueOneDomains: set<string> := {"league-one.jp", "www.league-one.jp", "league-one.s3.ap-northeast-1.amazonaws.com"}

  /** `ALLOWED_DOMAINS`. */
  const AllowedDomains: map<string, set<string>> := map[
    "premier" := {"media-cdn.incrowdsports.com", "media-cdn.cortextech.io"},
    "urc" := {"www.unitedrugby.com", "unitedrugby.com"},
    "epcr-champions" := EpcrDomains, "epcr-challenge" := EpcrDomains,
    "t14" := {"cdn.lnr.fr"},
    "m6n" := SixNationsDomains, "w6n" := SixNationsDomains, "u6n" := SixNationsDomains,
    "jrlo-div1" := LeagueOneDomains, "jrlo-div2" := LeagueOneDomains, "jrlo-div3" := LeagueOneDomains,
    "srp" := {"www.super.rugby", "super.rugby"}]

  // ------------------------------------------------------------ grouping

  /** The teams of competition `comp`, in file order. */
  function Members(teams: seq<Team>, comp: string): seq<Team>
  {
    if |teams| == 0 then []
    else
      var t := teams[|teams| - 1];
      Members(teams[..|teams| - 1], comp) + (if t.competitionId == comp then [t] else [])
  }

  lemma {:induction false} MembersSpec(teams: seq<Team>, comp: string)
    ensures forall t :: t in Members(teams, comp) <==> t in teams && t.competitionId == comp
  {
    if |teams| > 0 {
      MembersSpec(teams[..|teams| - 1], comp);
      SnocMembers(teams);
    }
  }

  /** `by_comp.get(comp, [])`. */
  function Get(byComp: map<string, seq<Team>>, comp: string): seq<Team>
  {
    if comp in byComp then byComp[comp] else []
  }

  /** `by_comp` after the teams, one team at a time; a team without competition is skipped. */
  function ByComp(teams: seq<Team>): map<string, seq<Team>>
  {
    if |teams| == 0 then map[]
    else
      var m, t := ByComp(teams[..|teams| - 1]), teams[|teams| - 1];
      if t.competitionId == "" then m else m[t.competitionId := Get(m, t.competitionId) + [t]]
  }

  /**
   * Grouping keeps, for every competition, exactly its teams in file order;
   * teams without a competition are in no group, and a competition is a key
   * exactly when some team names it.
   */
  lemma {:induction false} ByCompSpec(teams: seq<Team>)
    ensures "" !in ByComp(teams)
    ensures forall comp :: comp != "" ==> Get(ByComp(teams), comp) == Members(teams, comp)
    ensures forall comp :: comp in ByComp(teams) <==> comp != "" && exists t :: t in teams && t.competitionId == comp
  {
    if |teams| > 0 {
      var init := teams[..|teams| - 1];
      ByCompSpec(init);
      SnocMembers(teams);
    }
  }

  method GroupByComp(teams: seq<Team>) returns (byComp: map<string, seq<Team>>)
    ensures byComp == ByComp(teams)
  {
    byComp := map[];
    var i := 0;
    while i < |teams|
      invariant 0 <= i <= |teams| && byComp == ByComp(teams[..i])
    {
      var comp := teams[i].competitionId;
      if comp != "" {
        byComp := byComp[comp := Get(byComp, comp) + [teams[i]]];
      }
      TakeNext(teams, i);
      assert teams[..i + 1][..i] == teams[..i];
      i := i + 1;
    }
    TakeAll(teams);
  }

  // ------------------------------------------------------------ counting

  /** The errors of one team: a missing logo, or a logo outside a non-empty allowed set. */
  function TeamError(t: Team, allowed: set<string>, domain: string -> string): nat
  {
    if t.logoUrl == "" then 1
    else if allowed != {} && domain(t.logoUrl) !in allowed then 1
    else 0
  }

  function TeamErrorFn(allowed: set<string>, domain: string -> string): Team -> nat
  {
    (t: Team) => TeamError(t, allowed, domain)
  }

  /** Whether a team passes the logo checks. */
  predicate LogoOk(t: Team, allowed: set<string>, domain: string -> string)
  {
    t.logoUrl != "" && (allowed == {} || domain(t.logoUrl) in allowed)
  }

  /**
   * A missing logo is one error whatever its domain would be; a present one
   * is an error exactly when the allowed set is non-empty and lacks its domain.
   */
  lemma TeamErrorRules(t: Team, allowed: set<string>, domain: string -> string, other: string -> string)
    ensures TeamError(t, allowed, domain) <= 1
    ensures TeamError(t, allowed, domain) == 0 <==> LogoOk(t, allowed, domain)
    ensures t.logoUrl == "" ==> TeamError(t, allowed, domain) == 1 && TeamError(t, allowed, other) == 1
    ensures allowed == {} ==> (TeamError(t, allowed, domain) == 0 <==> t.logoUrl != "")
  {
  }

  /** `ALLOWED_DOMAINS.get(comp, set())`. */
  function Allowed(domains: map<string, set<string>>, comp: string): set<string>
  {
    if comp in domains then domains[comp] else {}
  }

  /** The errors of one expected competition: a count mismatch, then each team's. */
  function CompErrors(expected: nat, ts: seq<Team>, allowed: set<string>, domain: string -> string): nat
  {
    (if |ts| != expected then 1 else 0) + SumOf(ts, TeamErrorFn(allowed, domain))
  }

  /** The error counter after the expected competitions `counts`. */
  function Errors(counts: seq<(string, nat)>, byComp: map<string, seq<Team>>, domains: map<string, set<string>>,
      domain: string -> string): nat
  {
    if |counts| == 0 then 0
    else
      var c := counts[|counts| - 1];
      Errors(counts[..|counts| - 1], byComp, domains, domain)
        + CompErrors(c.1, Get(byComp, c.0), Allowed(domains, c.0), domain)
  }

  /** Every expected competition has its count and every one of its teams a valid logo. */
  predicate AllValid(counts: seq<(string, nat)>, byComp: map<string, seq<Team>>, domains: map<string, set<string>>,
      domain: string -> string)
  {
    forall k :: 0 <= k < |counts| ==> CompValid(counts[k], byComp, domains, domain)
  }

  predicate CompValid(c: (string, nat), byComp: map<string, seq<Team>>, domains: map<string, set<string>>,
      domain: string -> string)
  {
    |Get(byComp, c.0)| == c.1 && forall t :: t in Get(byComp, c.0) ==> LogoOk(t, Allowed(domains, c.0), domain)
  }

  lemma CompErrorsZero(c: (string, nat), byComp: map<string, seq<Team>>, domains: map<string, set<string>>,
      domain: string -> string)
    ensures CompErrors(c.1, Get(byComp, c.0), Allowed(domains, c.0), domain) == 0 <==> CompValid(c, byComp, domains, domain)
  {
    var ts, allowed := Get(byComp, c.0), Allowed(domains, c.0);
    SumOfZero(ts, TeamErrorFn(allowed, domain));
    forall t | t in ts ensures TeamError(t, allowed, domain) == 0 <==> LogoOk(t, allowed, domain) {
      TeamErrorRules(t, allowed, domain, domain);
    }
  }

  /** The counter stays zero exactly when every check passes. */
  lemma {:induction false} ErrorsZeroIff(counts: seq<(string, nat)>, byComp: map<string, seq<Team>>,
      domains: map<string, set<string>>, domain: string -> string)
    ensures Errors(counts, byComp, domains, domain) == 0 <==> AllValid(counts, byComp, domains, domain)
  {
    if |counts| > 0 {
      var init := counts[..|counts| - 1];
      ErrorsZeroIff(init, byComp, domains, domain);
      CompErrorsZero(counts[|counts| - 1], byComp, domains, domain);
      assert forall k :: 0 <= k < |init| ==> init[k] == counts[k];
    }
  }

  /** Only the groups of expected competitions count: groups that agree on those give the same errors. */
  lemma {:induction false} OnlyExpectedCount(counts: seq<(string, nat)>, a: map<string, seq<Team>>, b: map<string, seq<Team>>,
      domains: map<string, set<string>>, domain: string -> string)
    requires forall k :: 0 <= k < |counts| ==> Get(a, counts[k].0) == Get(b, counts[k].0)
    ensures Errors(counts, a, domains, domain) == Errors(counts, b, domains, domain)
  {
    if |counts| > 0 {
      var init := counts[..|counts| - 1];
      assert forall k :: 0 <= k < |init| ==> init[k] == counts[k];
      OnlyExpectedCount(init, a, b, domains, domain);
    }
  }

  /** A team without a competition, or of a competition not in the table, changes no error. */
  lemma UncheckedTeamIgnored(counts: seq<(string, nat)>, teams: seq<Team>, t: Team,
      domains: map<string, set<string>>, domain: string -> string)
    requires forall k :: 0 <= k < |counts| ==> counts[k].0 != t.competitionId
    ensures Errors(counts, ByComp(teams + [t]), domains, domain) == Errors(counts, ByComp(teams), domains, domain)
  {
    assert (teams + [t])[..|teams|] == teams;
    OnlyExpectedCount(counts, ByComp(teams + [t]), ByComp(teams), domains, domain);
  }

  /** The team loop of one competition, skipping the domain check of a missing logo. */
  method LogoErrors(ts: seq<Team>, allowed: set<string>, domain: string -> string) returns (n: nat)
    ensures n == SumOf(ts, TeamErrorFn(allowed, domain))
  {
    n := 0;
    var i := 0;
    while i < |ts|
      invariant 0 <= i <= |ts| && n == SumOf(ts[..i], TeamErrorFn(allowed, domain))
    {
      var logo := ts[i].logoUrl;
      TakeNext(ts, i);
      assert ts[..i + 1][..i] == ts[..i];
      if logo == "" {
        n := n + 1;
        i := i + 1;
        continue;
      }
      var d := domain(logo);
      if allowed != {} && d !in allowed {
        n := n + 1;
      }
      i := i + 1;
    }
    TakeAll(ts);
  }

  /** The loop over the expected competitions. */
  method CountErrors(counts: seq<(string, nat)>, byComp: map<string, seq<Team>>, domains: map<string, set<string>>,
      domain: string -> string) returns (errors: nat)
    ensures errors == Errors(counts, byComp, domains, domain)
  {
    errors := 0;
    var i := 0;
    while i < |counts|
      invariant 0 <= i <= |counts| && errors == Errors(counts[..i], byComp, domains, domain)
    {
      var (comp, expected) := counts[i];
      var compTeams := Get(byComp, comp);
      if |compTeams| != expected {
        errors := errors + 1;
      }
      var allowed := Allowed(domains, comp);
      var n := LogoErrors(compTeams, allowed, domain);
      errors := errors + n;
      TakeNext(counts, i);
      assert counts[..i + 1][..i] == counts[..i];
      i := i + 1;
    }
    TakeAll(counts);
  }

  /** The exit code of `main`; `None` is a missing `teams.json`. */
  function ExitCode(teams: Option<seq<Team>>, domain: string -> string): int
  {
    if teams.None? then 1
    else if Errors(ExpectedCounts, ByComp(teams.value), AllowedDomains, domain) == 0 then 0
    else 1
  }

  /** `main`: 0 exactly when the file exists and every check passes, else 1. */
  method CheckOfficialLogos(teams: Option<seq<Team>>, domain: string -> string) returns (code: int)
    ensures code == ExitCode(teams, domain)
  {
    if teams.None? {
      return 1;
    }
    var byComp := GroupByComp(teams.value);
    var errors := CountErrors(ExpectedCounts, byComp, AllowedDomains, domain);
    if errors == 0 {
      return 0;
    }
    return 1;
  }

  /** The exit code is 0 or 1, and 0 exactly when every expected competition passes. */
  lemma ExitCodeSpec(teams: Option<seq<Team>>, domain: string -> string)
    ensures ExitCode(teams, domain) == 0 || ExitCode(teams, domain) == 1
    ensures ExitCode(teams, domain) == 0 <==> teams.Some? && AllValid(ExpectedCounts, ByComp(teams.value), AllowedDomains, domain)
  {
    if teams.Some? {
      ErrorsZeroIff(ExpectedCounts, ByComp(teams.value), AllowedDomains, domain);
    }
  }
}
