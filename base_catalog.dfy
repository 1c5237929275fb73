/**
 * The team catalog of the base collector (src/collectors/base.py):
 * `_team_master` as an ordered map from team id to record, the base-name
 * cache built from it, registration of national and club teams,
 * `_resolve_team_id`, the official-logo pass, `build_match` and the name
 * normalisation `save_to_json` applies. Every change to the catalog is
 * gated by `_update_team_master`; writing teams.json is left out and
 * assumed to succeed.
 */
module BaseCatalog {
  import opened Text
  import opened Sorting
  import opened BaseNames
  import opened BaseMatches

  /** One teams.json entry; missing fields read as "". */
  datatype TeamRecord = TeamRecord(
    id: string, competitionId: string, name: string, nameJa: string, shortName: string,
    country: string, division: string, logoUrl: string, badgeUrl: string)

  /** `_team_master`: the keys in dict insertion order and the record of each. */
  datatype Catalog = Catalog(ids: seq<string>, teams: map<string, TeamRecord>)

  predicate WellFormed(c: Catalog)
  {
    Distinct(c.ids) && (forall k :: k in c.teams ==> k in c.ids) && (forall k :: k in c.ids ==> k in c.teams)
  }

  /** `d` keeps every key of `c` in order, and every record of `c` unchanged. */
  predicate Extends(c: Catalog, d: Catalog)
  {
    |c.ids| <= |d.ids| && d.ids[..|c.ids|] == c.ids
    && forall k :: k in c.teams ==> k in d.teams && d.teams[k] == c.teams[k]
  }

  /** `team_master[id] = rec`: a new key goes to the end of the dict order. */
  function Put(c: Catalog, id: string, rec: TeamRecord): Catalog
  {
    if id in c.teams then Catalog(c.ids, c.teams[id := rec]) else Catalog(c.ids + [id], c.teams[id := rec])
  }

  lemma PutNew(c: Catalog, id: string, rec: TeamRecord)
    requires WellFormed(c) && id !in c.teams
    ensures var d := Put(c, id, rec);
      WellFormed(d) && Extends(c, d) && d.ids == c.ids + [id] && d.teams[id] == rec
  {
    var d := Put(c, id, rec);
    assert id !in c.ids;
    assert d.ids[..|c.ids|] == c.ids;
    forall i, j | 0 <= i < j < |d.ids| ensures d.ids[i] != d.ids[j] {
      if j == |c.ids| { assert d.ids[i] == c.ids[i]; }
    }
  }

  /** `dict.get(key, "")` on a string-valued dict. */
  function Get(info: map<string, string>, key: string): string
  {
    if key in info then info[key] else ""
  }

  // ------------------------------------------------------------ registration

  /** The record `_register_national_team` writes. */
  function NationalRecord(id: string, name: string, comp: string): TeamRecord
  {
    TeamRecord(id, comp, name, "", name, "", "", "", "")
  }

  /** The record `_register_club_team` writes: the raw name, the first 20 characters as short name. */
  function ClubRecord(id: string, name: string, comp: string, info: map<string, string>): TeamRecord
  {
    TeamRecord(id, comp, name, "", Take(name, 20), "", "", Get(info, "logo_url"), Get(info, "badge_url"))
  }

  /** `_register_national_team`: (registered?, new catalog). */
  function RegisterNational(c: Catalog, flag: bool, id: string, name: string, comp: string): (bool, Catalog)
  {
    if !flag || id == "" || id in c.teams then (false, c)
    else (true, Put(c, id, NationalRecord(id, name, comp)))
  }

  /** `_register_club_team`: (registered?, new catalog). */
  function RegisterClub(c: Catalog, flag: bool, id: string, name: string, comp: string, info: map<string, string>): (bool, Catalog)
  {
    if !flag || id == "" || id in c.teams then (false, c)
    else (true, Put(c, id, ClubRecord(id, name, comp, info)))
  }

  /**
   * Registering a national team succeeds exactly when updates are on and the
   * id is new; it then appends one record named after the team, and
   * otherwise changes nothing. No existing record is ever overwritten.
   */
  lemma RegisterNationalSpec(c: Catalog, flag: bool, id: string, name: string, comp: string)
    requires WellFormed(c)
    ensures var r := RegisterNational(c, flag, id, name, comp);
      WellFormed(r.1) && Extends(c, r.1)
      && (r.0 <==> flag && id != "" && id !in c.teams)
      && (!r.0 ==> r.1 == c)
      && (r.0 ==> r.1.ids == c.ids + [id] && r.1.teams[id].name == name
                  && r.1.teams[id].shortName == name && r.1.teams[id].competitionId == comp)
  {
    if flag && id != "" && id !in c.teams { PutNew(c, id, NationalRecord(id, name, comp)); }
  }

  /**
   * Registering a club succeeds exactly when updates are on and the id is
   * new; the new record keeps the raw name and a short name that is a
   * prefix of it of at most 20 characters.
   */
  lemma RegisterClubSpec(c: Catalog, flag: bool, id: string, name: string, comp: string, info: map<string, string>)
    requires WellFormed(c)
    ensures var r := RegisterClub(c, flag, id, name, comp, info);
      WellFormed(r.1) && Extends(c, r.1)
      && (r.0 <==> flag && id != "" && id !in c.teams)
      && (!r.0 ==> r.1 == c)
      && (r.0 ==> r.1.ids == c.ids + [id] && r.1.teams[id].name == name && r.1.teams[id].competitionId == comp
                  && |r.1.teams[id].shortName| <= 20 && StartsWith(name, r.1.teams[id].shortName))
  {
    if flag && id != "" && id !in c.teams { PutNew(c, id, ClubRecord(id, name, comp, info)); }
  }

  // ------------------------------------------------------------ club ids

  /** `comp_abbr_map` of `_generate_club_team_id`: every entry maps a competition to itself. */
  const ClubAbbreviations: map<string, string> := map[
    "premier" := "premier", "urc" := "urc", "wr" := "wr", "jrlo-div1" := "jrlo-div1",
    "jrlo-div2" := "jrlo-div2", "jrlo-div3" := "jrlo-div3",
    "epcr-champions" := "epcr-champions", "epcr-challenge" := "epcr-challenge"]

  /** `comp_abbr_map.get(competition_id, competition_id)` */
  function CompAbbr(comp: string): (abbr: string)
    ensures abbr == comp
  {
    if comp in ClubAbbreviations then ClubAbbreviations[comp] else comp
  }

  /** The number of catalog records whose competition is `comp`. */
  function CountComp(ids: seq<string>, teams: map<string, TeamRecord>, comp: string): (n: nat)
    ensures n <= |ids|
  {
    if |ids| == 0 then 0
    else
      var last := ids[|ids| - 1];
      CountComp(ids[..|ids| - 1], teams, comp) + (if last in teams && teams[last].competitionId == comp then 1 else 0)
  }

  /** `_generate_club_team_id`: "{abbr}_{n}" with n one more than the competition's record count. */
  function ClubTeamId(c: Catalog, comp: string): string
  {
    CompAbbr(comp) + "_" + NatToString(CountComp(c.ids, c.teams, comp) + 1)
  }

  lemma {:induction false} CountCompFrame(ids: seq<string>, t1: map<string, TeamRecord>, t2: map<string, TeamRecord>, comp: string)
    requires forall k :: k in ids ==> (k in t1 <==> k in t2) && (k in t1 ==> t1[k] == t2[k])
    ensures CountComp(ids, t1, comp) == CountComp(ids, t2, comp)
  {
    if |ids| > 0 { CountCompFrame(ids[..|ids| - 1], t1, t2, comp); }
  }

  /** Adding one record of a competition raises its count by one, so the next club id differs. */
  lemma CountCompPut(c: Catalog, id: string, rec: TeamRecord)
    requires WellFormed(c) && id !in c.teams
    ensures CountComp(Put(c, id, rec).ids, Put(c, id, rec).teams, rec.competitionId)
         == CountComp(c.ids, c.teams, rec.competitionId) + 1
  {
    var d := Put(c, id, rec);
    assert d.ids[..|d.ids| - 1] == c.ids;
    CountCompFrame(c.ids, c.teams, d.teams, rec.competitionId);
  }

  // ------------------------------------------------------------ resolution

  /** The fields a scan compares: the short name upper-cased, the name lower-cased. */
  predicate NameHit(rec: TeamRecord, base: string)
  {
    Upper(base) == Upper(rec.shortName) || Lower(base) == Lower(rec.name)
  }

  /** A scan restricted to one competition, or over the whole catalog. */
  predicate InScope(rec: TeamRecord, scope: Option<string>)
  {
    scope.None? || rec.competitionId == scope.value
  }

  /** The first record in dict order that is in scope and whose name matches. */
  function FindTeam(ids: seq<string>, teams: map<string, TeamRecord>, scope: Option<string>, base: string): (r: Option<string>)
    ensures r.Some? ==> r.value in ids && r.value in teams && InScope(teams[r.value], scope) && NameHit(teams[r.value], base)
    ensures r.None? ==> forall i :: 0 <= i < |ids| && ids[i] in teams && InScope(teams[ids[i]], scope) ==> !NameHit(teams[ids[i]], base)
  {
    if |ids| == 0 then None
    else if ids[0] in teams && InScope(teams[ids[0]], scope) && NameHit(teams[ids[0]], base) then Some(ids[0])
    else
      var r := FindTeam(ids[1..], teams, scope, base);
      assert forall i :: 0 < i < |ids| ==> ids[i] == ids[1..][i - 1];
      r
  }

  /** The backward-compatible global lookup: the lower-cased name as a key, then a scan of every record. */
  function GlobalSearch(c: Catalog, base: string): string
  {
    var key := Lower(base);
    if key in c.teams then key
    else
      var hit := FindTeam(c.ids, c.teams, None, base);
      if hit.Some? then hit.value else ""
  }

  /** An international competition with a national id: look it up, or register it when updates are on. */
  function ResolveNational(c: Catalog, flag: bool, nid: string, base: string, comp: string): (string, Catalog)
  {
    if nid in c.teams then (nid, c)
    else if flag then (nid, RegisterNational(c, flag, nid, base, comp).1)
    else ("", c)
  }

  /**
   * A named competition: the first matching record of that competition;
   * otherwise a new club for a domestic competition when updates are on
   * (registered under the raw name; the id is returned even when
   * registration refuses it), or the global lookup for an international one.
   */
  function ResolveInCompetition(c: Catalog, flag: bool, name: string, base: string, comp: string): (string, Catalog)
  {
    var hit := FindTeam(c.ids, c.teams, Some(comp), base);
    if hit.Some? then (hit.value, c)
    else if comp in InternationalCompetitions then (GlobalSearch(c, base), c)
    else if flag then
      var id := ClubTeamId(c, comp);
      (id, RegisterClub(c, flag, id, name, comp, map[]).1)
    else ("", c)
  }

  /** The national id `_resolve_team_id` tries: only for an international competition. */
  function NationalIdFor(base: string, comp: string): string
  {
    if comp != "" && comp in InternationalCompetitions then GenerateNationalTeamId(base, comp) else ""
  }

  /**
   * `_resolve_team_id` once the name is normalised to `base` and its
   * national id `nid` is known: the national path, the competition path,
   * or the global lookup ("" stands for no competition).
   */
  function ResolveWith(c: Catalog, flag: bool, name: string, base: string, nid: string, comp: string): (string, Catalog)
  {
    if name == "" then ("", c)
    else if nid != "" then ResolveNational(c, flag, nid, base, comp)
    else if comp != "" then ResolveInCompetition(c, flag, name, base, comp)
    else (GlobalSearch(c, base), c)
  }

  /** `_resolve_team_id(team_name, competition_id)`: the id and the catalog afterwards. */
  function Resolve(c: Catalog, flag: bool, cache: NameCache, aliasKey: string -> string, name: string, comp: string): (string, Catalog)
  {
    var base := NormalizeTeamName(name, comp, cache, aliasKey);
    ResolveWith(c, flag, name, base, NationalIdFor(base, comp), comp)
  }

  /** With updates off, resolution never changes the catalog and only returns ids already in it. */
  lemma ResolveReadOnly(c: Catalog, name: string, base: string, nid: string, comp: string)
    ensures var r := ResolveWith(c, false, name, base, nid, comp);
      r.1 == c && (r.0 == "" || r.0 in c.teams)
  {
  }

  /**
   * What one resolution may do to the catalog: append at most one record,
   * keep every existing record, and return "" or the id of a record.
   */
  predicate Grows(c: Catalog, r: (string, Catalog))
  {
    WellFormed(r.1) && Extends(c, r.1) && |r.1.ids| <= |c.ids| + 1 && (r.0 == "" || r.0 in r.1.teams)
  }

  lemma ResolveNationalGrows(c: Catalog, flag: bool, nid: string, base: string, comp: string)
    requires WellFormed(c) && nid != ""
    ensures Grows(c, ResolveNational(c, flag, nid, base, comp))
  {
    RegisterNationalSpec(c, flag, nid, base, comp);
  }

  lemma ResolveInCompetitionGrows(c: Catalog, flag: bool, name: string, base: string, comp: string)
    requires WellFormed(c)
    ensures Grows(c, ResolveInCompetition(c, flag, name, base, comp))
  {
    if FindTeam(c.ids, c.teams, Some(comp), base).None? && comp !in InternationalCompetitions && flag {
      var id := ClubTeamId(c, comp);
      RegisterClubSpec(c, flag, id, name, comp, map[]);
    }
  }

  /** Resolution only ever appends at most one record and keeps every existing one (`Grows`). */
  lemma ResolveExtends(c: Catalog, flag: bool, name: string, base: string, nid: string, comp: string)
    requires WellFormed(c)
    ensures Grows(c, ResolveWith(c, flag, name, base, nid, comp))
  {
    if name != "" {
      if nid != "" {
        ResolveNationalGrows(c, flag, nid, base, comp);
      } else if comp != "" {
        ResolveInCompetitionGrows(c, flag, name, base, comp);
      }
    }
  }

  /** The two facts above for `_resolve_team_id` itself. */
  lemma ResolveTeam(c: Catalog, flag: bool, cache: NameCache, aliasKey: string -> string, name: string, comp: string)
    requires WellFormed(c)
    ensures var r := Resolve(c, flag, cache, aliasKey, name, comp);
      WellFormed(r.1) && Extends(c, r.1) && |r.1.ids| <= |c.ids| + 1 && (r.0 == "" || r.0 in r.1.teams)
      && (!flag ==> r.1 == c && (r.0 == "" || r.0 in c.teams))
  {
    var base := NormalizeTeamName(name, comp, cache, aliasKey);
    var nid := NationalIdFor(base, comp);
    ResolveExtends(c, flag, name, base, nid, comp);
    ResolveReadOnly(c, name, base, nid, comp);
  }

  /** A national id already in the catalog is returned without change, so resolving twice changes nothing more. */
  lemma ResolveNationalIdempotent(c: Catalog, flag: bool, name: string, base: string, nid: string, comp: string)
    requires nid != ""
    ensures var r := ResolveWith(c, flag, name, base, nid, comp);
      ResolveWith(r.1, flag, name, base, nid, comp) == r
  {
    if name != "" && nid !in c.teams && flag {
      assert RegisterNational(c, flag, nid, base, comp).1.teams == c.teams[nid := NationalRecord(nid, base, comp)];
    }
  }

  lemma {:induction false} FindTeamAppend(ids: seq<string>, teams: map<string, TeamRecord>, scope: Option<string>, base: string, id: string, rec: TeamRecord)
    requires id !in ids && FindTeam(ids, teams, scope, base).None?
    ensures FindTeam(ids + [id], teams[id := rec], scope, base)
         == if InScope(rec, scope) && NameHit(rec, base) then Some(id) else None
  {
    if |ids| == 0 {
      assert ids + [id] == [id];
    } else {
      assert ids[0] != id && ids[1..] + [id] == (ids + [id])[1..];
      FindTeamAppend(ids[1..], teams, scope, base, id, rec);
    }
  }

  /**
   * A domestic club whose name is already in normal form resolves to the
   * same id on a second call, without a second registration.
   */
  lemma ResolveClubIdempotent(c: Catalog, flag: bool, name: string, comp: string)
    requires WellFormed(c)
    requires name != "" && comp != "" && comp !in InternationalCompetitions
    ensures var r := ResolveWith(c, flag, name, name, "", comp);
      ResolveWith(r.1, flag, name, name, "", comp) == r
  {
    var hit := FindTeam(c.ids, c.teams, Some(comp), name);
    var id := ClubTeamId(c, comp);
    if hit.None? && flag && id !in c.teams {
      ClubFoundAfterRegistration(c, id, name, comp);
    }
  }

  /** A club registered under its normal-form name is what the next in-competition scan finds. */
  lemma ClubFoundAfterRegistration(c: Catalog, id: string, name: string, comp: string)
    requires WellFormed(c) && id !in c.teams && FindTeam(c.ids, c.teams, Some(comp), name).None?
    ensures var d := Put(c, id, ClubRecord(id, name, comp, map[]));
      FindTeam(d.ids, d.teams, Some(comp), name) == Some(id)
  {
    var rec := ClubRecord(id, name, comp, map[]);
    assert id !in c.ids;
    FindTeamAppend(c.ids, c.teams, Some(comp), name, id, rec);
    assert NameHit(rec, name);
  }

  /**
   * A domestic name the catalog does not know gets the count-based id; that
   * id is returned even when a record of another team already holds it, in
   * which case the catalog is unchanged. The new record keeps the raw name.
   */
  lemma ResolveNewClub(c: Catalog, name: string, base: string, comp: string)
    requires WellFormed(c)
    requires name != "" && comp != "" && comp !in InternationalCompetitions
    requires FindTeam(c.ids, c.teams, Some(comp), base).None?
    ensures var r := ResolveWith(c, true, name, base, "", comp);
      r.0 == comp + "_" + NatToString(CountComp(c.ids, c.teams, comp) + 1)
      && (r.0 in c.teams ==> r.1 == c)
      && (r.0 !in c.teams ==> r.1.ids == c.ids + [r.0] && r.1.teams[r.0] == ClubRecord(r.0, name, comp, map[]))
  {
    var id := ClubTeamId(c, comp);
    var r := ResolveWith(c, true, name, base, "", comp);
    assert r == ResolveInCompetition(c, true, name, base, comp);
    assert r == (id, RegisterClub(c, true, id, name, comp, map[]).1);
    assert id == comp + "_" + NatToString(CountComp(c.ids, c.teams, comp) + 1);
    if id !in c.teams { RegisterClubSpec(c, true, id, name, comp, map[]); }
  }

  /** A catalog in which Bath already holds premier_2 while premier has one record. */
  function CollisionCatalog(): Catalog
  {
    Catalog(["premier_2"], map["premier_2" := TeamRecord("premier_2", "premier", "Bath", "", "Bath", "", "", "", "")])
  }

  /**
   * With an empty base-name cache, a domestic competition without aliases
   * normalises a name to its trimmed self.
   */
  lemma NormalizeWithoutBases(name: string, comp: string, aliasKey: string -> string)
    requires name != "" && comp != "srp" && comp !in CompetitionTeamAliases && comp !in InternationalCompetitions
    ensures NormalizeTeamName(name, comp, NameCache([], map[]), aliasKey) == Strip(name)
  {
    var cache := NameCache([], map[]);
    var n := Strip(name);
    assert FixedRule(n, comp, aliasKey).None?;
    assert DynamicMatch(n, SearchComps(comp, cache), cache).None? by {
      if comp == "" { assert SearchComps(comp, cache) == []; }
      else { assert SearchComps(comp, cache) == [comp] && BasesOf(cache, comp) == []; }
    }
    assert FallbackBases(comp, cache) == [];
    StaticFallbackNoBases(n, SponsorPatterns);
    StripIdempotent(name);
  }

  lemma CollisionNoHit()
    ensures FindTeam(CollisionCatalog().ids, CollisionCatalog().teams, Some("premier"), "Sale").None?
  {
    var c := CollisionCatalog();
    assert !NameHit(c.teams["premier_2"], "Sale") by {
      assert Upper("Sale")[0] == 'S' && Upper("Bath")[0] == 'B';
      assert Lower("Sale")[0] == 's' && Lower("Bath")[0] == 'b';
    }
  }

  lemma CollisionId()
    ensures ClubTeamId(CollisionCatalog(), "premier") == "premier_2"
  {
    var c := CollisionCatalog();
    assert CountComp(c.ids, c.teams, "premier") == 1;
    assert NatToString(2) == "2";
  }

  /**
   * Resolving a new premier team "Sale" returns Bath's id and registers
   * nothing. With no cached base names, "Sale" normalises to itself
   * (`NormalizeWithoutBases`).
   */
  lemma ResolveClubCollision()
    ensures Strip("Sale") == "Sale"
    ensures ResolveWith(CollisionCatalog(), true, "Sale", "Sale", "", "premier") == ("premier_2", CollisionCatalog())
  {
    StripOfTrimmed("Sale");
    CollisionNoHit();
    CollisionId();
  }

  lemma NormalizeReds(aliasKey: string -> string)
    ensures NormalizeTeamName("REDS", "srp", NameCache([], map[]), aliasKey) == "Queensland Reds"
  {
    StripOfTrimmed("REDS");
    RedsRule("REDS", aliasKey);
    NormalizeFixed("REDS", "srp", NameCache([], map[]), aliasKey, "Queensland Reds");
  }

  /** "REDS" is a Super Rugby spelling, and Super Rugby has no alias table. */
  lemma RedsRule(n: string, aliasKey: string -> string)
    requires n == "REDS"
    ensures FixedRule(n, "srp", aliasKey) == Some("Queensland Reds")
  {
    assert "srp" !in CompetitionTeamAliases;
    assert Upper(n) == "REDS";
  }

  /**
   * Club registration stores the raw name while lookups compare the
   * normalised one: "REDS" in Super Rugby normalises to "Queensland Reds"
   * (`NormalizeReds`), so each resolution on a catalog without that team
   * registers another record.
   */
  lemma ResolveAliasRegistersAgain()
    ensures var base := "Queensland Reds";
      var r1 := ResolveWith(Catalog([], map[]), true, "REDS", base, "", "srp");
      var r2 := ResolveWith(r1.1, true, "REDS", base, "", "srp");
      r1.0 == "srp_1" && r2.0 == "srp_2" && r2.1.ids == ["srp_1", "srp_2"]
      && "srp_1" in r2.1.teams && r2.1.teams["srp_1"].name == "REDS"
      && "srp_2" in r2.1.teams && r2.1.teams["srp_2"].name == "REDS"
  {
    RedsFirst("Queensland Reds");
    RedsSecond("Queensland Reds");
  }

  /** The catalog after the first registration of "REDS". */
  function RedsOnce(): Catalog
  {
    Catalog(["srp_1"], map["srp_1" := ClubRecord("srp_1", "REDS", "srp", map[])])
  }

  lemma RedsFirst(base: string)
    requires base == "Queensland Reds"
    ensures ResolveWith(Catalog([], map[]), true, "REDS", base, "", "srp") == ("srp_1", RedsOnce())
  {
    var c0 := Catalog([], map[]);
    assert NatToString(1) == "1";
    assert ClubTeamId(c0, "srp") == "srp_1";
    assert Put(c0, "srp_1", ClubRecord("srp_1", "REDS", "srp", map[])) == RedsOnce() by {
      assert c0.ids + ["srp_1"] == ["srp_1"];
    }
  }

  lemma RedsSecond(base: string)
    requires base == "Queensland Reds"
    ensures var r := ResolveWith(RedsOnce(), true, "REDS", base, "", "srp");
      r.0 == "srp_2" && r.1.ids == ["srp_1", "srp_2"]
      && "srp_1" in r.1.teams && r.1.teams["srp_1"].name == "REDS"
      && "srp_2" in r.1.teams && r.1.teams["srp_2"].name == "REDS"
  {
    assert NatToString(2) == "2";
    RedsNotFound(base);
    RedsCount();
  }

  lemma RedsNotFound(base: string)
    requires base == "Queensland Reds"
    ensures FindTeam(RedsOnce().ids, RedsOnce().teams, Some("srp"), base).None?
  {
    assert Take("REDS", 20) == "REDS";
    assert |Upper(base)| != |Upper("REDS")| && |Lower(base)| != |Lower("REDS")|;
  }

  lemma RedsCount()
    ensures CountComp(RedsOnce().ids, RedsOnce().teams, "srp") == 1
  {
    assert RedsOnce().ids[..0] == [];
  }

  // ------------------------------------------------------------ official logos

  /** `_should_replace_logo`: nothing yet, or a TheSportsDB link. */
  predicate ShouldReplaceLogo(existing: string)
  {
    existing == "" || Contains(Lower(existing), "thesportsdb.com") || Contains(Lower(existing), "r2.thesportsdb.com")
  }

  /** The `r2.` test adds nothing: every r2 link is a TheSportsDB link. */
  lemma ShouldReplaceLogoSpec(existing: string)
    ensures ShouldReplaceLogo(existing) <==> existing == "" || Contains(Lower(existing), "thesportsdb.com")
  {
    R2Redundant(Lower(existing), "r2.", "thesportsdb.com", "r2.thesportsdb.com");
  }

  lemma R2Redundant(s: string, p: string, q: string, pq: string)
    requires pq == p + q
    ensures Contains(s, pq) ==> Contains(s, q)
  {
    if Contains(s, pq) {
      ContainsSuffix(s, p, q, pq);
    }
  }

  /** The logo and badge an entry offers; the badge falls back to the logo. */
  function OfferedLogos(info: map<string, string>): (r: (string, string))
    ensures r.0 != "" ==> r.1 != ""
  {
    var logo := Get(info, "logo_url");
    var badge := Get(info, "badge_url");
    (logo, if logo != "" && badge == "" then logo else badge)
  }

  /** Each offered URL replaces the record's one only when it is empty or a TheSportsDB link. */
  function WithLogos(rec: TeamRecord, logo: string, badge: string): TeamRecord
  {
    rec.(logoUrl := if logo != "" && ShouldReplaceLogo(rec.logoUrl) then logo else rec.logoUrl,
         badgeUrl := if badge != "" && ShouldReplaceLogo(rec.badgeUrl) then badge else rec.badgeUrl)
  }

  /** `b` is `a` with at most its logo and badge changed, and never an official (non-TheSportsDB) one. */
  predicate LogoUpdate(a: TeamRecord, b: TeamRecord)
  {
    b.(logoUrl := a.logoUrl, badgeUrl := a.badgeUrl) == a
    && (!ShouldReplaceLogo(a.logoUrl) ==> b.logoUrl == a.logoUrl)
    && (!ShouldReplaceLogo(a.badgeUrl) ==> b.badgeUrl == a.badgeUrl)
  }

  lemma LogoUpdateTrans(a: TeamRecord, b: TeamRecord, c: TeamRecord)
    requires LogoUpdate(a, b) && LogoUpdate(b, c)
    ensures LogoUpdate(a, c)
  {
  }

  /** Replacement fills an empty or TheSportsDB URL with the offered one and touches nothing else. */
  lemma WithLogosSpec(rec: TeamRecord, logo: string, badge: string)
    ensures var r := WithLogos(rec, logo, badge);
      LogoUpdate(rec, r)
      && (logo != "" && ShouldReplaceLogo(rec.logoUrl) ==> r.logoUrl == logo)
      && (badge != "" && ShouldReplaceLogo(rec.badgeUrl) ==> r.badgeUrl == badge)
      && (logo == "" ==> r.logoUrl == rec.logoUrl) && (badge == "" ==> r.badgeUrl == rec.badgeUrl)
  {
  }

  /** The other records that share the entry's name: stripped, lower-cased name or short name. */
  predicate SameName(rec: TeamRecord, key: string)
  {
    key == Lower(Strip(rec.name)) || key == Lower(Strip(rec.shortName))
  }

  /** The pass over every other record with the same name, in dict order. */
  function SameNamePass(ids: seq<string>, teams: map<string, TeamRecord>, skip: string, key: string, logo: string, badge: string): map<string, TeamRecord>
  {
    if |ids| == 0 then teams
    else
      SameNameAdd(SameNamePass(ids[..|ids| - 1], teams, skip, key, logo, badge), ids[|ids| - 1], skip, key, logo, badge)
  }

  /** One record of the same-name pass. */
  function SameNameAdd(t: map<string, TeamRecord>, id: string, skip: string, key: string, logo: string, badge: string): map<string, TeamRecord>
  {
    if id != skip && id in t && SameName(t[id], key) then t[id := WithLogos(t[id], logo, badge)] else t
  }

  lemma SameNamePassStep(ids: seq<string>, teams: map<string, TeamRecord>, skip: string, key: string, logo: string, badge: string, i: int)
    requires 0 <= i < |ids|
    ensures SameNamePass(ids[..i + 1], teams, skip, key, logo, badge)
         == SameNameAdd(SameNamePass(ids[..i], teams, skip, key, logo, badge), ids[i], skip, key, logo, badge)
  {
    assert ids[..i + 1][..i] == ids[..i];
  }

  /** The same-name pass updates exactly the other records with that name, each once. */
  lemma {:induction false} SameNamePassSpec(ids: seq<string>, teams: map<string, TeamRecord>, skip: string, key: string, logo: string, badge: string)
    requires Distinct(ids)
    ensures var t := SameNamePass(ids, teams, skip, key, logo, badge);
      t.Keys == teams.Keys
      && forall k :: k in teams ==>
           t[k] == if k in ids && k != skip && SameName(teams[k], key) then WithLogos(teams[k], logo, badge) else teams[k]
  {
    if |ids| > 0 {
      var init := ids[..|ids| - 1];
      SameNamePassSpec(init, teams, skip, key, logo, badge);
      assert ids == init + [ids[|ids| - 1]];
      assert ids[|ids| - 1] !in init;
    }
  }

  /** One entry once its team is resolved to `tid`: that record, then the same-name pass. */
  function LogoStep(c: Catalog, tid: string, name: string, info: map<string, string>): Catalog
  {
    var offered := OfferedLogos(info);
    var teams := PointUpdate(c.teams, tid, offered.0, offered.1);
    Catalog(c.ids, SameNamePass(c.ids, teams, tid, Lower(Strip(name)), offered.0, offered.1))
  }

  /** One `(team_name, logo_info)` entry of `_apply_official_team_logos`. */
  function ApplyLogo(c: Catalog, flag: bool, cache: NameCache, aliasKey: string -> string, comp: string, name: string, info: map<string, string>): Catalog
  {
    if name == "" || |info| == 0 then c
    else
      var r := Resolve(c, flag, cache, aliasKey, name, comp);
      LogoStep(r.1, r.0, name, info)
  }

  /** The entries in order. */
  function ApplyAll(c: Catalog, flag: bool, cache: NameCache, aliasKey: string -> string, comp: string, logos: seq<(string, map<string, string>)>): Catalog
  {
    if |logos| == 0 then c
    else
      var last := logos[|logos| - 1];
      ApplyLogo(ApplyAll(c, flag, cache, aliasKey, comp, logos[..|logos| - 1]), flag, cache, aliasKey, comp, last.0, last.1)
  }

  lemma ApplyAllStep(c: Catalog, flag: bool, cache: NameCache, aliasKey: string -> string, comp: string, logos: seq<(string, map<string, string>)>, k: int)
    requires 0 <= k < |logos|
    ensures ApplyAll(c, flag, cache, aliasKey, comp, logos[..k + 1])
         == ApplyLogo(ApplyAll(c, flag, cache, aliasKey, comp, logos[..k]), flag, cache, aliasKey, comp, logos[k].0, logos[k].1)
  {
    assert logos[..k + 1][..k] == logos[..k];
  }

  /** `_apply_official_team_logos(team_logos, competition_id)` */
  function ApplyLogos(c: Catalog, flag: bool, cache: NameCache, aliasKey: string -> string, comp: string, logos: seq<(string, map<string, string>)>): Catalog
  {
    if !flag || |logos| == 0 then c else ApplyAll(c, flag, cache, aliasKey, comp, logos)
  }

  /** The catalog relation every logo step keeps: keys in order, records changed only in replaceable URLs. */
  predicate LogoExtends(c: Catalog, d: Catalog)
  {
    |c.ids| <= |d.ids| && d.ids[..|c.ids|] == c.ids
    && forall k :: k in c.teams ==> k in d.teams && LogoUpdate(c.teams[k], d.teams[k])
  }

  lemma SameKeysWellFormed(ids: seq<string>, a: map<string, TeamRecord>, b: map<string, TeamRecord>)
    requires WellFormed(Catalog(ids, a)) && a.Keys == b.Keys
    ensures WellFormed(Catalog(ids, b))
  {
  }

  /** The record of the resolved team alone, before the same-name pass. */
  function PointUpdate(teams: map<string, TeamRecord>, tid: string, logo: string, badge: string): map<string, TeamRecord>
  {
    if tid != "" && tid in teams then teams[tid := WithLogos(teams[tid], logo, badge)] else teams
  }

  lemma PointUpdateSpec(teams: map<string, TeamRecord>, tid: string, logo: string, badge: string)
    ensures var t := PointUpdate(teams, tid, logo, badge);
      t.Keys == teams.Keys
      && forall k :: k in teams ==> t[k] == if k == tid && tid != "" then WithLogos(teams[k], logo, badge) else teams[k]
  {
  }

  /**
   * One resolved entry: no keys change, every record changes at most in a
   * replaceable URL, and the resolved team and every other team of the same
   * name receive the offered URLs where theirs are replaceable.
   */
  lemma LogoStepSpec(c: Catalog, tid: string, name: string, info: map<string, string>)
    requires WellFormed(c)
    ensures var d := LogoStep(c, tid, name, info);
      var offered := OfferedLogos(info);
      WellFormed(d) && LogoExtends(c, d) && d.ids == c.ids
      && (forall k :: (k in c.teams && ((k == tid && k != "") || (k != tid && SameName(c.teams[k], Lower(Strip(name)))))
            && offered.0 != "" && ShouldReplaceLogo(c.teams[k].logoUrl)) ==> d.teams[k].logoUrl == offered.0)
      && (forall k :: (k in c.teams && ((k == tid && k != "") || (k != tid && SameName(c.teams[k], Lower(Strip(name)))))
            && offered.1 != "" && ShouldReplaceLogo(c.teams[k].badgeUrl)) ==> d.teams[k].badgeUrl == offered.1)
  {
    var offered := OfferedLogos(info);
    var key := Lower(Strip(name));
    var teams := PointUpdate(c.teams, tid, offered.0, offered.1);
    assert LogoStep(c, tid, name, info) == Catalog(c.ids, SameNamePass(c.ids, teams, tid, key, offered.0, offered.1));
    PointUpdateSpec(c.teams, tid, offered.0, offered.1);
    SameNamePassSpec(c.ids, teams, tid, key, offered.0, offered.1);
    var d := SameNamePass(c.ids, teams, tid, key, offered.0, offered.1);
    forall k | k in c.teams
      ensures k in d && LogoUpdate(c.teams[k], d[k])
      ensures offered.0 != "" && ShouldReplaceLogo(c.teams[k].logoUrl) && ((k == tid && k != "") || (k != tid && SameName(c.teams[k], key)))
              ==> d[k].logoUrl == offered.0
      ensures offered.1 != "" && ShouldReplaceLogo(c.teams[k].badgeUrl) && ((k == tid && k != "") || (k != tid && SameName(c.teams[k], key)))
              ==> d[k].badgeUrl == offered.1
    {
      WithLogosSpec(c.teams[k], offered.0, offered.1);
    }
    assert c.ids[..|c.ids|] == c.ids;
  }

  lemma LogoExtendsTrans(a: Catalog, b: Catalog, c: Catalog)
    requires LogoExtends(a, b) && LogoExtends(b, c)
    ensures LogoExtends(a, c)
  {
    assert c.ids[..|a.ids|] == c.ids[..|b.ids|][..|a.ids|];
    forall k | k in a.teams ensures k in c.teams && LogoUpdate(a.teams[k], c.teams[k]) {
      LogoUpdateTrans(a.teams[k], b.teams[k], c.teams[k]);
    }
  }

  /**
   * The logo pass keeps every team and its order, changes existing records
   * only in empty or TheSportsDB URLs, and does nothing with updates off.
   */
  lemma {:induction false} ApplyAllSpec(c: Catalog, flag: bool, cache: NameCache, aliasKey: string -> string, comp: string, logos: seq<(string, map<string, string>)>)
    requires WellFormed(c)
    ensures var d := ApplyAll(c, flag, cache, aliasKey, comp, logos);
      WellFormed(d) && LogoExtends(c, d)
  {
    if |logos| > 0 {
      var prev := ApplyAll(c, flag, cache, aliasKey, comp, logos[..|logos| - 1]);
      ApplyAllSpec(c, flag, cache, aliasKey, comp, logos[..|logos| - 1]);
      var last := logos[|logos| - 1];
      if last.0 != "" && |last.1| > 0 {
        var r := Resolve(prev, flag, cache, aliasKey, last.0, comp);
        ResolveTeam(prev, flag, cache, aliasKey, last.0, comp);
        LogoStepSpec(r.1, r.0, last.0, last.1);
        assert LogoExtends(prev, r.1) by {
          assert r.1.ids[..|prev.ids|] == prev.ids;
        }
        LogoExtendsTrans(prev, r.1, LogoStep(r.1, r.0, last.0, last.1));
        LogoExtendsTrans(c, prev, LogoStep(r.1, r.0, last.0, last.1));
      }
    }
  }

  /**
   * One entry with a name and logo data: the team it resolves to gets the
   * offered `logo_url` where its own is empty or a TheSportsDB link, and the
   * offered `badge_url` (the logo when no badge is given) likewise.
   */
  lemma ApplyLogoResolved(c: Catalog, flag: bool, cache: NameCache, aliasKey: string -> string, comp: string, name: string, info: map<string, string>)
    requires WellFormed(c) && name != "" && |info| > 0
    ensures var r := Resolve(c, flag, cache, aliasKey, name, comp);
      r.0 != "" ==> r.0 in r.1.teams && r.0 in ApplyLogo(c, flag, cache, aliasKey, comp, name, info).teams
    ensures var r := Resolve(c, flag, cache, aliasKey, name, comp);
      var d := ApplyLogo(c, flag, cache, aliasKey, comp, name, info);
      var offered := OfferedLogos(info);
      r.0 != "" ==>
        (offered.0 != "" && ShouldReplaceLogo(r.1.teams[r.0].logoUrl) ==> d.teams[r.0].logoUrl == offered.0)
        && (offered.1 != "" && ShouldReplaceLogo(r.1.teams[r.0].badgeUrl) ==> d.teams[r.0].badgeUrl == offered.1)
  {
    var r := Resolve(c, flag, cache, aliasKey, name, comp);
    ResolveTeam(c, flag, cache, aliasKey, name, comp);
    LogoStepSpec(r.1, r.0, name, info);
  }

  /** In the whole pass, with updates on, each entry's resolved team gets the offered URLs in the same way. */
  lemma ApplyLogosResolved(c: Catalog, cache: NameCache, aliasKey: string -> string, comp: string, logos: seq<(string, map<string, string>)>, k: int)
    requires WellFormed(c) && 0 <= k < |logos| && logos[k].0 != "" && |logos[k].1| > 0
    ensures var r := Resolve(ApplyAll(c, true, cache, aliasKey, comp, logos[..k]), true, cache, aliasKey, logos[k].0, comp);
      r.0 != "" ==> r.0 in r.1.teams && r.0 in ApplyLogos(c, true, cache, aliasKey, comp, logos[..k + 1]).teams
    ensures var before := ApplyAll(c, true, cache, aliasKey, comp, logos[..k]);
      var r := Resolve(before, true, cache, aliasKey, logos[k].0, comp);
      var after := ApplyLogos(c, true, cache, aliasKey, comp, logos[..k + 1]);
      var offered := OfferedLogos(logos[k].1);
      r.0 != "" ==>
        (offered.0 != "" && ShouldReplaceLogo(r.1.teams[r.0].logoUrl) ==> after.teams[r.0].logoUrl == offered.0)
        && (offered.1 != "" && ShouldReplaceLogo(r.1.teams[r.0].badgeUrl) ==> after.teams[r.0].badgeUrl == offered.1)
  {
    var before := ApplyAll(c, true, cache, aliasKey, comp, logos[..k]);
    ApplyAllSpec(c, true, cache, aliasKey, comp, logos[..k]);
    ApplyAllStep(c, true, cache, aliasKey, comp, logos, k);
    ApplyLogoResolved(before, true, cache, aliasKey, comp, logos[k].0, logos[k].1);
  }

  lemma ApplyLogosSpec(c: Catalog, flag: bool, cache: NameCache, aliasKey: string -> string, comp: string, logos: seq<(string, map<string, string>)>)
    requires WellFormed(c)
    ensures var d := ApplyLogos(c, flag, cache, aliasKey, comp, logos);
      WellFormed(d) && LogoExtends(c, d) && (!flag ==> d == c)
  {
    if flag && |logos| > 0 { ApplyAllSpec(c, flag, cache, aliasKey, comp, logos); }
    else { assert c.ids[..|c.ids|] == c.ids; }
  }

  // ------------------------------------------------------------ base-name cache

  /** `set.add` on a set listed in insertion order. */
  function AddName(s: seq<string>, x: string): seq<string>
  {
    if x in s then s else s + [x]
  }

  /** One record of `_build_base_team_names_cache`, given its stripped name and short name. */
  function CacheAddNames(cache: NameCache, comp: string, n: string, sn: string): NameCache
  {
    if comp == "" then cache
    else
      var known := comp in cache.names;
      var names := if known then cache.names[comp] else [];
      var comps := if known then cache.comps else cache.comps + [comp];
      var withName := if n != "" then AddName(names, n) else names;
      var withShort := if sn != "" && sn != n then AddName(withName, sn) else withName;
      NameCache(comps, cache.names[comp := withShort])
  }

  /** One record of `_build_base_team_names_cache`. */
  function CacheAdd(cache: NameCache, rec: TeamRecord): NameCache
  {
    CacheAddNames(cache, rec.competitionId, Strip(rec.name), Strip(rec.shortName))
  }

  /** `_build_base_team_names_cache` over the records in dict order. */
  function BuildCache(ids: seq<string>, teams: map<string, TeamRecord>): NameCache
  {
    if |ids| == 0 then NameCache([], map[])
    else
      var prev := BuildCache(ids[..|ids| - 1], teams);
      var last := ids[|ids| - 1];
      if last in teams then CacheAdd(prev, teams[last]) else prev
  }

  /** A record lists `b` under `comp`: its stripped name or short name, when both are non-empty. */
  predicate Contributes(rec: TeamRecord, comp: string, b: string)
  {
    comp != "" && rec.competitionId == comp && b != "" && (b == Strip(rec.name) || b == Strip(rec.shortName))
  }

  lemma AddNameMembership(s: seq<string>, x: string, b: string)
    ensures b in AddName(s, x) <==> b in s || b == x
  {
  }

  lemma CacheAddNamesMembership(cache: NameCache, comp: string, n: string, sn: string, key: string, b: string)
    ensures b in BasesOf(CacheAddNames(cache, comp, n, sn), key)
        <==> b in BasesOf(cache, key) || (key != "" && comp == key && b != "" && (b == n || b == sn))
  {
    if comp != "" {
      var names := if comp in cache.names then cache.names[comp] else [];
      var withName := if n != "" then AddName(names, n) else names;
      AddNameMembership(names, n, b);
      AddNameMembership(withName, sn, b);
      if comp != key {
        assert BasesOf(CacheAddNames(cache, comp, n, sn), key) == BasesOf(cache, key);
      }
    }
  }

  lemma CacheAddMembership(cache: NameCache, rec: TeamRecord, comp: string, b: string)
    ensures b in BasesOf(CacheAdd(cache, rec), comp) <==> b in BasesOf(cache, comp) || Contributes(rec, comp, b)
  {
    CacheAddNamesMembership(cache, rec.competitionId, Strip(rec.name), Strip(rec.shortName), comp, b);
  }

  /** The cache lists under a competition exactly the stripped names and short names of its records. */
  /** Some record among `ids` satisfies `p`. */
  ghost predicate AnyRecord(ids: seq<string>, teams: map<string, TeamRecord>, p: TeamRecord -> bool)
  {
    exists i :: 0 <= i < |ids| && ids[i] in teams && p(teams[ids[i]])
  }

  lemma AnyRecordSnoc(ids: seq<string>, teams: map<string, TeamRecord>, p: TeamRecord -> bool)
    requires |ids| > 0
    ensures var last := ids[|ids| - 1];
      AnyRecord(ids, teams, p) <==> AnyRecord(ids[..|ids| - 1], teams, p) || (last in teams && p(teams[last]))
  {
    var init := ids[..|ids| - 1];
    assert forall i :: 0 <= i < |init| ==> ids[i] == init[i];
    if AnyRecord(ids, teams, p) {
      var i :| 0 <= i < |ids| && ids[i] in teams && p(teams[ids[i]]);
      if i < |init| { assert init[i] == ids[i]; }
    }
  }

  /** Some record among `ids` lists `b` under `comp`. */
  ghost predicate Listed(ids: seq<string>, teams: map<string, TeamRecord>, comp: string, b: string)
  {
    AnyRecord(ids, teams, rec => Contributes(rec, comp, b))
  }

  /** The last record's contribution to the cache. */
  lemma BuildCacheSnoc(ids: seq<string>, teams: map<string, TeamRecord>)
    requires |ids| > 0
    ensures var prev := BuildCache(ids[..|ids| - 1], teams);
      BuildCache(ids, teams) == if ids[|ids| - 1] in teams then CacheAdd(prev, teams[ids[|ids| - 1]]) else prev
  {
  }

  /** The cache lists under a competition exactly the stripped names and short names of its records. */
  lemma {:induction false} CacheMembership(ids: seq<string>, teams: map<string, TeamRecord>, comp: string, b: string)
    ensures b in BasesOf(BuildCache(ids, teams), comp) <==> Listed(ids, teams, comp, b)
  {
    if |ids| > 0 {
      var init := ids[..|ids| - 1];
      CacheMembership(init, teams, comp, b);
      AnyRecordSnoc(ids, teams, rec => Contributes(rec, comp, b));
      BuildCacheSnoc(ids, teams);
      var last := ids[|ids| - 1];
      if last in teams { CacheAddMembership(BuildCache(init, teams), teams[last], comp, b); }
    }
  }

  /** A cache whose competitions are its keys, each listed once. */
  ghost predicate CacheShape(cache: NameCache)
  {
    Distinct(cache.comps) && forall x :: x in cache.names <==> x in cache.comps
  }

  lemma CacheAddShape(cache: NameCache, comp: string, n: string, sn: string)
    requires CacheShape(cache)
    ensures var d := CacheAddNames(cache, comp, n, sn);
      CacheShape(d) && forall x :: x in d.comps <==> x in cache.comps || (x != "" && x == comp)
  {
    var d := CacheAddNames(cache, comp, n, sn);
    if comp != "" && comp !in cache.names {
      assert d.comps == cache.comps + [comp];
      forall i, j | 0 <= i < j < |d.comps| ensures d.comps[i] != d.comps[j] {
        if j == |cache.comps| { assert d.comps[i] == cache.comps[i]; }
      }
    }
  }

  /** Some record among `ids` belongs to `comp`. */
  ghost predicate HasCompetition(ids: seq<string>, teams: map<string, TeamRecord>, comp: string)
  {
    AnyRecord(ids, teams, (rec: TeamRecord) => rec.competitionId == comp)
  }

  /** The cache's competitions: each non-empty competition of a record, once. */
  lemma {:induction false} CacheCompetitions(ids: seq<string>, teams: map<string, TeamRecord>)
    ensures var cache := BuildCache(ids, teams);
      CacheShape(cache) && forall x :: x in cache.comps <==> x != "" && HasCompetition(ids, teams, x)
  {
    if |ids| > 0 {
      var init := ids[..|ids| - 1];
      CacheCompetitions(init, teams);
      BuildCacheSnoc(ids, teams);
      var last := ids[|ids| - 1];
      var prev := BuildCache(init, teams);
      if last in teams {
        var rec := teams[last];
        CacheAddShape(prev, rec.competitionId, Strip(rec.name), Strip(rec.shortName));
      }
      forall x ensures x in BuildCache(ids, teams).comps <==> x != "" && HasCompetition(ids, teams, x) {
        AnyRecordSnoc(ids, teams, (rec: TeamRecord) => rec.competitionId == x);
      }
    }
  }

  /** The cache after position `i` is the cache before it plus that record's names. */
  lemma BuildCacheStep(ids: seq<string>, teams: map<string, TeamRecord>, i: int)
    requires 0 <= i < |ids| && ids[i] in teams
    ensures BuildCache(ids[..i + 1], teams) == CacheAdd(BuildCache(ids[..i], teams), teams[ids[i]])
  {
    assert ids[..i + 1][..i] == ids[..i];
    BuildCacheSnoc(ids[..i + 1], teams);
  }

  /** One record of `_build_base_team_names_cache`: its stripped name and short name under its competition. */
  method AddRecordNames(cache: NameCache, rec: TeamRecord) returns (d: NameCache)
    ensures d == CacheAdd(cache, rec)
  {
    d := cache;
    var comp := rec.competitionId;
    var name := Strip(rec.name);
    var shortName := Strip(rec.shortName);
    if comp != "" {
      var comps := cache.comps;
      var names := [];
      if comp in cache.names {
        names := cache.names[comp];
      } else {
        comps := comps + [comp];
      }
      if name != "" {
        names := AddName(names, name);
      }
      if shortName != "" && shortName != name {
        names := AddName(names, shortName);
      }
      d := NameCache(comps, cache.names[comp := names]);
    }
  }

  /** `_build_base_team_names_cache` */
  method BuildBaseTeamNamesCache(c: Catalog) returns (cache: NameCache)
    requires WellFormed(c)
    ensures cache == BuildCache(c.ids, c.teams)
  {
    cache := NameCache([], map[]);
    var i := 0;
    while i < |c.ids|
      invariant 0 <= i <= |c.ids|
      invariant cache == BuildCache(c.ids[..i], c.teams)
    {
      cache := AddRecordNames(cache, c.teams[c.ids[i]]);
      BuildCacheStep(c.ids, c.teams, i);
      i := i + 1;
    }
    TakeAll(c.ids);
  }

  // ------------------------------------------------------------ build_match

  /** The keyword arguments of `build_match`; a `None` team id is `None`, any other missing value "". */
  datatype MatchInput = MatchInput(
    competitionId: string, season: string,
    kickoff: string, parsed: Parsed, rendered: (string, string), timezoneHint: string,
    venue: string, homeTeam: string, awayTeam: string, matchUrl: string, broadcasters: seq<string>,
    roundName: string, status: string, matchId: string,
    homeTeamId: Option<string>, awayTeamId: Option<string>)

  /**
   * The local and UTC ISO renderings of the kickoff: `rendered` stands for
   * what the datetime parser and time-zone conversion produce; both are ""
   * when there is no kickoff text or it does not parse.
   */
  function KickoffTimes(a: MatchInput): (string, string)
  {
    if a.kickoff == "" || a.parsed.Unparsed? then ("", "") else a.rendered
  }

  /** The fifteen-field record once both team ids are known. */
  function MatchOf(a: MatchInput, isZone: string -> bool, homeId: string, awayId: string): Match
  {
    var times := KickoffTimes(a);
    Match(a.matchId, a.competitionId, a.season, ExtractRoundNumber(a.roundName), a.status,
      times.0, times.1, TimezoneLabel(a.kickoff, a.parsed, a.timezoneHint, isZone), a.venue,
      a.homeTeam, a.awayTeam, homeId, awayId, a.matchUrl, a.broadcasters)
  }

  /** A given id is kept; a missing one is resolved from the team name. */
  function IdOrResolve(c: Catalog, flag: bool, cache: NameCache, aliasKey: string -> string, given: Option<string>, name: string, comp: string): (string, Catalog)
  {
    if given.Some? then (given.value, c) else Resolve(c, flag, cache, aliasKey, name, comp)
  }

  /** `build_match(...)`: the record and the catalog afterwards (home resolved before away). */
  function BuildMatchSpec(c: Catalog, flag: bool, cache: NameCache, aliasKey: string -> string, isZone: string -> bool, a: MatchInput): (Match, Catalog)
  {
    var home := IdOrResolve(c, flag, cache, aliasKey, a.homeTeamId, a.homeTeam, a.competitionId);
    var away := IdOrResolve(home.1, flag, cache, aliasKey, a.awayTeamId, a.awayTeam, a.competitionId);
    (MatchOf(a, isZone, home.0, away.0), away.1)
  }

  lemma ExtendsTrans(a: Catalog, b: Catalog, c: Catalog)
    requires Extends(a, b) && Extends(b, c)
    ensures Extends(a, c)
  {
    assert c.ids[..|a.ids|] == c.ids[..|b.ids|][..|a.ids|];
  }

  /**
   * `build_match` adds at most the two teams it resolves; with updates off
   * it changes nothing and every id it resolves is a catalog key. The round
   * is the digit run of the round name, and the match id stays as given.
   */
  lemma BuildMatchSpecProps(c: Catalog, flag: bool, cache: NameCache, aliasKey: string -> string, isZone: string -> bool, a: MatchInput)
    requires WellFormed(c)
    ensures var r := BuildMatchSpec(c, flag, cache, aliasKey, isZone, a);
      WellFormed(r.1) && Extends(c, r.1) && |r.1.ids| <= |c.ids| + 2
      && r.0.matchId == a.matchId && r.0.round == ExtractRoundNumber(a.roundName)
      && (a.homeTeamId.Some? ==> r.0.homeTeamId == a.homeTeamId.value)
      && (a.awayTeamId.Some? ==> r.0.awayTeamId == a.awayTeamId.value)
      && (!flag ==>
            r.1 == c
            && (a.homeTeamId.None? && r.0.homeTeamId != "" ==> r.0.homeTeamId in c.teams)
            && (a.awayTeamId.None? && r.0.awayTeamId != "" ==> r.0.awayTeamId in c.teams))
  {
    var home := IdOrResolve(c, flag, cache, aliasKey, a.homeTeamId, a.homeTeam, a.competitionId);
    IdOrResolveProps(c, flag, cache, aliasKey, a.homeTeamId, a.homeTeam, a.competitionId);
    var away := IdOrResolve(home.1, flag, cache, aliasKey, a.awayTeamId, a.awayTeam, a.competitionId);
    IdOrResolveProps(home.1, flag, cache, aliasKey, a.awayTeamId, a.awayTeam, a.competitionId);
    ExtendsTrans(c, home.1, away.1);
    assert BuildMatchSpec(c, flag, cache, aliasKey, isZone, a) == (MatchOf(a, isZone, home.0, away.0), away.1);
  }

  /** A given id is kept and the catalog untouched; otherwise the name is resolved. */
  lemma IdOrResolveProps(c: Catalog, flag: bool, cache: NameCache, aliasKey: string -> string, given: Option<string>, name: string, comp: string)
    requires WellFormed(c)
    ensures var r := IdOrResolve(c, flag, cache, aliasKey, given, name, comp);
      WellFormed(r.1) && Extends(c, r.1) && |r.1.ids| <= |c.ids| + 1
      && (given.Some? ==> r.0 == given.value)
      && (!flag ==> r.1 == c && (given.None? && r.0 != "" ==> r.0 in c.teams))
  {
    if given.None? { ResolveTeam(c, flag, cache, aliasKey, name, comp); }
    else { assert c.ids[..|c.ids|] == c.ids; }
  }

  // ------------------------------------------------------------ the collector

  /** One record as `save_to_json` writes it: both names normalised for `comp`. */
  function SavedName(comp: string, cache: NameCache, aliasKey: string -> string, m: Match): (r: Match)
    ensures r.homeTeam == NormalizeTeamName(m.homeTeam, comp, cache, aliasKey)
    ensures r.awayTeam == NormalizeTeamName(m.awayTeam, comp, cache, aliasKey)
    ensures r.(homeTeam := m.homeTeam, awayTeam := m.awayTeam) == m
  {
    m.(homeTeam := NormalizeTeamName(m.homeTeam, comp, cache, aliasKey),
       awayTeam := NormalizeTeamName(m.awayTeam, comp, cache, aliasKey))
  }

  /** The records `save_to_json` writes, in order, one per input record. */
  function SavedNames(comp: string, cache: NameCache, aliasKey: string -> string, ms: seq<Match>): (r: seq<Match>)
    ensures |r| == |ms|
    ensures forall i :: 0 <= i < |ms| ==> r[i] == SavedName(comp, cache, aliasKey, ms[i])
  {
    seq(|ms|, i requires 0 <= i < |ms| => SavedName(comp, cache, aliasKey, ms[i]))
  }

  /**
   * A collector: the catalog it loaded, whether it may update the catalog,
   * its competition (`_competition_id`, "" for None), the base-name cache
   * built once at construction, and the alias-key normalisation
   * (NFKC, case folding, punctuation removal) as a parameter.
   */
  class Collector {
    var ids: seq<string>
    var teams: map<string, TeamRecord>
    const updateTeamMaster: bool
    const competitionId: string
    const cache: NameCache
    const aliasKey: string -> string

    function Snapshot(): Catalog
      reads this
    {
      Catalog(ids, teams)
    }

    predicate Valid()
      reads this
    {
      WellFormed(Catalog(ids, teams))
    }

    constructor (catalog: Catalog, update: bool, competition: string, key: string -> string)
      requires WellFormed(catalog)
      ensures Valid() && Snapshot() == catalog
      ensures updateTeamMaster == update && competitionId == competition && aliasKey == key
      ensures cache == BuildCache(catalog.ids, catalog.teams)
    {
      var built := BuildBaseTeamNamesCache(catalog);
      ids := catalog.ids;
      teams := catalog.teams;
      updateTeamMaster := update;
      competitionId := competition;
      cache := built;
      aliasKey := key;
    }

    /** `_register_national_team` */
    method RegisterNationalTeam(teamId: string, teamName: string, comp: string) returns (registered: bool)
      requires Valid()
      modifies this
      ensures Valid()
      ensures (registered, Snapshot()) == RegisterNational(old(Snapshot()), updateTeamMaster, teamId, teamName, comp)
    {
      if !updateTeamMaster || teamId == "" || teamId in teams {
        return false;
      }
      var rec := NationalRecord(teamId, teamName, comp);
      PutNew(Snapshot(), teamId, rec);
      ids := ids + [teamId];
      teams := teams[teamId := rec];
      return true;
    }

    /** `_register_club_team` */
    method RegisterClubTeam(teamId: string, teamName: string, comp: string, info: map<string, string>) returns (registered: bool)
      requires Valid()
      modifies this
      ensures Valid()
      ensures (registered, Snapshot()) == RegisterClub(old(Snapshot()), updateTeamMaster, teamId, teamName, comp, info)
    {
      if !updateTeamMaster || teamId == "" || teamId in teams {
        return false;
      }
      var rec := ClubRecord(teamId, teamName, comp, info);
      PutNew(Snapshot(), teamId, rec);
      ids := ids + [teamId];
      teams := teams[teamId := rec];
      return true;
    }

    /** The record scans of `_resolve_team_id`, in dict order. */
    method FindInScope(scope: Option<string>, base: string) returns (r: Option<string>)
      requires Valid()
      ensures r == FindTeam(ids, teams, scope, base)
    {
      var i := 0;
      while i < |ids|
        invariant 0 <= i <= |ids|
        invariant FindTeam(ids, teams, scope, base) == FindTeam(ids[i..], teams, scope, base)
      {
        var rec := teams[ids[i]];
        assert ids[i..][1..] == ids[i + 1..];
        if scope.None? || rec.competitionId == scope.value {
          if Upper(base) == Upper(rec.shortName) {
            return Some(ids[i]);
          }
          if Lower(base) == Lower(rec.name) {
            return Some(ids[i]);
          }
        }
        i := i + 1;
      }
      return None;
    }

    /** `_resolve_team_id(team_name, competition_id)` */
    method ResolveTeamId(teamName: string, comp: string) returns (id: string)
      requires Valid()
      modifies this
      ensures Valid()
      ensures (id, Snapshot()) == Resolve(old(Snapshot()), updateTeamMaster, cache, aliasKey, teamName, comp)
    {
      var base := NormalizeTeamName(teamName, comp, cache, aliasKey);
      ghost var nid := NationalIdFor(base, comp);
      ghost var c0 := Snapshot();
      assert Resolve(c0, updateTeamMaster, cache, aliasKey, teamName, comp)
          == ResolveWith(c0, updateTeamMaster, teamName, base, nid, comp);
      if teamName == "" {
        return "";
      }
      if comp != "" && comp in InternationalCompetitions {
        var nationalId := GenerateNationalTeamId(base, comp);
        if nationalId != "" {
          if nationalId in teams {
            return nationalId;
          }
          if updateTeamMaster {
            var registered := RegisterNationalTeam(nationalId, base, comp);
            return nationalId;
          }
          return "";
        }
      }
      if comp != "" {
        var hit := FindInScope(Some(comp), base);
        if hit.Some? {
          return hit.value;
        }
        if comp !in InternationalCompetitions {
          if updateTeamMaster {
            var clubId := ClubTeamId(Snapshot(), comp);
            var registered := RegisterClubTeam(clubId, teamName, comp, map[]);
            return clubId;
          }
          return "";
        }
      }
      var key := Lower(base);
      if key in teams {
        return key;
      }
      var hit := FindInScope(None, base);
      if hit.Some? {
        return hit.value;
      }
      return "";
    }

    /** `_apply_official_team_logos(team_logos, competition_id)` */
    method ApplyOfficialTeamLogos(teamLogos: seq<(string, map<string, string>)>, comp: string)
      requires Valid()
      modifies this
      ensures Valid()
      ensures Snapshot() == ApplyLogos(old(Snapshot()), updateTeamMaster, cache, aliasKey, comp, teamLogos)
    {
      if !updateTeamMaster || |teamLogos| == 0 {
        return;
      }
      ghost var c0 := Snapshot();
      var k := 0;
      while k < |teamLogos|
        invariant 0 <= k <= |teamLogos| && Valid()
        invariant Snapshot() == ApplyAll(c0, updateTeamMaster, cache, aliasKey, comp, teamLogos[..k])
      {
        ApplyOfficialTeamLogo(teamLogos[k].0, teamLogos[k].1, comp);
        ApplyAllStep(c0, updateTeamMaster, cache, aliasKey, comp, teamLogos, k);
        k := k + 1;
      }
      TakeAll(teamLogos);
    }

    /** One `(team_name, logo_info)` entry of `_apply_official_team_logos`. */
    method ApplyOfficialTeamLogo(name: string, info: map<string, string>, comp: string)
      requires Valid()
      modifies this
      ensures Valid()
      ensures Snapshot() == ApplyLogo(old(Snapshot()), updateTeamMaster, cache, aliasKey, comp, name, info)
    {
      if name != "" && |info| > 0 {
        var logo := Get(info, "logo_url");
        var badge := Get(info, "badge_url");
        if logo != "" && badge == "" {
          badge := logo;
        }
        var teamId := ResolveTeamId(name, comp);
        ghost var resolved := Snapshot();
        if teamId != "" && teamId in teams {
          teams := teams[teamId := WithLogos(teams[teamId], logo, badge)];
        }
        SameNameLogos(teamId, Lower(Strip(name)), logo, badge);
        assert Snapshot() == LogoStep(resolved, teamId, name, info);
      }
    }

    /** The pass over the other records of the same name in `_apply_official_team_logos`. */
    method SameNameLogos(skip: string, key: string, logo: string, badge: string)
      requires Valid()
      modifies this
      ensures Valid() && ids == old(ids)
      ensures teams == SameNamePass(ids, old(teams), skip, key, logo, badge)
    {
      ghost var start := teams;
      var i := 0;
      while i < |ids|
        invariant 0 <= i <= |ids| && ids == old(ids)
        invariant forall k :: k in ids ==> k in teams
        invariant teams == SameNamePass(ids[..i], start, skip, key, logo, badge)
      {
        var other := ids[i];
        ghost var prev := teams;
        if other != skip {
          var rec := teams[other];
          if SameName(rec, key) {
            teams := teams[other := WithLogos(rec, logo, badge)];
          }
        }
        assert teams == SameNameAdd(prev, other, skip, key, logo, badge);
        SameNamePassStep(ids, start, skip, key, logo, badge, i);
        i := i + 1;
      }
      TakeAll(ids);
      SameNamePassSpec(ids, start, skip, key, logo, badge);
      SameKeysWellFormed(ids, start, teams);
    }

    /** `build_match(...)` */
    method BuildMatch(a: MatchInput, isZone: string -> bool) returns (m: Match)
      requires Valid()
      modifies this
      ensures Valid()
      ensures (m, Snapshot()) == BuildMatchSpec(old(Snapshot()), updateTeamMaster, cache, aliasKey, isZone, a)
    {
      var homeId := if a.homeTeamId.Some? then a.homeTeamId.value else "";
      if a.homeTeamId.None? {
        homeId := ResolveTeamId(a.homeTeam, a.competitionId);
      }
      var awayId := if a.awayTeamId.Some? then a.awayTeamId.value else "";
      if a.awayTeamId.None? {
        awayId := ResolveTeamId(a.awayTeam, a.competitionId);
      }
      m := MatchOf(a, isZone, homeId, awayId);
    }

    /** The in-place rewrite of home and away names in `save_to_json`. */
    method NormalizeForSave(data: seq<Match>) returns (r: seq<Match>)
      ensures r == SavedNames(competitionId, cache, aliasKey, data)
    {
      r := data;
      var i := 0;
      while i < |r|
        invariant 0 <= i <= |r| && |r| == |data|
        invariant forall j :: 0 <= j < i ==> r[j] == SavedName(competitionId, cache, aliasKey, data[j])
        invariant forall j :: i <= j < |r| ==> r[j] == data[j]
      {
        var m := r[i];
        m := m.(homeTeam := NormalizeTeamName(m.homeTeam, competitionId, cache, aliasKey));
        m := m.(awayTeam := NormalizeTeamName(m.awayTeam, competitionId, cache, aliasKey));
        r := r[i := m];
        i := i + 1;
      }
    }
  }
}
