/**
 * The merge rules of `update_team_master` in
 * `src/services/team_master_service.py`: the official team lists of each
 * competition (the scraping itself is an input here) are turned into a new
 * catalog by `generate_team_master`; before that, Super Rugby Pacific names
 * are mapped to their canonical spelling and an empty or failed scrape falls
 * back to the names already in the catalog; afterwards the result is merged
 * with the untouched competitions, JRLO official short names are applied and
 * the short names of the previous catalog are restored.
 *
 * NFKC normalisation is the parameter `nfkc`; fetching the JRLO short-name
 * page is the parameter `fetchShort` (`None` when the fetch raises).
 */
module TeamMasterService {
  import opened Text
  import opened Sorting
  import BC = BaseCatalog
  import TSM = TeamServiceMaster

  // ------------------------------------------------------------ short names

  /** `_normalize_short_name_width`: NFKC of a non-empty value. */
  function Width(nfkc: string -> string, v: string): string
  {
    if v == "" then v else nfkc(v)
  }

  /** The words the JRLO page shows where a short name is missing. */
  const PlaceholderWords: set<string> := {"略称", "公式チーム名称", "呼称", "エンブレム"}

  /** `_is_short_name_placeholder` */
  predicate IsShortNamePlaceholder(nfkc: string -> string, v: string)
  {
    var n := Width(nfkc, Strip(v));
    n == "" || n in PlaceholderWords
  }

  // ------------------------------------------------------------ per-record passes

  /** Applies `f` to every record, in place: the keys and their order do not change. */
  function MapRecords(c: BC.Catalog, f: (string, BC.TeamRecord) -> BC.TeamRecord): (d: BC.Catalog)
    ensures d.ids == c.ids && d.teams.Keys == c.teams.Keys
    ensures forall k :: k in c.teams ==> d.teams[k] == f(k, c.teams[k])
  {
    BC.Catalog(c.ids, map k | k in c.teams :: f(k, c.teams[k]))
  }

  /** A loop `for team_id, team_data in teams.items(): <update team_data>`. */
  method UpdateEach(c: BC.Catalog, f: (string, BC.TeamRecord) -> BC.TeamRecord) returns (d: BC.Catalog)
    requires BC.WellFormed(c)
    ensures d == MapRecords(c, f)
  {
    d := c;
    var i := 0;
    while i < |c.ids|
      invariant 0 <= i <= |c.ids|
      invariant d.ids == c.ids && d.teams.Keys == c.teams.Keys
      invariant forall k :: k in c.teams ==> d.teams[k] == if k in c.ids[..i] then f(k, c.teams[k]) else c.teams[k]
    {
      var id := c.ids[i];
      assert forall j :: 0 <= j < i ==> c.ids[j] != id;
      assert id !in c.ids[..i];
      assert c.ids[..i + 1] == c.ids[..i] + [id];
      d := BC.Catalog(d.ids, d.teams[id := f(id, d.teams[id])]);
      i := i + 1;
    }
    assert c.ids[..i] == c.ids;
    assert d.teams == MapRecords(c, f).teams;
  }

  const SrpAliases: map<string, string> := map[
    "BLUES" := "Blues", "BRUMBIES" := "Brumbies", "CHIEFS" := "Chiefs", "CRUSADERS" := "Crusaders",
    "FIJIAN DRUA" := "Fijian Drua", "FORCE" := "Western Force", "HIGHLANDERS" := "Highlanders",
    "HURRICANES" := "Hurricanes", "MOANA PASIFIKA" := "Moana Pasifika", "REDS" := "Queensland Reds",
    "WARATAHS" := "NSW Waratahs"]

  /** The canonical SRP spelling of a stripped name, or "" when it has none. */
  function SrpAlias(name: string): string
  {
    var key := Upper(Strip(name));
    if key in SrpAliases then SrpAliases[key] else ""
  }

  /** The SRP alias pass on one existing record. */
  function SrpAliased(id: string, rec: BC.TeamRecord): (r: BC.TeamRecord)
    ensures r.(name := rec.name, shortName := rec.shortName) == rec
    ensures rec.competitionId != "srp" || SrpAlias(rec.name) == "" ==> r == rec
    ensures rec.competitionId == "srp" && SrpAlias(rec.name) != "" ==>
      r.name == SrpAlias(rec.name) && r.shortName == (if Strip(rec.shortName) == "" then r.name else rec.shortName)
  {
    if rec.competitionId != "srp" then rec
    else
      var mapped := SrpAlias(rec.name);
      if mapped == "" then rec
      else rec.(name := mapped, shortName := if Strip(rec.shortName) == "" then mapped else rec.shortName)
  }

  /** The JRLO pass on one record of the merged catalog. */
  function JrloShortened(jrlo: map<string, string>, nfkc: string -> string, rec: BC.TeamRecord): (r: BC.TeamRecord)
    ensures r.(shortName := rec.shortName) == rec
    ensures var short := BC.Get(jrlo, Strip(rec.name)); var current := Strip(rec.shortName);
      r.shortName == if StartsWith(rec.competitionId, "jrlo") && short != ""
                        && (current == "" || IsShortNamePlaceholder(nfkc, current) || current == Strip(rec.name))
                     then Width(nfkc, short) else rec.shortName
  {
    if !StartsWith(rec.competitionId, "jrlo") then rec
    else
      var official := Strip(rec.name);
      var short := BC.Get(jrlo, official);
      var current := Strip(rec.shortName);
      if short == "" then rec
      else if current == "" || IsShortNamePlaceholder(nfkc, current) || current == official then
        rec.(shortName := Width(nfkc, short))
      else rec
  }

  function JrloFn(jrlo: map<string, string>, nfkc: string -> string): (string, BC.TeamRecord) -> BC.TeamRecord
  {
    (id: string, rec: BC.TeamRecord) => JrloShortened(jrlo, nfkc, rec)
  }

  /** `canonical_short_names`: the stripped non-blank short names of the catalog before the update. */
  function CanonicalShortNames(c: BC.Catalog): (m: map<string, string>)
    ensures forall id :: id in m <==> id in c.teams && Strip(c.teams[id].shortName) != ""
    ensures forall id :: id in m ==> m[id] == Strip(c.teams[id].shortName)
  {
    map id | id in c.teams && Strip(c.teams[id].shortName) != "" :: Strip(c.teams[id].shortName)
  }

  /** Whether the JRLO page names a short name for the team that differs, after NFKC, from `canonical`. */
  predicate JrloOverrides(jrlo: map<string, string>, nfkc: string -> string, rec: BC.TeamRecord, canonical: string)
  {
    var target := BC.Get(jrlo, Strip(rec.name));
    StartsWith(rec.competitionId, "jrlo") && |jrlo| > 0 && target != "" && Width(nfkc, target) != Width(nfkc, canonical)
  }

  /** The restoring pass on one record. */
  function Restored(canon: map<string, string>, jrlo: map<string, string>, nfkc: string -> string,
                    id: string, rec: BC.TeamRecord): (r: BC.TeamRecord)
    ensures r.(shortName := rec.shortName) == rec
    ensures var canonical := BC.Get(canon, id);
      r.shortName == if canonical == "" || IsShortNamePlaceholder(nfkc, canonical) || JrloOverrides(jrlo, nfkc, rec, canonical)
                     then rec.shortName else canonical
  {
    var canonical := BC.Get(canon, id);
    if canonical == "" || IsShortNamePlaceholder(nfkc, canonical) then rec
    else if JrloOverrides(jrlo, nfkc, rec, canonical) then rec
    else rec.(shortName := canonical)
  }

  function RestoreFn(canon: map<string, string>, jrlo: map<string, string>, nfkc: string -> string)
    : (string, BC.TeamRecord) -> BC.TeamRecord
  {
    (id: string, rec: BC.TeamRecord) => Restored(canon, jrlo, nfkc, id, rec)
  }

  // ------------------------------------------------------------ the team lists

  /** What `_collect_teams_for_comp` produced: team names and official logos, or an exception. */
  datatype Scrape = Scraped(teams: seq<string>, logos: map<string, map<string, string>>) | Failed

  /** One entry of teams_sources.json with its scraping result. */
  datatype Source = Source(comp: string, shortNamesUrl: string, result: Scrape)

  /** The names of the existing teams of `comp`, in dict order, blank ones skipped. */
  function FallbackNames(c: BC.Catalog, comp: string): (r: seq<string>)
    ensures forall n :: n in r <==> exists k :: k in c.ids && k in c.teams && c.teams[k].competitionId == comp && c.teams[k].name == n && n != ""
    decreases |c.ids|
  {
    if |c.ids| == 0 then []
    else
      var init := BC.Catalog(c.ids[..|c.ids| - 1], c.teams);
      assert forall k :: k in c.ids <==> k in init.ids || k == c.ids[|c.ids| - 1];
      var k := c.ids[|c.ids| - 1];
      var prev := FallbackNames(init, comp);
      if k in c.teams && c.teams[k].competitionId == comp && c.teams[k].name != "" then prev + [c.teams[k].name] else prev
  }

  /** The team list and logos of one competition, with the fallback to existing names. */
  function Collected(c: BC.Catalog, s: Source): (seq<string>, map<string, map<string, string>>)
  {
    var fb := FallbackNames(c, s.comp);
    match s.result
    case Scraped(ts, lg) => (if ts == [] && fb != [] then SortedDistinct(fb) else ts, lg)
    case Failed => (if fb != [] then SortedDistinct(fb) else [], map[])
  }

  /**
   * A non-empty scrape is kept as it is; an empty or failed one becomes the
   * sorted distinct names of the existing teams of that competition.
   */
  lemma CollectedSpec(c: BC.Catalog, s: Source)
    ensures var (ts, lg) := Collected(c, s);
      (s.result.Scraped? && s.result.teams != [] ==> ts == s.result.teams && lg == s.result.logos)
      && (s.result.Failed? ==> lg == map[])
      && (s.result.Failed? || s.result.teams == [] ==>
            StrictlyIncreasing(ts)
            && forall n :: n in ts <==> exists k :: k in c.ids && k in c.teams && c.teams[k].competitionId == s.comp && c.teams[k].name == n && n != "")
  {
    SortedDistinctSpec(FallbackNames(c, s.comp));
  }

  /** `teams_by_comp` and `logos_by_comp` over the sources, in order. */
  function CollectAll(c: BC.Catalog, srcs: seq<Source>): (r: (seq<(string, seq<string>)>, map<string, map<string, map<string, string>>>))
    ensures |r.0| == |srcs|
  {
    if |srcs| == 0 then ([], map[])
    else
      var (items, logos) := CollectAll(c, srcs[..|srcs| - 1]);
      var s := srcs[|srcs| - 1];
      var (ts, lg) := Collected(c, s);
      (items + [(s.comp, ts)], logos[s.comp := lg])
  }

  /** The competition loop that fills `teams_by_comp` and `logos_by_comp`. */
  method CollectLoop(c: BC.Catalog, srcs: seq<Source>)
    returns (items: seq<(string, seq<string>)>, logos: map<string, map<string, map<string, string>>>)
    ensures (items, logos) == CollectAll(c, srcs)
  {
    items, logos := [], map[];
    var i := 0;
    while i < |srcs|
      invariant 0 <= i <= |srcs|
      invariant (items, logos) == CollectAll(c, srcs[..i])
    {
      assert srcs[..i + 1][..i] == srcs[..i];
      var s := srcs[i];
      var fb := FallbackNames(c, s.comp);
      match s.result {
        case Scraped(ts, lg) =>
          var teams := ts;
          if teams == [] && fb != [] {
            teams := SortedDistinct(fb);
          }
          items := items + [(s.comp, teams)];
          logos := logos[s.comp := lg];
        case Failed =>
          if fb != [] {
            items := items + [(s.comp, SortedDistinct(fb))];
          } else {
            items := items + [(s.comp, [])];
          }
          logos := logos[s.comp := map[]];
      }
      i := i + 1;
    }
    assert srcs[..i] == srcs;
  }

  /** `jrlo_short_names`: fetched from the first JRLO source that has a short-names page. */
  function JrloShortNames(srcs: seq<Source>, fetchShort: string -> Option<map<string, string>>): (m: map<string, string>)
    ensures |m| > 0 ==>
      exists i :: (0 <= i < |srcs| && StartsWith(srcs[i].comp, "jrlo") && srcs[i].shortNamesUrl != ""
                   && fetchShort(srcs[i].shortNamesUrl) == Some(m)
                   && forall j :: 0 <= j < i ==> !(StartsWith(srcs[j].comp, "jrlo") && srcs[j].shortNamesUrl != ""))
  {
    if |srcs| == 0 then map[]
    else if StartsWith(srcs[0].comp, "jrlo") && srcs[0].shortNamesUrl != "" then
      (var got := fetchShort(srcs[0].shortNamesUrl); if got.Some? then got.value else map[])
    else JrloShortNames(srcs[1..], fetchShort)
  }

  /** The loop with `break` at the first JRLO source with a short-names page. */
  method FindJrloShortNames(srcs: seq<Source>, fetchShort: string -> Option<map<string, string>>) returns (m: map<string, string>)
    ensures m == JrloShortNames(srcs, fetchShort)
  {
    m := map[];
    var i := 0;
    while i < |srcs|
      invariant 0 <= i <= |srcs|
      invariant JrloShortNames(srcs, fetchShort) == JrloShortNames(srcs[i..], fetchShort)
      invariant m == map[]
    {
      if StartsWith(srcs[i].comp, "jrlo") && srcs[i].shortNamesUrl != "" {
        var got := fetchShort(srcs[i].shortNamesUrl);
        if got.Some? {
          m := got.value;
        }
        break;
      }
      assert srcs[i..][1..] == srcs[i + 1..];
      i := i + 1;
    }
  }

  // ------------------------------------------------------------ the merge

  /**
   * `{**a, **b}` with `b` given by its keys and records: the keys of both
   * sides, the records of `b` where it has the key and those of `a` elsewhere.
   */
  function Overlay(a: BC.Catalog, ids: seq<string>, teams: map<string, BC.TeamRecord>): (d: BC.Catalog)
    requires forall k :: k in ids ==> k in teams
    ensures forall k :: k in d.teams <==> k in a.teams || k in ids
    ensures forall k :: k in ids ==> d.teams[k] == teams[k]
    ensures forall k :: k in a.teams && k !in ids ==> d.teams[k] == a.teams[k]
  {
    if |ids| == 0 then a
    else
      var init := ids[..|ids| - 1];
      assert forall k :: k in ids <==> k in init || k == ids[|ids| - 1];
      var k := ids[|ids| - 1];
      BC.Put(Overlay(a, init, teams), k, teams[k])
  }

  /** The overlay is a well-formed catalog in which the keys of `a` keep their places at the front. */
  lemma {:induction false} OverlayWellFormed(a: BC.Catalog, ids: seq<string>, teams: map<string, BC.TeamRecord>)
    requires BC.WellFormed(a) && forall k :: k in ids ==> k in teams
    ensures var d := Overlay(a, ids, teams);
      BC.WellFormed(d) && |a.ids| <= |d.ids| && d.ids[..|a.ids|] == a.ids
  {
    if |ids| > 0 {
      var init := ids[..|ids| - 1];
      assert forall k :: k in init ==> k in ids;
      var k := ids[|ids| - 1];
      OverlayWellFormed(a, init, teams);
      var prev := Overlay(a, init, teams);
      assert Overlay(a, ids, teams) == BC.Put(prev, k, teams[k]);
      PutKeepsFront(a.ids, prev, k, teams[k]);
    }
  }

  lemma PutKeepsFront(front: seq<string>, prev: BC.Catalog, k: string, rec: BC.TeamRecord)
    requires BC.WellFormed(prev) && |front| <= |prev.ids| && prev.ids[..|front|] == front
    ensures var d := BC.Put(prev, k, rec);
      BC.WellFormed(d) && |front| <= |d.ids| && d.ids[..|front|] == front
  {
    if k !in prev.teams {
      BC.PutNew(prev, k, rec);
      assert (prev.ids + [k])[..|front|] == prev.ids[..|front|];
    }
  }

  /** The teams of competitions that are not regenerated: `competition_id not in only`. */
  function Untouched(c: BC.Catalog, only: seq<string>): (d: BC.Catalog)
    ensures forall k :: k in d.teams <==> k in c.teams && c.teams[k].competitionId !in only
    ensures forall k :: k in d.teams ==> d.teams[k] == c.teams[k]
  {
    BC.Catalog(Keep(c.ids, c.teams, only), map k | k in c.teams && c.teams[k].competitionId !in only :: c.teams[k])
  }

  function Keep(ids: seq<string>, teams: map<string, BC.TeamRecord>, only: seq<string>): (r: seq<string>)
    ensures forall k :: k in r <==> k in ids && k in teams && teams[k].competitionId !in only
    ensures Distinct(ids) ==> Distinct(r)
  {
    if |ids| == 0 then []
    else
      var init := ids[..|ids| - 1];
      assert forall k :: k in ids <==> k in init || k == ids[|ids| - 1];
      var k := ids[|ids| - 1];
      var prev := Keep(init, teams, only);
      if k in teams && teams[k].competitionId !in only then prev + [k] else prev
  }

  /** `merged_teams`: with `only`, the untouched teams overlaid by the regenerated ones; otherwise the regenerated ones. */
  function Merged(existing: BC.Catalog, only: seq<string>, regen: BC.Catalog): BC.Catalog
    requires forall k :: k in regen.ids ==> k in regen.teams
  {
    if |only| > 0 then Overlay(Untouched(existing, only), regen.ids, regen.teams) else regen
  }

  /** What the merge keeps: every regenerated team, and with `only` every team of another competition. */
  lemma MergedSpec(existing: BC.Catalog, only: seq<string>, regen: BC.Catalog)
    requires BC.WellFormed(existing) && BC.WellFormed(regen)
    ensures var d := Merged(existing, only, regen);
      BC.WellFormed(d)
      && (|only| == 0 ==> d == regen)
      && (|only| > 0 ==>
            (forall k :: k in d.teams <==> k in regen.teams || (k in existing.teams && existing.teams[k].competitionId !in only))
            && (forall k :: k in regen.teams ==> d.teams[k] == regen.teams[k])
            && (forall k :: k in existing.teams && existing.teams[k].competitionId !in only && k !in regen.teams ==>
                  d.teams[k] == existing.teams[k]))
  {
    if |only| > 0 {
      OverlayWellFormed(Untouched(existing, only), regen.ids, regen.teams);
    }
  }

  // ------------------------------------------------------------ update_team_master

  /** The sources `update_team_master(only)` processes, in order. */
  function Selected(srcs: seq<Source>, only: seq<string>): (r: seq<Source>)
    ensures forall s :: s in r <==> s in srcs && (|only| > 0 ==> s.comp in only)
  {
    if |only| == 0 then srcs else FilterIn(srcs, only)
  }

  function FilterIn(srcs: seq<Source>, only: seq<string>): (r: seq<Source>)
    ensures forall s :: s in r <==> s in srcs && s.comp in only
  {
    if |srcs| == 0 then []
    else
      var init := srcs[..|srcs| - 1];
      assert forall s :: s in srcs <==> s in init || s == srcs[|srcs| - 1];
      var s := srcs[|srcs| - 1];
      FilterIn(init, only) + (if s.comp in only then [s] else [])
  }

  /** The catalog `update_team_master` writes to teams.json. */
  function UpdateTeamMaster(srcs: seq<Source>, only: seq<string>, fetchLogos: bool, existing: BC.Catalog,
                            nfkc: string -> string, fetchShort: string -> Option<map<string, string>>): BC.Catalog
    requires BC.WellFormed(existing)
  {
    var sel := Selected(srcs, only);
    var canon := CanonicalShortNames(existing);
    var aliased := MapRecords(existing, SrpAliased);
    var jrlo := JrloShortNames(sel, fetchShort);
    var (items, logos) := CollectAll(aliased, sel);
    var regen := TSM.GenerateTeamMaster(items, aliased, if fetchLogos then logos else map[]).teams;
    TSM.GenerateKeepsOrMints(items, aliased, if fetchLogos then logos else map[]);
    ShortNamePasses(Merged(aliased, only, regen), canon, jrlo, nfkc)
  }

  /** The J-League-One short names, then the restored canonical short names. */
  function ShortNamePasses(merged: BC.Catalog, canon: map<string, string>, jrlo: map<string, string>, nfkc: string -> string): BC.Catalog
  {
    var shortened := if |jrlo| > 0 then MapRecords(merged, JrloFn(jrlo, nfkc)) else merged;
    if |canon| > 0 then MapRecords(shortened, RestoreFn(canon, jrlo, nfkc)) else shortened
  }

  /** The two short-name passes of `update_team_master`, each a loop over the records. */
  method ShortNamePassesLoop(merged: BC.Catalog, canon: map<string, string>, jrlo: map<string, string>, nfkc: string -> string)
    returns (r: BC.Catalog)
    requires BC.WellFormed(merged)
    ensures r == ShortNamePasses(merged, canon, jrlo, nfkc)
  {
    r := merged;
    if |jrlo| > 0 {
      r := UpdateEach(r, JrloFn(jrlo, nfkc));
    }
    if |canon| > 0 {
      r := UpdateEach(r, RestoreFn(canon, jrlo, nfkc));
    }
  }

  /** The passes after the merge touch only short names; keys and their order stay those of the merge. */
  lemma {:induction false} ShortNamePassesOnly(merged: BC.Catalog, canon: map<string, string>, jrlo: map<string, string>, nfkc: string -> string)
    ensures var shortened := if |jrlo| > 0 then MapRecords(merged, JrloFn(jrlo, nfkc)) else merged;
      var r := if |canon| > 0 then MapRecords(shortened, RestoreFn(canon, jrlo, nfkc)) else shortened;
      r.ids == merged.ids && r.teams.Keys == merged.teams.Keys
      && (forall k :: k in r.teams ==> r.teams[k].(shortName := merged.teams[k].shortName) == merged.teams[k])
      && (forall k :: (k in r.teams && BC.Get(canon, k) != "" && !IsShortNamePlaceholder(nfkc, BC.Get(canon, k))
                       && !JrloOverrides(jrlo, nfkc, shortened.teams[k], BC.Get(canon, k))) ==> r.teams[k].shortName == BC.Get(canon, k))
      && (forall k :: k in r.teams && (BC.Get(canon, k) == "" || IsShortNamePlaceholder(nfkc, BC.Get(canon, k))) ==>
            r.teams[k] == shortened.teams[k])
      && (forall k :: k in shortened.teams && shortened.teams[k] != merged.teams[k] ==>
            StartsWith(merged.teams[k].competitionId, "jrlo") && BC.Get(jrlo, Strip(merged.teams[k].name)) != "")
  {
    var shortened := if |jrlo| > 0 then MapRecords(merged, JrloFn(jrlo, nfkc)) else merged;
    var r := if |canon| > 0 then MapRecords(shortened, RestoreFn(canon, jrlo, nfkc)) else shortened;
    forall k | k in shortened.teams
      ensures shortened.teams[k].(shortName := merged.teams[k].shortName) == merged.teams[k]
      ensures shortened.teams[k] != merged.teams[k] ==>
        StartsWith(merged.teams[k].competitionId, "jrlo") && BC.Get(jrlo, Strip(merged.teams[k].name)) != ""
    {
      if |jrlo| > 0 {
        assert shortened.teams[k] == JrloShortened(jrlo, nfkc, merged.teams[k]);
      }
    }
    forall k | k in r.teams
      ensures r.teams[k].(shortName := shortened.teams[k].shortName) == shortened.teams[k]
      ensures BC.Get(canon, k) == "" || IsShortNamePlaceholder(nfkc, BC.Get(canon, k)) ==> r.teams[k] == shortened.teams[k]
      ensures (BC.Get(canon, k) != "" && !IsShortNamePlaceholder(nfkc, BC.Get(canon, k))
               && !JrloOverrides(jrlo, nfkc, shortened.teams[k], BC.Get(canon, k))) ==> r.teams[k].shortName == BC.Get(canon, k)
    {
      if |canon| > 0 {
        assert r.teams[k] == Restored(canon, jrlo, nfkc, k, shortened.teams[k]);
      }
    }
  }

  /** The restored short name is the stripped short name the team had before the update. */
  lemma RestoreUsesPrevious(existing: BC.Catalog, k: string)
    requires k in existing.teams && Strip(existing.teams[k].shortName) != ""
    ensures BC.Get(CanonicalShortNames(existing), k) == Strip(existing.teams[k].shortName)
  {
  }

  /** The full update, imperatively: each pass is a loop over the records. */
  method UpdateTeamMasterLoop(srcs: seq<Source>, only: seq<string>, fetchLogos: bool, existing: BC.Catalog,
                              nfkc: string -> string, fetchShort: string -> Option<map<string, string>>)
    returns (r: BC.Catalog)
    requires BC.WellFormed(existing)
    ensures r == UpdateTeamMaster(srcs, only, fetchLogos, existing, nfkc, fetchShort)
  {
    var sel := Selected(srcs, only);
    var canon := CanonicalShortNames(existing);
    var aliased := UpdateEach(existing, SrpAliased);
    var jrlo := FindJrloShortNames(sel, fetchShort);
    var items, logos := CollectLoop(aliased, sel);
    var official := if fetchLogos then logos else map[];
    TSM.GenerateKeepsOrMints(items, aliased, official);
    var regen, added, preserved := TSM.GenerateTeamMasterLoop(items, aliased, official);
    MergedSpec(aliased, only, regen);
    var merged := if |only| > 0 then Overlay(Untouched(aliased, only), regen.ids, regen.teams) else regen;
    r := ShortNamePassesLoop(merged, canon, jrlo, nfkc);
  }

  // ------------------------------------------------------------ _extract_urc_clubs

  /** Logo file stems of urc.com and the team each one shows. */
  const UrcNameMap: map<string, string> := map[
    "Benetton-Rugby" := "Benetton Rugby", "Cardiff-Rugby" := "Cardiff Rugby", "Connacht" := "Connacht Rugby",
    "Dragons" := "Dragons RFC", "Edinburgh" := "Edinburgh Rugby", "Glasgow-Warriors" := "Glasgow Warriors",
    "Hollywoodbets-Sharks" := "Hollywoodbets Sharks", "Leinster" := "Leinster Rugby", "Munster-Rugby" := "Munster Rugby",
    "Ospreys" := "Ospreys", "Scarlets" := "Scarlets", "Ulster" := "Ulster Rugby", "Zebre-Parma" := "Zebre Parma",
    "Vodacom" := "Vodacom Bulls", "Stormers" := "DHL Stormers", "Stormers-Light" := "DHL Stormers",
    "Lions-logo-dark-ver" := "Lions", "Lions-White-Logo" := "Lions"]

  /** `s.split(pat)[0]`: the text before the first occurrence of `pat`. */
  function Before(s: string, pat: string): (r: string)
    requires |pat| > 0
    ensures |r| <= |s| && r == s[..|r|]
    decreases |s|
  {
    if |s| < |pat| then s
    else if s[..|pat|] == pat then ""
    else [s[0]] + Before(s[1..], pat)
  }

  predicate IsImageUrl(u: string)
  {
    EndsWith(u, ".svg") || EndsWith(u, ".png") || EndsWith(u, ".jpg") || EndsWith(u, ".jpeg")
  }

  /** `url.split("/")[-1]` */
  function FileName(u: string): string
  {
    var parts := SplitOn(u, '/');
    parts[|parts| - 1]
  }

  /** The extensions and every "-1" removed from a file name. */
  function Stem(filename: string): string
  {
    RemoveAll(RemoveAll(RemoveAll(RemoveAll(RemoveAll(filename, ".svg"), ".png"), ".jpg"), ".jpeg"), "-1")
  }

  /** The URL once a trailing `&quot;)` or `&quot;);` from inline CSS is cut off. */
  function Unquoted(url: string): string
  {
    if EndsWith(url, "&quot;);") || EndsWith(url, "&quot;)") then Before(url, "&quot;") else url
  }

  /** The team and logo URL one page URL yields, if any. */
  function UrcLogo(url: string): Option<(string, string)>
  {
    if !Contains(url, "wp-content/uploads") then None
    else
      var u := Unquoted(url);
      if !IsImageUrl(u) then None
      else
        var filename := FileName(u);
        if filename == "" then None
        else
          var base := Stem(filename);
          if base !in UrcNameMap || UrcNameMap[base] == "" then None
          else Some((UrcNameMap[base], u))
  }

  /** `{"logo_url": url, "badge_url": url}` */
  function LogoEntry(u: string): map<string, string>
  {
    map["logo_url" := u, "badge_url" := u]
  }

  /** The logos after scanning `urls` in order with `hitOf`: a later URL of the same team wins. */
  function LogosOf(urls: seq<string>, hitOf: string -> Option<(string, string)>): map<string, map<string, string>>
  {
    if |urls| == 0 then map[]
    else
      var prev := LogosOf(urls[..|urls| - 1], hitOf);
      var hit := hitOf(urls[|urls| - 1]);
      if hit.Some? then prev[hit.value.0 := LogoEntry(hit.value.1)] else prev
  }

  /** The teams in the order their first logo was found. */
  function TeamsOf(urls: seq<string>, hitOf: string -> Option<(string, string)>): seq<string>
  {
    if |urls| == 0 then []
    else
      var prev := TeamsOf(urls[..|urls| - 1], hitOf);
      var hit := hitOf(urls[|urls| - 1]);
      if hit.Some? then AddName(prev, hit.value.0) else prev
  }

  function AddName(ks: seq<string>, k: string): seq<string>
  {
    if k in ks then ks else ks + [k]
  }

  /** `logos` after the URL loop of `_extract_urc_clubs`. */
  function UrcLogos(urls: seq<string>): map<string, map<string, string>>
  {
    LogosOf(urls, UrcLogo)
  }

  /**
   * Every recorded team comes from some URL of the scan, stored as both logo
   * and badge; the teams found are exactly the keys of the logos.
   */
  lemma {:induction false} LogosOfSound(urls: seq<string>, hitOf: string -> Option<(string, string)>)
    ensures forall t :: t in LogosOf(urls, hitOf) ==>
      exists i, u :: 0 <= i < |urls| && hitOf(urls[i]) == Some((t, u)) && LogosOf(urls, hitOf)[t] == LogoEntry(u)
    ensures forall t :: t in LogosOf(urls, hitOf) <==> t in TeamsOf(urls, hitOf)
  {
    if |urls| > 0 {
      var init := urls[..|urls| - 1];
      LogosOfSound(init, hitOf);
      forall t | t in LogosOf(urls, hitOf)
        ensures exists i, u :: 0 <= i < |urls| && hitOf(urls[i]) == Some((t, u)) && LogosOf(urls, hitOf)[t] == LogoEntry(u)
      {
        var hit := hitOf(urls[|urls| - 1]);
        if hit.Some? && hit.value.0 == t {
          assert hitOf(urls[|urls| - 1]) == Some((t, hit.value.1));
        } else {
          var i, u :| 0 <= i < |init| && hitOf(init[i]) == Some((t, u)) && LogosOf(init, hitOf)[t] == LogoEntry(u);
          assert urls[i] == init[i];
        }
      }
    }
  }

  /** What a recorded URL satisfies: the conditions of src/services/team_master_service.py:262-276. */
  lemma UrcLogoSpec(url: string)
    requires UrcLogo(url).Some?
    ensures var (t, u) := UrcLogo(url).value;
      Contains(url, "wp-content/uploads") && IsImageUrl(u) && |u| <= |url| && u == url[..|u|]
      && FileName(u) != "" && Stem(FileName(u)) in UrcNameMap && UrcNameMap[Stem(FileName(u))] == t
  {
  }

  /** The URL loop over any URL classifier. */
  method ScanLogos(urls: seq<string>, hitOf: string -> Option<(string, string)>)
    returns (seen: seq<string>, logos: map<string, map<string, string>>)
    ensures logos == LogosOf(urls, hitOf) && seen == TeamsOf(urls, hitOf)
  {
    logos := map[];
    seen := [];
    var i := 0;
    while i < |urls|
      invariant 0 <= i <= |urls|
      invariant logos == LogosOf(urls[..i], hitOf) && seen == TeamsOf(urls[..i], hitOf)
    {
      assert urls[..i + 1][..i] == urls[..i];
      var hit := hitOf(urls[i]);
      if hit.Some? {
        logos := logos[hit.value.0 := LogoEntry(hit.value.1)];
        seen := AddName(seen, hit.value.0);
      }
      i := i + 1;
    }
    assert urls[..i] == urls;
  }

  /** `_extract_urc_clubs` after the page is fetched: the URL loop, then `sorted(logos.keys())`. */
  method ExtractUrcClubs(urls: seq<string>) returns (names: seq<string>, logos: map<string, map<string, string>>)
    ensures logos == UrcLogos(urls)
    ensures StrictlyIncreasing(names) && forall n :: n in names <==> n in logos
  {
    var seen;
    seen, logos := ScanLogos(urls, UrcLogo);
    LogosOfSound(urls, UrcLogo);
    names := SortedDistinct(seen);
    SortedDistinctSpec(seen);
  }
}
