/**
 * `scripts/enrich_team_ids.py`: fills the empty home/away team ids of the
 * matches of a file by a first-match search of teams.json, restricted to the
 * match's own competition, on the short name (upper-cased) or the name
 * (lower-cased). Existing ids are never overwritten.
 */
module EnrichTeamIds {
  import opened Text
  import opened BaseMatches
  import opened Sorting
  import BC = BaseCatalog

  // ------------------------------------------------------------ resolve_team_id

  /** The test inside the loop of `resolve_team_id` for one record. */
  predicate Hit(rec: BC.TeamRecord, name: string, comp: string)
  {
    rec.competitionId == comp && (Upper(name) == Upper(rec.shortName) || Lower(name) == Lower(rec.name))
  }

  /** The record named by `ids[i]` exists and passes the test. */
  predicate HitAt(ids: seq<string>, teams: map<string, BC.TeamRecord>, name: string, comp: string, i: int)
    requires 0 <= i < |ids|
  {
    ids[i] in teams && Hit(teams[ids[i]], name, comp)
  }

  /** The first key, in dict order, whose record passes the test. */
  function FindFirst(ids: seq<string>, teams: map<string, BC.TeamRecord>, name: string, comp: string): (r: Option<string>)
    ensures r.Some? ==> exists i :: 0 <= i < |ids| && ids[i] == r.value && HitAt(ids, teams, name, comp, i)
                                  && forall j :: 0 <= j < i ==> !HitAt(ids, teams, name, comp, j)
    ensures r.None? ==> forall i :: 0 <= i < |ids| ==> !HitAt(ids, teams, name, comp, i)
  {
    if |ids| == 0 then None
    else if HitAt(ids, teams, name, comp, 0) then Some(ids[0])
    else
      var r := FindFirst(ids[1..], teams, name, comp);
      assert forall i :: 0 < i < |ids| ==> (HitAt(ids, teams, name, comp, i) <==> HitAt(ids[1..], teams, name, comp, i - 1));
      r
  }

  /** `resolve_team_id(team_name, competition_id, team_master)` */
  function ResolveTeamId(name: string, comp: string, master: BC.Catalog): string
  {
    if name == "" then ""
    else
      match FindFirst(master.ids, master.teams, name, comp)
      case Some(id) => id
      case None => ""
  }

  /**
   * The id is "" for an empty name and when no record of the competition
   * matches; otherwise it is the first matching key in dict order.
   */
  lemma ResolveTeamIdSpec(name: string, comp: string, master: BC.Catalog)
    ensures var id := ResolveTeamId(name, comp, master);
      (name == "" ==> id == "")
      && (name != "" && (forall i :: 0 <= i < |master.ids| ==> !HitAt(master.ids, master.teams, name, comp, i)) ==> id == "")
      && (name != "" && (exists i :: 0 <= i < |master.ids| && HitAt(master.ids, master.teams, name, comp, i)) ==>
            exists i :: 0 <= i < |master.ids| && master.ids[i] == id && HitAt(master.ids, master.teams, name, comp, i)
                     && forall j :: 0 <= j < i ==> !HitAt(master.ids, master.teams, name, comp, j))
  {
  }

  /** A non-empty result is a key of teams.json whose record belongs to the competition. */
  lemma ResolveTeamIdSound(name: string, comp: string, master: BC.Catalog)
    ensures var id := ResolveTeamId(name, comp, master);
      id != "" ==> id in master.teams && master.teams[id].competitionId == comp
  {
    ResolveTeamIdSpec(name, comp, master);
  }

  /** The loop of `resolve_team_id`, returning at the first hit. */
  method ResolveTeamIdLoop(name: string, comp: string, master: BC.Catalog) returns (id: string)
    ensures id == ResolveTeamId(name, comp, master)
  {
    if name == "" {
      return "";
    }
    var i := 0;
    while i < |master.ids|
      invariant 0 <= i <= |master.ids|
      invariant forall j :: 0 <= j < i ==> !HitAt(master.ids, master.teams, name, comp, j)
    {
      var key := master.ids[i];
      if key in master.teams {
        var rec := master.teams[key];
        if rec.competitionId == comp {
          if Upper(name) == Upper(rec.shortName) {
            FindFirstAt(master.ids, master.teams, name, comp, i);
            return key;
          }
          if Lower(name) == Lower(rec.name) {
            FindFirstAt(master.ids, master.teams, name, comp, i);
            return key;
          }
        }
      }
      i := i + 1;
    }
    FindFirstNone(master.ids, master.teams, name, comp);
    return "";
  }

  /** The first hit is what the scan returns. */
  lemma FindFirstAt(ids: seq<string>, teams: map<string, BC.TeamRecord>, name: string, comp: string, i: int)
    requires 0 <= i < |ids| && HitAt(ids, teams, name, comp, i)
    requires forall j :: 0 <= j < i ==> !HitAt(ids, teams, name, comp, j)
    ensures FindFirst(ids, teams, name, comp) == Some(ids[i])
  {
    var r := FindFirst(ids, teams, name, comp);
    var k :| 0 <= k < |ids| && ids[k] == r.value && HitAt(ids, teams, name, comp, k)
             && forall j :: 0 <= j < k ==> !HitAt(ids, teams, name, comp, j);
    assert k == i;
  }

  /** With no hit the scan returns None. */
  lemma FindFirstNone(ids: seq<string>, teams: map<string, BC.TeamRecord>, name: string, comp: string)
    requires forall j :: 0 <= j < |ids| ==> !HitAt(ids, teams, name, comp, j)
    ensures FindFirst(ids, teams, name, comp).None?
  {
  }

  // ---------------------------------------------------- enrich_matches_in_file

  /** One match of the loop of `enrich_matches_in_file` and the number of ids it filled. */
  function FillMatch(m: Match, master: BC.Catalog): (Match, nat)
  {
    var home := if m.homeTeamId == "" && m.homeTeam != "" then ResolveTeamId(m.homeTeam, m.competitionId, master) else "";
    var m1 := if home != "" then m.(homeTeamId := home) else m;
    var away := if m1.awayTeamId == "" && m.awayTeam != "" then ResolveTeamId(m.awayTeam, m.competitionId, master) else "";
    var m2 := if away != "" then m1.(awayTeamId := away) else m1;
    (m2, (if home != "" then 1 else 0) + (if away != "" then 1 else 0))
  }

  /** How many of the two team ids differ between `a` and `b`. */
  function IdsChanged(a: Match, b: Match): nat
  {
    (if a.homeTeamId != b.homeTeamId then 1 else 0) + (if a.awayTeamId != b.awayTeamId then 1 else 0)
  }

  /**
   * Only an empty id is filled, with the resolved id of its team in the
   * match's own competition; every other field stays; the count is the
   * number of ids that changed.
   */
  lemma FillMatchSpec(m: Match, master: BC.Catalog)
    ensures var (r, n) := FillMatch(m, master);
      r.(homeTeamId := m.homeTeamId, awayTeamId := m.awayTeamId) == m
      && r.homeTeamId == (if m.homeTeamId == "" then ResolveTeamId(m.homeTeam, m.competitionId, master) else m.homeTeamId)
      && r.awayTeamId == (if m.awayTeamId == "" then ResolveTeamId(m.awayTeam, m.competitionId, master) else m.awayTeamId)
      && n == IdsChanged(m, r)
  {
  }

  /** A second pass fills nothing: what was filled is non-empty, what was not resolves to "" again. */
  lemma FillMatchIdempotent(m: Match, master: BC.Catalog)
    ensures var r := FillMatch(m, master).0;
      FillMatch(r, master) == (r, 0)
  {
    FillMatchSpec(m, master);
    var r := FillMatch(m, master).0;
    FillMatchSpec(r, master);
  }

  /** A per-match loop body applied to every match, with its counts summed. */
  function CountStep(ms: seq<Match>, step: Match -> (Match, nat)): (r: (seq<Match>, nat))
    ensures |r.0| == |ms|
    ensures forall i :: 0 <= i < |ms| ==> r.0[i] == step(ms[i]).0
  {
    if |ms| == 0 then ([], 0)
    else
      var (prev, n) := CountStep(ms[..|ms| - 1], step);
      var (m, k) := step(ms[|ms| - 1]);
      (prev + [m], n + k)
  }

  function FillFn(master: BC.Catalog): Match -> (Match, nat)
  {
    (m: Match) => FillMatch(m, master)
  }

  /** The whole loop: the matches afterwards and `updated_count`. */
  function FillAll(ms: seq<Match>, master: BC.Catalog): (r: (seq<Match>, nat))
    ensures |r.0| == |ms|
    ensures forall i :: 0 <= i < |ms| ==> r.0[i] == FillMatch(ms[i], master).0
  {
    CountStep(ms, FillFn(master))
  }

  lemma FillAllStep(ms: seq<Match>, master: BC.Catalog, i: int)
    requires 0 <= i < |ms|
    ensures FillAll(ms[..i + 1], master)
         == (FillAll(ms[..i], master).0 + [FillMatch(ms[i], master).0], FillAll(ms[..i], master).1 + FillMatch(ms[i], master).1)
  {
    assert ms[..i + 1][..i] == ms[..i];
  }

  /** Ids changed across two equally long match lists. */
  function ChangedIn(a: seq<Match>, b: seq<Match>): nat
    requires |a| == |b|
  {
    if |a| == 0 then 0 else ChangedIn(a[..|a| - 1], b[..|b| - 1]) + IdsChanged(a[|a| - 1], b[|b| - 1])
  }

  /** `updated_count` is exactly the number of team ids that differ after the pass. */
  lemma {:induction false} FillAllCount(ms: seq<Match>, master: BC.Catalog)
    ensures var (r, n) := FillAll(ms, master); n == ChangedIn(ms, r)
  {
    if |ms| > 0 {
      var (r, n) := FillAll(ms, master);
      var init := ms[..|ms| - 1];
      FillAllCount(init, master);
      FillMatchSpec(ms[|ms| - 1], master);
      assert r[..|r| - 1] == FillAll(init, master).0;
    }
  }

  /** The body of the loop of `enrich_matches_in_file` for one match. */
  method FillOne(match0: Match, master: BC.Catalog) returns (m: Match, k: nat)
    ensures (m, k) == FillMatch(match0, master)
  {
    m, k := match0, 0;
    var comp := m.competitionId;
    if m.homeTeamId == "" && m.homeTeam != "" {
      var id := ResolveTeamIdLoop(m.homeTeam, comp, master);
      if id != "" {
        m := m.(homeTeamId := id);
        k := k + 1;
      }
    }
    if m.awayTeamId == "" && m.awayTeam != "" {
      var id := ResolveTeamIdLoop(m.awayTeam, comp, master);
      if id != "" {
        m := m.(awayTeamId := id);
        k := k + 1;
      }
    }
  }

  /** One iteration of the loop of `enrich_matches_in_file`: the filled match is appended and its count added. */
  method FillNext(out0: seq<Match>, updated0: nat, ms: seq<Match>, i: int, master: BC.Catalog) returns (out: seq<Match>, updated: nat)
    requires 0 <= i < |ms| && (out0, updated0) == FillAll(ms[..i], master)
    ensures (out, updated) == FillAll(ms[..i + 1], master)
  {
    var m, k := FillOne(ms[i], master);
    FillAllStep(ms, master, i);
    updated := updated0 + k;
    out := out0 + [m];
  }

  /**
   * `enrich_matches_in_file` on the decoded list: an empty list gives 0;
   * otherwise the updated matches and the count; the file is written back
   * only when the count is positive.
   */
  method EnrichMatchesInFile(ms: seq<Match>, master: BC.Catalog) returns (out: seq<Match>, updated: nat, write: bool)
    ensures (out, updated) == FillAll(ms, master)
    ensures write <==> updated > 0
  {
    if |ms| == 0 {
      return ms, 0, false;
    }
    out, updated := [], 0;
    var i := 0;
    while i < |ms|
      invariant 0 <= i <= |ms|
      invariant (out, updated) == FillAll(ms[..i], master)
    {
      out, updated := FillNext(out, updated, ms, i, master);
      i := i + 1;
    }
    TakeAll(ms);
    write := updated > 0;
  }

  // ----------------------------------------------------------------------- main

  /** A directory under data/matches: whether it is a directory, and its `*.json` files in sorted order. */
  datatype CompDir = CompDir(isDir: bool, files: seq<seq<Match>>)

  /** `updated_count` summed over the files of one directory. */
  function FileTotal(files: seq<seq<Match>>, master: BC.Catalog): nat
  {
    if |files| == 0 then 0 else FileTotal(files[..|files| - 1], master) + FillAll(files[|files| - 1], master).1
  }

  /** `total_updated` over the directories, skipping plain files. */
  function Total(dirs: seq<CompDir>, master: BC.Catalog): nat
  {
    if |dirs| == 0 then 0
    else Total(dirs[..|dirs| - 1], master) + (if dirs[|dirs| - 1].isDir then FileTotal(dirs[|dirs| - 1].files, master) else 0)
  }

  /** The counts summed over a directory are the number of team ids that changed in its files. */
  lemma {:induction false} FileTotalChanged(files: seq<seq<Match>>, master: BC.Catalog)
    ensures FileTotal(files, master) == ChangedFiles(files, master)
  {
    if |files| > 0 {
      FileTotalChanged(files[..|files| - 1], master);
      FillAllCount(files[|files| - 1], master);
    }
  }

  /** Ids changed in every file of a directory. */
  function ChangedFiles(files: seq<seq<Match>>, master: BC.Catalog): nat
  {
    if |files| == 0 then 0
    else ChangedFiles(files[..|files| - 1], master) + ChangedIn(files[|files| - 1], FillAll(files[|files| - 1], master).0)
  }

  /** The loop of `main` over the directories and their files, returning `total_updated`. */
  method EnrichMain(dirs: seq<CompDir>, master: BC.Catalog) returns (total: nat)
    ensures total == Total(dirs, master)
  {
    total := 0;
    var d := 0;
    while d < |dirs|
      invariant 0 <= d <= |dirs|
      invariant total == Total(dirs[..d], master)
    {
      assert dirs[..d + 1][..d] == dirs[..d];
      if dirs[d].isDir {
        var files := dirs[d].files;
        var sub := 0;
        var f := 0;
        while f < |files|
          invariant 0 <= f <= |files|
          invariant sub == FileTotal(files[..f], master)
        {
          assert files[..f + 1][..f] == files[..f];
          var out, updated, write := EnrichMatchesInFile(files[f], master);
          sub := sub + updated;
          f := f + 1;
        }
        assert files[..f] == files;
        total := total + sub;
      }
      d := d + 1;
    }
    assert dirs[..d] == dirs;
  }
}
