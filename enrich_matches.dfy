/**
 * `scripts/enrich_matches.py`: every match of a file `<stem>.json` gets the
 * competition id `<stem>` when it has none, team ids taken from the
 * lower-cased team names when those are keys of teams.json, and a match id
 * derived from the stem, the kickoff and both team names when it has none.
 * Nothing already filled is overwritten. SHA-1 is the parameter `sha1Hex`
 * (the hexadecimal digest of a string).
 */
module EnrichMatches {
  import opened Text
  import opened BaseMatches

  /** `compute_match_id`: readable parts, then the first ten hex digits of the SHA-1 of the raw parts. */
  function ComputeMatchId(sha1Hex: string -> string, comp: string, kickoff: string, home: string, away: string): (id: string)
    ensures var prefix := comp + "-" + Lower(kickoff) + "-" + Lower(home) + "-" + Lower(away) + "-";
      |prefix| <= |id| <= |prefix| + 10 && id[..|prefix|] == prefix
      && id[|prefix|..] == Take(sha1Hex(comp + "|" + kickoff + "|" + home + "|" + away), 10)
  {
    var digest := Take(sha1Hex(comp + "|" + kickoff + "|" + home + "|" + away), 10);
    var prefix := comp + "-" + Lower(kickoff) + "-" + Lower(home) + "-" + Lower(away) + "-";
    assert (prefix + digest)[..|prefix|] == prefix;
    assert (prefix + digest)[|prefix|..] == digest;
    prefix + digest
  }

  /** The per-match body of the loop of `enrich_file`: the new match and whether anything was assigned. */
  function EnrichMatch(sha1Hex: string -> string, teams: set<string>, stem: string, m: Match): (Match, bool)
  {
    var fillComp := m.competitionId == "";
    var m1 := if fillComp then m.(competitionId := stem) else m;
    var home := m.homeTeam;
    var away := m.awayTeam;
    var fillHome := home != "" && m1.homeTeamId == "" && Lower(home) in teams;
    var m2 := if fillHome then m1.(homeTeamId := Lower(home)) else m1;
    var fillAway := away != "" && m2.awayTeamId == "" && Lower(away) in teams;
    var m3 := if fillAway then m2.(awayTeamId := Lower(away)) else m2;
    var fillId := m3.matchId == "" && m3.kickoffUtc != "" && home != "" && away != "";
    var m4 := if fillId then m3.(matchId := ComputeMatchId(sha1Hex, stem, m3.kickoffUtc, home, away)) else m3;
    (m4, fillComp || fillHome || fillAway || fillId)
  }

  /**
   * Only the four id fields can change, each only when it was empty: the
   * competition becomes the stem; a team id becomes the lower-cased name, and
   * only when that is a key of teams.json; the match id is computed from the
   * stem, not from the record's competition, and only when the kickoff and
   * both teams are known.
   */
  lemma EnrichMatchSpec(sha1Hex: string -> string, teams: set<string>, stem: string, m: Match)
    ensures var (r, changed) := EnrichMatch(sha1Hex, teams, stem, m);
      r.(competitionId := m.competitionId, homeTeamId := m.homeTeamId, awayTeamId := m.awayTeamId, matchId := m.matchId) == m
      && r.competitionId == (if m.competitionId == "" then stem else m.competitionId)
      && r.homeTeamId == (if m.homeTeamId == "" && m.homeTeam != "" && Lower(m.homeTeam) in teams then Lower(m.homeTeam) else m.homeTeamId)
      && r.awayTeamId == (if m.awayTeamId == "" && m.awayTeam != "" && Lower(m.awayTeam) in teams then Lower(m.awayTeam) else m.awayTeamId)
      && r.matchId == (if m.matchId == "" && m.kickoffUtc != "" && m.homeTeam != "" && m.awayTeam != ""
                       then ComputeMatchId(sha1Hex, stem, m.kickoffUtc, m.homeTeam, m.awayTeam) else m.matchId)
      && (stem != "" ==> (changed <==> r != m))
  {
    var (r, changed) := EnrichMatch(sha1Hex, teams, stem, m);
    if m.homeTeam != "" {
      assert |Lower(m.homeTeam)| > 0;
    }
    if m.awayTeam != "" {
      assert |Lower(m.awayTeam)| > 0;
    }
    if m.matchId == "" && m.kickoffUtc != "" && m.homeTeam != "" && m.awayTeam != "" {
      assert |ComputeMatchId(sha1Hex, stem, m.kickoffUtc, m.homeTeam, m.awayTeam)| > 0;
    }
  }

  /** Enriching twice changes nothing more: every field it fills is then non-empty. */
  lemma EnrichIdempotent(sha1Hex: string -> string, teams: set<string>, stem: string, m: Match)
    requires stem != ""
    ensures var r := EnrichMatch(sha1Hex, teams, stem, m).0;
      EnrichMatch(sha1Hex, teams, stem, r) == (r, false)
  {
    EnrichMatchSpec(sha1Hex, teams, stem, m);
    var r := EnrichMatch(sha1Hex, teams, stem, m).0;
    EnrichMatchSpec(sha1Hex, teams, stem, r);
  }

  /** A per-match loop body applied to every match, with the `changed` flag or-ed over all of them. */
  function MapStep(ms: seq<Match>, step: Match -> (Match, bool)): (r: (seq<Match>, bool))
    ensures |r.0| == |ms|
  {
    if |ms| == 0 then ([], false)
    else
      var (prev, changed) := MapStep(ms[..|ms| - 1], step);
      var (m, c) := step(ms[|ms| - 1]);
      (prev + [m], changed || c)
  }

  /** Match for match, and `changed` exactly when some step reported a change. */
  lemma {:induction false} MapStepSpec(ms: seq<Match>, step: Match -> (Match, bool))
    ensures var (r, changed) := MapStep(ms, step);
      (forall i :: 0 <= i < |ms| ==> r[i] == step(ms[i]).0)
      && (changed <==> exists i :: 0 <= i < |ms| && step(ms[i]).1)
  {
    if |ms| > 0 {
      var init := ms[..|ms| - 1];
      MapStepSpec(init, step);
      var (prev, c0) := MapStep(init, step);
      if c0 {
        var i :| 0 <= i < |init| && step(init[i]).1;
        assert ms[i] == init[i];
      }
      forall i | 0 <= i < |init| ensures ms[i] == init[i] { }
    }
  }

  function EnrichFn(sha1Hex: string -> string, teams: set<string>, stem: string): Match -> (Match, bool)
  {
    (m: Match) => EnrichMatch(sha1Hex, teams, stem, m)
  }

  /** The matches of a file after the loop of `enrich_file`, and its `changed` flag. */
  function EnrichAll(sha1Hex: string -> string, teams: set<string>, stem: string, ms: seq<Match>): (seq<Match>, bool)
  {
    MapStep(ms, EnrichFn(sha1Hex, teams, stem))
  }

  /** The file's matches afterwards, match for match, and `changed` exactly when some match was. */
  lemma EnrichAllSpec(sha1Hex: string -> string, teams: set<string>, stem: string, ms: seq<Match>)
    ensures var (r, changed) := EnrichAll(sha1Hex, teams, stem, ms);
      (forall i :: 0 <= i < |ms| ==> r[i] == EnrichMatch(sha1Hex, teams, stem, ms[i]).0)
      && (changed <==> exists i :: 0 <= i < |ms| && EnrichMatch(sha1Hex, teams, stem, ms[i]).1)
  {
    MapStepSpec(ms, EnrichFn(sha1Hex, teams, stem));
  }

  /**
   * `enrich_file`: the matches after the loop, whether anything changed, and
   * whether the file is written (only when something changed and it is not a
   * dry run).
   */
  method EnrichFile(sha1Hex: string -> string, teams: set<string>, stem: string, ms: seq<Match>, dryRun: bool)
    returns (out: seq<Match>, changed: bool, write: bool)
    ensures (out, changed) == EnrichAll(sha1Hex, teams, stem, ms)
    ensures write <==> changed && !dryRun
  {
    out, changed := [], false;
    var i := 0;
    while i < |ms|
      invariant 0 <= i <= |ms|
      invariant (out, changed) == EnrichAll(sha1Hex, teams, stem, ms[..i])
    {
      assert ms[..i + 1][..i] == ms[..i];
      var m := ms[i];
      if m.competitionId == "" {
        m := m.(competitionId := stem);
        changed := true;
      }
      var home := ms[i].homeTeam;
      var away := ms[i].awayTeam;
      if home != "" && m.homeTeamId == "" {
        var key := Lower(home);
        if key in teams {
          m := m.(homeTeamId := key);
          changed := true;
        }
      }
      if away != "" && m.awayTeamId == "" {
        var key := Lower(away);
        if key in teams {
          m := m.(awayTeamId := key);
          changed := true;
        }
      }
      if m.matchId == "" && m.kickoffUtc != "" && home != "" && away != "" {
        m := m.(matchId := ComputeMatchId(sha1Hex, stem, m.kickoffUtc, home, away));
        changed := true;
      }
      out := out + [m];
      i := i + 1;
    }
    assert ms[..i] == ms;
    write := changed && !dryRun;
  }

  /**
   * `main`: refuses an empty teams.json; otherwise every file `(stem,
   * matches)`, in sorted path order, is enriched, and the result says which
   * files are written (`None` for the others).
   */
  method EnrichMain(sha1Hex: string -> string, teams: set<string>, files: seq<(string, seq<Match>)>, dryRun: bool)
    returns (r: Option<seq<Option<seq<Match>>>>)
    ensures teams == {} <==> r.None?
    ensures r.Some? ==> |r.value| == |files| && forall i :: 0 <= i < |files| ==>
      var (out, changed) := EnrichAll(sha1Hex, teams, files[i].0, files[i].1);
      r.value[i] == if changed && !dryRun then Some(out) else None
  {
    if teams == {} {
      return None;
    }
    var written: seq<Option<seq<Match>>> := [];
    var i := 0;
    while i < |files|
      invariant 0 <= i <= |files| && |written| == i
      invariant forall k :: 0 <= k < i ==>
        var (out, changed) := EnrichAll(sha1Hex, teams, files[k].0, files[k].1);
        written[k] == if changed && !dryRun then Some(out) else None
    {
      var out, changed, write := EnrichFile(sha1Hex, teams, files[i].0, files[i].1, dryRun);
      written := written + [if write then Some(out) else None];
      i := i + 1;
    }
    r := Some(written);
  }
}
