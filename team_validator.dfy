/**
 * `src/validators/team_validator.py`: the duplicate analysis of teams.json.
 * Teams of one competition whose names agree once trailing sponsor words
 * are removed form a group; match files are counted for how often each
 * name is used, and each group gets a merge plan led by its most used name.
 *
 * Its `normalize_team_name` is the same code as the service's, so
 * `TeamService.NormalizeTeamName` stands for it.
 */
module TeamValidator {
  import opened Text
  import opened Sorting
  import opened Affix
  import BC = BaseCatalog
  import TS = TeamService

  /** The sponsor suffixes, in list order: only trailing patterns. */
  const SponsorSuffixes: seq<Pattern> := [
    Trailing("GIO"), Trailing("HBF"), Trailing("FMG"), Trailing("SKY"), Trailing("DHL"),
    Trailing("ISUZU"), Trailing("GALLAGHER"), Trailing("4R"), Suffix(["FOUR", "R"]),
    Trailing("CHURCHILL"), Trailing("MCLEAN"), Trailing("HIF"), Suffix(["HFC", "BANK"])]

  /** `get_base_team_name`: every suffix pattern in turn, then strip. */
  function GetBaseTeamName(name: string): string
  {
    Strip(RemoveEach(SponsorSuffixes, name))
  }

  /** Removing trailing patterns only ever cuts text off the end. */
  lemma {:induction false} SuffixesKeepPrefix(ps: seq<Pattern>, s: string)
    requires forall k :: 0 <= k < |ps| ==> ps[k].Suffix?
    ensures var r := RemoveEach(ps, s); r == s[..|r|]
    decreases |ps|
  {
    if |ps| > 0 {
      var t := Remove(ps[0], s);
      assert t == s[..|t|];
      SuffixesKeepPrefix(ps[1..], t);
    }
  }

  /** Strip after trailing-only patterns: what is left is the stripped form of a leading part. */
  lemma StripAfterSuffixes(ps: seq<Pattern>, name: string)
    requires forall k :: 0 <= k < |ps| ==> ps[k].Suffix?
    ensures exists j :: 0 <= j <= |name| && Strip(RemoveEach(ps, name)) == Strip(name[..j])
    ensures (forall k :: 0 <= k < |ps| ==> !Matches(ps[k], name)) ==> Strip(RemoveEach(ps, name)) == Strip(name)
  {
    SuffixesKeepPrefix(ps, name);
    var r := RemoveEach(ps, name);
    assert Strip(r) == Strip(name[..|r|]);
    if forall k :: 0 <= k < |ps| ==> !Matches(ps[k], name) {
      RemoveEachUnmatched(ps, name);
    }
  }

  lemma SponsorSuffixesTrailing()
    ensures forall k :: 0 <= k < |SponsorSuffixes| ==> SponsorSuffixes[k].Suffix?
  {
  }

  /** The base name is the stripped form of a leading part of the name; an unmatched name is only stripped. */
  lemma GetBaseTeamNamePrefix(name: string)
    ensures exists j :: 0 <= j <= |name| && GetBaseTeamName(name) == Strip(name[..j])
    ensures (forall k :: 0 <= k < |SponsorSuffixes| ==> !Matches(SponsorSuffixes[k], name)) ==> GetBaseTeamName(name) == Strip(name)
  {
    SponsorSuffixesTrailing();
    StripAfterSuffixes(SponsorSuffixes, name);
  }

  /** The grouping key of the analysis. */
  function BaseKey(name: string): string
  {
    TS.NormalizeTeamName(GetBaseTeamName(name))
  }

  // ------------------------------------------------------------ analyze_duplicates_in_teams

  /** `{"id", "name", "base_name"}` of one team. */
  datatype TeamRef = TeamRef(id: string, name: string, baseName: string)

  /** One reported group. */
  datatype DupGroup = DupGroup(baseName: string, count: nat, teams: seq<TeamRef>, primaryId: string, mergeCandidates: seq<string>)

  /** The teams the analysis looks at, in dict order, with their competition. */
  function Entries(ids: seq<string>, teams: map<string, BC.TeamRecord>, key: string -> string): (r: seq<(string, TeamRef)>)
    requires forall k :: k in ids ==> k in teams
    ensures |r| <= |ids|
    ensures forall e :: e in r ==> e.0 != "" && e.1.name != "" && e.1.baseName == key(e.1.name)
  {
    if |ids| == 0 then []
    else
      var init := ids[..|ids| - 1];
      assert forall k :: k in init ==> k in ids;
      var prev := Entries(init, teams, key);
      var id := ids[|ids| - 1];
      var rec := teams[id];
      if rec.competitionId != "" && rec.name != "" then prev + [(rec.competitionId, TeamRef(id, rec.name, key(rec.name)))] else prev
  }

  function CompOf(e: (string, TeamRef)): string { e.0 }

  function BaseOf(t: TeamRef): string { t.baseName }

  /** The competitions in order of first appearance (the outer defaultdict's key order). */
  function CompsOf(es: seq<(string, TeamRef)>): seq<string>
  {
    Dedup(seq(|es|, i requires 0 <= i < |es| => es[i].0))
  }

  /** The teams of competition `c`, in order. */
  function RefsIn(es: seq<(string, TeamRef)>, c: string): (r: seq<TeamRef>)
    ensures |r| == CountKey(es, CompOf, c)
    ensures forall t :: t in r <==> (c, t) in es
  {
    if |es| == 0 then []
    else
      var init := es[..|es| - 1];
      assert forall e :: e in es ==> e in init || e == es[|es| - 1];
      var prev := RefsIn(init, c);
      if es[|es| - 1].0 == c then prev + [es[|es| - 1].1] else prev
  }

  /** The base names in order of first appearance (the inner defaultdict's key order). */
  function Bases(refs: seq<TeamRef>): seq<string>
  {
    Dedup(seq(|refs|, i requires 0 <= i < |refs| => refs[i].baseName))
  }

  /** The teams with base name `b`, in order. */
  function GroupOf(refs: seq<TeamRef>, b: string): (g: seq<TeamRef>)
    ensures |g| == CountKey(refs, BaseOf, b)
    ensures forall t :: t in g <==> t in refs && t.baseName == b
  {
    if |refs| == 0 then []
    else
      var init := refs[..|refs| - 1];
      assert forall t :: t in refs ==> t in init || t == refs[|refs| - 1];
      var prev := GroupOf(init, b);
      if refs[|refs| - 1].baseName == b then prev + [refs[|refs| - 1]] else prev
  }

  function IdsOf(ts: seq<TeamRef>): (r: seq<string>)
    ensures |r| == |ts| && forall i :: 0 <= i < |ts| ==> r[i] == ts[i].id
  {
    seq(|ts|, i requires 0 <= i < |ts| => ts[i].id)
  }

  /** The entry of a group: its size, the first id as primary and the rest as merge candidates. */
  function GroupFor(b: string, g: seq<TeamRef>): DupGroup
    requires |g| > 0
  {
    DupGroup(b, |g|, g, g[0].id, IdsOf(g[1..]))
  }

  /** The groups of two or more, over the base names `bases` in order. */
  function CompDups(refs: seq<TeamRef>, bases: seq<string>): seq<DupGroup>
  {
    if |bases| == 0 then []
    else
      var prev := CompDups(refs, bases[..|bases| - 1]);
      var b := bases[|bases| - 1];
      var g := GroupOf(refs, b);
      if |g| > 1 then prev + [GroupFor(b, g)] else prev
  }

  /** The report over the competitions `comps`: only those with a group. */
  function AnalyzeOver(es: seq<(string, TeamRef)>, comps: seq<string>): seq<(string, seq<DupGroup>)>
  {
    if |comps| == 0 then []
    else
      var prev := AnalyzeOver(es, comps[..|comps| - 1]);
      var c := comps[|comps| - 1];
      var refs := RefsIn(es, c);
      var ds := CompDups(refs, Bases(refs));
      if |ds| > 0 then prev + [(c, ds)] else prev
  }

  lemma AnalyzeOverStep(es: seq<(string, TeamRef)>, comps: seq<string>, i: int)
    requires 0 <= i < |comps|
    ensures var ds := CompDups(RefsIn(es, comps[i]), Bases(RefsIn(es, comps[i])));
      AnalyzeOver(es, comps[..i + 1]) == if |ds| > 0 then AnalyzeOver(es, comps[..i]) + [(comps[i], ds)] else AnalyzeOver(es, comps[..i])
  {
    assert comps[..i + 1][..i] == comps[..i];
  }

  function AnalyzeWith(teams: BC.Catalog, key: string -> string): seq<(string, seq<DupGroup>)>
    requires forall k :: k in teams.ids ==> k in teams.teams
  {
    var es := Entries(teams.ids, teams.teams, key);
    AnalyzeOver(es, CompsOf(es))
  }

  /** `analyze_duplicates_in_teams(teams)` */
  function AnalyzeDuplicatesInTeams(teams: BC.Catalog): seq<(string, seq<DupGroup>)>
    requires forall k :: k in teams.ids ==> k in teams.teams
  {
    AnalyzeWith(teams, BaseKey)
  }

  /** A group of `refs`: two or more teams that share its base name, all of them, primary first. */
  predicate GroupOfRefs(d: DupGroup, refs: seq<TeamRef>)
  {
    d.count == |d.teams| >= 2 && d.teams == GroupOf(refs, d.baseName)
    && [d.primaryId] + d.mergeCandidates == IdsOf(d.teams)
  }

  lemma {:induction false} CompDupsSpec(refs: seq<TeamRef>, bases: seq<string>)
    ensures forall d :: d in CompDups(refs, bases) ==> GroupOfRefs(d, refs) && d.baseName in bases
  {
    if |bases| > 0 {
      var init := bases[..|bases| - 1];
      CompDupsSpec(refs, init);
      var b := bases[|bases| - 1];
      var g := GroupOf(refs, b);
      var prev := CompDups(refs, init);
      if |g| > 1 {
        GroupForSpec(refs, b, g);
        forall d | d in prev + [GroupFor(b, g)] ensures GroupOfRefs(d, refs) && d.baseName in bases {
          if d in prev {
            assert d.baseName in init;
          }
        }
      } else {
        forall d | d in prev ensures d.baseName in bases {
          assert d.baseName in init;
        }
      }
    }
  }

  /** The record built from a group of two or more is a group of its competition. */
  lemma GroupForSpec(refs: seq<TeamRef>, b: string, g: seq<TeamRef>)
    requires g == GroupOf(refs, b) && |g| > 1
    ensures GroupOfRefs(GroupFor(b, g), refs) && GroupFor(b, g).baseName == b
  {
    IdsCons(g);
  }

  lemma IdsCons(g: seq<TeamRef>)
    requires |g| > 0
    ensures IdsOf(g) == [g[0].id] + IdsOf(g[1..])
  {
  }

  lemma {:induction false} AnalyzeOverSpec(es: seq<(string, TeamRef)>, comps: seq<string>)
    ensures forall p :: p in AnalyzeOver(es, comps) ==>
      p.0 in comps && |p.1| > 0 && forall d :: d in p.1 ==> GroupOfRefs(d, RefsIn(es, p.0))
  {
    if |comps| > 0 {
      AnalyzeOverSpec(es, comps[..|comps| - 1]);
      var c := comps[|comps| - 1];
      CompDupsSpec(RefsIn(es, c), Bases(RefsIn(es, c)));
    }
  }

  /**
   * Every reported group lists, in dict order, all the teams of its
   * competition that have a competition and a name and share its base name;
   * there are at least two, the first id is the primary and the others are
   * the merge candidates.
   */
  lemma AnalyzeSound(teams: BC.Catalog)
    requires forall k :: k in teams.ids ==> k in teams.teams
    ensures var es := Entries(teams.ids, teams.teams, BaseKey);
      forall p :: p in AnalyzeDuplicatesInTeams(teams) ==>
        |p.1| > 0 && forall d :: d in p.1 ==> GroupOfRefs(d, RefsIn(es, p.0))
  {
    var es := Entries(teams.ids, teams.teams, BaseKey);
    AnalyzeOverSpec(es, CompsOf(es));
  }

  /**
   * `ds` has one entry for each key of `ks` that `want` picks and no other:
   * each entry's key is in `ks`, each wanted key has an entry, no key has two.
   */
  ghost predicate Covers<D>(ds: seq<D>, ks: seq<string>, key: D -> string, want: string -> bool)
  {
    (forall j :: 0 <= j < |ds| ==> key(ds[j]) in ks)
    && (forall x :: x in ks && want(x) ==> exists j :: 0 <= j < |ds| && key(ds[j]) == x)
    && forall j, k :: 0 <= j < k < |ds| ==> key(ds[j]) != key(ds[k])
  }

  /** Appending the entry of a new key, exactly when it is wanted, keeps the cover. */
  lemma CoversSnoc<D>(prev: seq<D>, init: seq<string>, x: string, d: D, key: D -> string, want: string -> bool)
    requires Covers(prev, init, key, want) && x !in init && key(d) == x
    ensures Covers(if want(x) then prev + [d] else prev, init + [x], key, want)
  {
    var ks := init + [x];
    var ds := if want(x) then prev + [d] else prev;
    forall j | 0 <= j < |ds| ensures key(ds[j]) in ks {
      if j < |prev| {
        assert ds[j] == prev[j];
      }
    }
    forall y | y in ks && want(y) ensures exists j :: 0 <= j < |ds| && key(ds[j]) == y {
      if y == x {
        assert key(ds[|prev|]) == x;
      } else {
        assert y in init;
        var j :| 0 <= j < |prev| && key(prev[j]) == y;
        assert ds[j] == prev[j];
      }
    }
    forall j, k | 0 <= j < k < |ds| ensures key(ds[j]) != key(ds[k]) {
      if k == |prev| {
        assert key(prev[j]) in init;
      } else {
        assert ds[j] == prev[j] && ds[k] == prev[k];
      }
    }
  }

  function BaseNameOf(d: DupGroup): string { d.baseName }

  /** The base names that two or more teams of `refs` share. */
  function SharedIn(refs: seq<TeamRef>): string -> bool
  {
    b => |GroupOf(refs, b)| > 1
  }

  /** The groups of one competition, as the analysis builds them. */
  function DupsOf(es: seq<(string, TeamRef)>, c: string): seq<DupGroup>
  {
    CompDups(RefsIn(es, c), Bases(RefsIn(es, c)))
  }

  /** Every base name of `bases` with two or more teams has its group, and no base name has two. */
  lemma {:induction false} CompDupsComplete(refs: seq<TeamRef>, bases: seq<string>)
    requires Distinct(bases)
    ensures Covers(CompDups(refs, bases), bases, BaseNameOf, SharedIn(refs))
  {
    if |bases| > 0 {
      var init := bases[..|bases| - 1];
      var b := bases[|bases| - 1];
      assert bases == init + [b];
      assert Distinct(init) && b !in init;
      CompDupsComplete(refs, init);
      var g := GroupOf(refs, b);
      var d := if |g| > 0 then GroupFor(b, g) else DupGroup(b, 0, [], "", []);
      CoversSnoc(CompDups(refs, init), init, b, d, BaseNameOf, SharedIn(refs));
    }
  }

  /** The pairs `(k, f(k))` for the keys `ks` in order whose value is non-empty. */
  function NonEmptyOver<V>(ks: seq<string>, f: string -> seq<V>): seq<(string, seq<V>)>
  {
    if |ks| == 0 then []
    else
      var prev := NonEmptyOver(ks[..|ks| - 1], f);
      var k := ks[|ks| - 1];
      if |f(k)| > 0 then prev + [(k, f(k))] else prev
  }

  function DupsFn(es: seq<(string, TeamRef)>): string -> seq<DupGroup>
  {
    c => DupsOf(es, c)
  }

  /** The report is the competitions' non-empty group lists, in order. */
  lemma {:induction false} AnalyzeOverIsNonEmpty(es: seq<(string, TeamRef)>, comps: seq<string>)
    ensures AnalyzeOver(es, comps) == NonEmptyOver(comps, DupsFn(es))
  {
    if |comps| > 0 {
      AnalyzeOverIsNonEmpty(es, comps[..|comps| - 1]);
      assert DupsFn(es)(comps[|comps| - 1]) == DupsOf(es, comps[|comps| - 1]);
    }
  }

  /** Each pair carries the value of its key, and over distinct keys each key with a value has exactly one pair. */
  lemma {:induction false} NonEmptyOverSpec<V>(ks: seq<string>, f: string -> seq<V>)
    requires Distinct(ks)
    ensures var r := NonEmptyOver(ks, f);
      (forall i :: 0 <= i < |r| ==> r[i].1 == f(r[i].0))
      && Covers(r, ks, (p: (string, seq<V>)) => p.0, k => |f(k)| > 0)
  {
    if |ks| > 0 {
      var init := ks[..|ks| - 1];
      var k := ks[|ks| - 1];
      assert ks == init + [k];
      assert Distinct(init) && k !in init;
      NonEmptyOverSpec(init, f);
      CoversSnoc(NonEmptyOver(init, f), init, k, (k, f(k)), (p: (string, seq<V>)) => p.0, k => |f(k)| > 0);
    }
  }

  /** A base name shared in a competition's team list is one of its base names. */
  lemma SharedBaseListed(refs: seq<TeamRef>, b: string)
    requires |GroupOf(refs, b)| > 0
    ensures b in Bases(refs)
  {
    var t := GroupOf(refs, b)[0];
    assert t in GroupOf(refs, b);
    var k :| 0 <= k < |refs| && refs[k] == t;
    assert seq(|refs|, i requires 0 <= i < |refs| => refs[i].baseName)[k] == b;
  }

  /** A competition with a team is one of the competitions of the entries. */
  lemma UsedCompListed(es: seq<(string, TeamRef)>, c: string)
    requires |RefsIn(es, c)| > 0
    ensures c in CompsOf(es)
  {
    var t := RefsIn(es, c)[0];
    assert t in RefsIn(es, c);
    var k :| 0 <= k < |es| && es[k] == (c, t);
    assert seq(|es|, i requires 0 <= i < |es| => es[i].0)[k] == c;
  }

  /**
   * Every (competition, base name) that two or more analysed teams share is
   * reported: its competition appears once in the report, and the base name
   * once among that competition's groups.
   */
  lemma AnalyzeComplete(teams: BC.Catalog)
    requires forall k :: k in teams.ids ==> k in teams.teams
    ensures var es := Entries(teams.ids, teams.teams, BaseKey);
      var r := AnalyzeDuplicatesInTeams(teams);
      (forall c, b :: |GroupOf(RefsIn(es, c), b)| >= 2 ==>
        exists i, j :: 0 <= i < |r| && 0 <= j < |r[i].1| && r[i].0 == c && r[i].1[j].baseName == b)
      && (forall i, k :: 0 <= i < k < |r| ==> r[i].0 != r[k].0)
      && forall i, j, k :: 0 <= i < |r| && 0 <= j < k < |r[i].1| ==> r[i].1[j].baseName != r[i].1[k].baseName
  {
    AnalyzeOverComplete(Entries(teams.ids, teams.teams, BaseKey));
  }

  /** `AnalyzeComplete` over the analysed entries `es`. */
  lemma AnalyzeOverComplete(es: seq<(string, TeamRef)>)
    ensures var r := AnalyzeOver(es, CompsOf(es));
      (forall c, b :: |GroupOf(RefsIn(es, c), b)| >= 2 ==>
        exists i, j :: 0 <= i < |r| && 0 <= j < |r[i].1| && r[i].0 == c && r[i].1[j].baseName == b)
      && (forall i, k :: 0 <= i < k < |r| ==> r[i].0 != r[k].0)
      && forall i, j, k :: 0 <= i < |r| && 0 <= j < k < |r[i].1| ==> r[i].1[j].baseName != r[i].1[k].baseName
  {
    var r := AnalyzeOver(es, CompsOf(es));
    AnalyzeOverIsNonEmpty(es, CompsOf(es));
    NonEmptyOverSpec(CompsOf(es), DupsFn(es));
    forall c, b | |GroupOf(RefsIn(es, c), b)| >= 2
      ensures exists i, j :: 0 <= i < |r| && 0 <= j < |r[i].1| && r[i].0 == c && r[i].1[j].baseName == b
    {
      ReportedPair(es, r, c, b);
    }
    forall i, j, k | 0 <= i < |r| && 0 <= j < k < |r[i].1| ensures r[i].1[j].baseName != r[i].1[k].baseName {
      GroupsApart(es, r[i].0, r[i].1, j, k);
    }
  }

  lemma GroupsApart(es: seq<(string, TeamRef)>, c: string, ds: seq<DupGroup>, j: int, k: int)
    requires ds == DupsFn(es)(c) && 0 <= j < k < |ds|
    ensures ds[j].baseName != ds[k].baseName
  {
    CompDupsComplete(RefsIn(es, c), Bases(RefsIn(es, c)));
    assert BaseNameOf(ds[j]) != BaseNameOf(ds[k]);
  }

  lemma ReportedPair(es: seq<(string, TeamRef)>, r: seq<(string, seq<DupGroup>)>, c: string, b: string)
    requires forall i :: 0 <= i < |r| ==> r[i].1 == DupsFn(es)(r[i].0)
    requires forall x :: x in CompsOf(es) && |DupsFn(es)(x)| > 0 ==> exists i :: 0 <= i < |r| && r[i].0 == x
    requires |GroupOf(RefsIn(es, c), b)| >= 2
    ensures exists i, j :: 0 <= i < |r| && 0 <= j < |r[i].1| && r[i].0 == c && r[i].1[j].baseName == b
  {
    var ds := DupsFn(es)(c);
    var j := SharedReported(es, c, b, ds);
    var i :| 0 <= i < |r| && r[i].0 == c;
    assert r[i].1[j].baseName == b;
  }

  /** A base name two teams of competition `c` share has a group among that competition's groups. */
  lemma SharedReported(es: seq<(string, TeamRef)>, c: string, b: string, ds: seq<DupGroup>) returns (j: int)
    requires ds == DupsFn(es)(c) && |GroupOf(RefsIn(es, c), b)| >= 2
    ensures c in CompsOf(es) && 0 <= j < |ds| && ds[j].baseName == b
  {
    var refs := RefsIn(es, c);
    SharedBaseListed(refs, b);
    UsedCompListed(es, c);
    CompDupsComplete(refs, Bases(refs));
    assert SharedIn(refs)(b);
    j :| 0 <= j < |ds| && BaseNameOf(ds[j]) == b;
  }

  // ------------------------------------------------------------ the summary of `main`

  function GroupsSize(ds: seq<DupGroup>): nat
  {
    if |ds| == 0 then 0 else GroupsSize(ds[..|ds| - 1]) + ds[|ds| - 1].count
  }

  function GroupCount(r: seq<(string, seq<DupGroup>)>): nat
  {
    if |r| == 0 then 0 else GroupCount(r[..|r| - 1]) + |r[|r| - 1].1|
  }

  /** `sum(d["count"] - 1 ...)` over every group; counts are nat, so `count == 0` would give 0. */
  function Redundant(r: seq<(string, seq<DupGroup>)>): nat
  {
    if |r| == 0 then 0 else Redundant(r[..|r| - 1]) + RedundantIn(r[|r| - 1].1)
  }

  function RedundantIn(ds: seq<DupGroup>): nat
  {
    if |ds| == 0 then 0 else RedundantIn(ds[..|ds| - 1]) + (if ds[|ds| - 1].count > 0 then ds[|ds| - 1].count - 1 else 0)
  }

  datatype Summary = Summary(totalTeams: nat, duplicateGroups: nat, redundantTeams: nat, teamsAfterMerge: int)

  /** The `summary` block of the report. */
  function SummaryOf(teams: BC.Catalog): Summary
    requires forall k :: k in teams.ids ==> k in teams.teams
  {
    var r := AnalyzeDuplicatesInTeams(teams);
    Summary(|teams.ids|, GroupCount(r), Redundant(r), |teams.ids| - Redundant(r))
  }

  lemma {:induction false} CompDupsSize(refs: seq<TeamRef>, bases: seq<string>)
    requires Distinct(bases)
    ensures var ds := CompDups(refs, bases);
      GroupsSize(ds) <= SumCounts(refs, BaseOf, bases)
      && RedundantIn(ds) + |ds| == GroupsSize(ds)
  {
    if |bases| > 0 {
      var init := bases[..|bases| - 1];
      assert Distinct(init);
      CompDupsSize(refs, init);
    }
  }

  lemma {:induction false} AnalyzeOverSize(es: seq<(string, TeamRef)>, comps: seq<string>)
    requires Distinct(comps)
    ensures var r := AnalyzeOver(es, comps);
      Redundant(r) + GroupCount(r) <= SumCounts(es, CompOf, comps)
  {
    if |comps| > 0 {
      var init := comps[..|comps| - 1];
      assert Distinct(init);
      AnalyzeOverSize(es, init);
      var c := comps[|comps| - 1];
      var refs := RefsIn(es, c);
      var bases := Bases(refs);
      CompDupsSize(refs, bases);
      SumCountsBound(refs, BaseOf, bases);
    }
  }

  /**
   * The groups never claim more teams than exist: the teams left after the
   * merge are at least one per group, so never negative.
   */
  lemma SummaryBound(teams: BC.Catalog)
    requires forall k :: k in teams.ids ==> k in teams.teams
    ensures var s := SummaryOf(teams);
      s.redundantTeams + s.duplicateGroups <= s.totalTeams && s.teamsAfterMerge >= s.duplicateGroups
  {
    var es := Entries(teams.ids, teams.teams, BaseKey);
    AnalyzeOverSize(es, CompsOf(es));
    SumCountsBound(es, CompOf, CompsOf(es));
  }

  // ------------------------------------------------------------ the by_comp loop

  function BasesAt(order: map<string, seq<string>>, c: string): seq<string>
  {
    if c in order then order[c] else []
  }

  function ListAt(lists: map<(string, string), seq<TeamRef>>, c: string, b: string): seq<TeamRef>
  {
    if (c, b) in lists then lists[(c, b)] else []
  }

  function AddKey(ks: seq<string>, k: string): seq<string>
  {
    if k in ks then ks else ks + [k]
  }

  /**
   * `by_comp` after the entries `es`: the competitions in first-seen order,
   * the base names of each in first-seen order, and the list of each
   * (competition, base name).
   */
  ghost predicate ByCompOf(es: seq<(string, TeamRef)>, comps: seq<string>, order: map<string, seq<string>>,
                           lists: map<(string, string), seq<TeamRef>>)
  {
    comps == CompsOf(es) && (forall c :: c in order <==> c in comps) && OrderOf(es, order) && ListsOf(es, order, lists)
  }

  ghost predicate OrderOf(es: seq<(string, TeamRef)>, order: map<string, seq<string>>)
  {
    forall c :: c in order ==> order[c] == Bases(RefsIn(es, c))
  }

  ghost predicate ListsOf(es: seq<(string, TeamRef)>, order: map<string, seq<string>>, lists: map<(string, string), seq<TeamRef>>)
  {
    ListsDomain(order, lists) && forall c, b :: (c, b) in lists ==> lists[(c, b)] == GroupOf(RefsIn(es, c), b)
  }

  ghost predicate ListsDomain(order: map<string, seq<string>>, lists: map<(string, string), seq<TeamRef>>)
  {
    forall c, b :: (c, b) in lists <==> c in order && b in order[c]
  }

  lemma CompsOfSnoc(es: seq<(string, TeamRef)>, e: (string, TeamRef))
    ensures CompsOf(es + [e]) == AddKey(CompsOf(es), e.0)
  {
    var s := seq(|es| + 1, i requires 0 <= i < |es| + 1 => (es + [e])[i].0);
    assert s[..|es|] == seq(|es|, i requires 0 <= i < |es| => es[i].0);
  }

  lemma BasesSnoc(refs: seq<TeamRef>, t: TeamRef)
    ensures Bases(refs + [t]) == AddKey(Bases(refs), t.baseName)
  {
    var s := seq(|refs| + 1, i requires 0 <= i < |refs| + 1 => (refs + [t])[i].baseName);
    assert s[..|refs|] == seq(|refs|, i requires 0 <= i < |refs| => refs[i].baseName);
  }

  lemma RefsInSnoc(es: seq<(string, TeamRef)>, e: (string, TeamRef), c: string)
    ensures RefsIn(es + [e], c) == RefsIn(es, c) + (if e.0 == c then [e.1] else [])
  {
    assert (es + [e])[..|es|] == es;
  }

  lemma GroupOfSnoc(refs: seq<TeamRef>, t: TeamRef, b: string)
    ensures GroupOf(refs + [t], b) == GroupOf(refs, b) + (if t.baseName == b then [t] else [])
  {
    assert (refs + [t])[..|refs|] == refs;
  }

  lemma RefsInPresent(es: seq<(string, TeamRef)>, c: string)
    ensures RefsIn(es, c) != [] ==> c in CompsOf(es)
  {
    var r := RefsIn(es, c);
    if |r| > 0 {
      assert (c, r[0]) in es;
      var i :| 0 <= i < |es| && es[i] == (c, r[0]);
      assert seq(|es|, i requires 0 <= i < |es| => es[i].0)[i] == c;
    }
  }

  lemma GroupOfPresent(refs: seq<TeamRef>, b: string)
    ensures GroupOf(refs, b) != [] ==> b in Bases(refs)
  {
    var g := GroupOf(refs, b);
    if |g| > 0 {
      assert g[0] in refs;
      var i :| 0 <= i < |refs| && refs[i] == g[0];
      assert seq(|refs|, i requires 0 <= i < |refs| => refs[i].baseName)[i] == b;
    }
  }

  lemma OrderStep(es: seq<(string, TeamRef)>, order: map<string, seq<string>>, c: string, t: TeamRef)
    requires OrderOf(es, order) && (c !in order ==> c !in CompsOf(es))
    ensures OrderOf(es + [(c, t)], order[c := AddKey(BasesAt(order, c), t.baseName)])
  {
    var es' := es + [(c, t)];
    var order' := order[c := AddKey(BasesAt(order, c), t.baseName)];
    RefsInSnoc(es, (c, t), c);
    RefsInPresent(es, c);
    assert BasesAt(order, c) == Bases(RefsIn(es, c));
    BasesSnoc(RefsIn(es, c), t);
    forall c1 | c1 in order' ensures order'[c1] == Bases(RefsIn(es', c1)) {
      RefsInSnoc(es, (c, t), c1);
    }
  }

  lemma ListsDomainStep(order: map<string, seq<string>>, lists: map<(string, string), seq<TeamRef>>, c: string, b: string, t: TeamRef)
    requires ListsDomain(order, lists)
    ensures ListsDomain(order[c := AddKey(BasesAt(order, c), b)], lists[(c, b) := ListAt(lists, c, b) + [t]])
  {
  }

  lemma ListsStep(es: seq<(string, TeamRef)>, order: map<string, seq<string>>, lists: map<(string, string), seq<TeamRef>>,
                  c: string, t: TeamRef)
    requires OrderOf(es, order) && ListsOf(es, order, lists) && (c !in order ==> c !in CompsOf(es))
    ensures ListsOf(es + [(c, t)], order[c := AddKey(BasesAt(order, c), t.baseName)],
                    lists[(c, t.baseName) := ListAt(lists, c, t.baseName) + [t]])
  {
    var es' := es + [(c, t)];
    var b := t.baseName;
    var lists' := lists[(c, b) := ListAt(lists, c, b) + [t]];
    ListsDomainStep(order, lists, c, b, t);
    RefsInPresent(es, c);
    var refs := RefsIn(es, c);
    assert BasesAt(order, c) == Bases(refs);
    GroupOfPresent(refs, b);
    assert ListAt(lists, c, b) == GroupOf(refs, b);
    forall c1, b1 | (c1, b1) in lists' ensures lists'[(c1, b1)] == GroupOf(RefsIn(es', c1), b1) {
      RefsInSnoc(es, (c, t), c1);
      if c1 == c {
        GroupOfSnoc(refs, t, b1);
      }
    }
  }

  /** One `by_comp[comp_id][base_name].append(...)`. */
  lemma ByCompStep(es: seq<(string, TeamRef)>, comps: seq<string>, order: map<string, seq<string>>,
                   lists: map<(string, string), seq<TeamRef>>, c: string, t: TeamRef)
    requires ByCompOf(es, comps, order, lists)
    ensures ByCompOf(es + [(c, t)], AddKey(comps, c), order[c := AddKey(BasesAt(order, c), t.baseName)],
                     lists[(c, t.baseName) := ListAt(lists, c, t.baseName) + [t]])
  {
    CompsOfSnoc(es, (c, t));
    OrderStep(es, order, c, t);
    ListsStep(es, order, lists, c, t);
  }

  /** The loop over `teams.items()` that fills `by_comp`. */
  method GroupByComp(teams: BC.Catalog, key: string -> string)
    returns (comps: seq<string>, order: map<string, seq<string>>, lists: map<(string, string), seq<TeamRef>>)
    requires forall k :: k in teams.ids ==> k in teams.teams
    ensures ByCompOf(Entries(teams.ids, teams.teams, key), comps, order, lists)
  {
    comps, order, lists := [], map[], map[];
    var i := 0;
    while i < |teams.ids|
      invariant 0 <= i <= |teams.ids|
      invariant forall k :: k in teams.ids[..i] ==> k in teams.teams
      invariant ByCompOf(Entries(teams.ids[..i], teams.teams, key), comps, order, lists)
    {
      var id := teams.ids[i];
      var rec := teams.teams[id];
      assert teams.ids[..i + 1][..i] == teams.ids[..i];
      assert forall k :: k in teams.ids[..i + 1] ==> k in teams.teams;
      if rec.competitionId != "" && rec.name != "" {
        var c := rec.competitionId;
        var t := TeamRef(id, rec.name, key(rec.name));
        ByCompStep(Entries(teams.ids[..i], teams.teams, key), comps, order, lists, c, t);
        comps := AddKey(comps, c);
        lists := lists[(c, t.baseName) := ListAt(lists, c, t.baseName) + [t]];
        order := order[c := AddKey(BasesAt(order, c), t.baseName)];
      }
      i := i + 1;
    }
    assert teams.ids[..i] == teams.ids;
  }

  /** The inner loop of the extraction: the groups of one competition. */
  method EmitComp(c: string, bases: seq<string>, lists: map<(string, string), seq<TeamRef>>, ghost refs: seq<TeamRef>)
    returns (ds: seq<DupGroup>)
    requires forall b :: b in bases ==> (c, b) in lists && lists[(c, b)] == GroupOf(refs, b)
    ensures ds == CompDups(refs, bases)
  {
    ds := [];
    var j := 0;
    while j < |bases|
      invariant 0 <= j <= |bases|
      invariant ds == CompDups(refs, bases[..j])
    {
      assert bases[..j + 1][..j] == bases[..j];
      var b := bases[j];
      var g := lists[(c, b)];
      if |g| > 1 {
        ds := ds + [DupGroup(b, |g|, g, g[0].id, IdsOf(g[1..]))];
      }
      j := j + 1;
    }
    assert bases[..j] == bases;
  }

  /** The outer loop of the extraction: only competitions with a group are kept. */
  method EmitAll(comps: seq<string>, order: map<string, seq<string>>, lists: map<(string, string), seq<TeamRef>>,
                 ghost es: seq<(string, TeamRef)>)
    returns (r: seq<(string, seq<DupGroup>)>)
    requires ByCompOf(es, comps, order, lists)
    ensures r == AnalyzeOver(es, comps)
  {
    r := [];
    var i := 0;
    while i < |comps|
      invariant 0 <= i <= |comps|
      invariant r == AnalyzeOver(es, comps[..i])
    {
      r := EmitNext(r, comps, i, order, lists, es);
      i := i + 1;
    }
    TakeAll(comps);
  }

  /** One competition of the outer loop: its groups are appended when it has any. */
  method EmitNext(r0: seq<(string, seq<DupGroup>)>, comps: seq<string>, i: int, order: map<string, seq<string>>,
                  lists: map<(string, string), seq<TeamRef>>, ghost es: seq<(string, TeamRef)>)
    returns (r: seq<(string, seq<DupGroup>)>)
    requires ByCompOf(es, comps, order, lists) && 0 <= i < |comps| && r0 == AnalyzeOver(es, comps[..i])
    ensures r == AnalyzeOver(es, comps[..i + 1])
  {
    var c := comps[i];
    assert c in order;
    var ds := EmitComp(c, order[c], lists, RefsIn(es, c));
    AnalyzeOverStep(es, comps, i);
    r := r0;
    if |ds| > 0 {
      r := r0 + [(c, ds)];
    }
  }

  /** `analyze_duplicates_in_teams` over any grouping key. */
  method AnalyzeDuplicatesWith(teams: BC.Catalog, key: string -> string) returns (r: seq<(string, seq<DupGroup>)>)
    requires forall k :: k in teams.ids ==> k in teams.teams
    ensures r == AnalyzeWith(teams, key)
  {
    var comps, order, lists := GroupByComp(teams, key);
    r := EmitAll(comps, order, lists, Entries(teams.ids, teams.teams, key));
  }

  method AnalyzeDuplicatesLoop(teams: BC.Catalog) returns (r: seq<(string, seq<DupGroup>)>)
    requires forall k :: k in teams.ids ==> k in teams.teams
    ensures r == AnalyzeDuplicatesInTeams(teams)
  {
    r := AnalyzeDuplicatesWith(teams, BaseKey);
  }

  // ------------------------------------------------------------ analyze_match_data_usage

  /** The two fields of a match that the count reads. */
  datatype MatchTeams = MatchTeams(homeTeam: string, awayTeam: string)

  /**
   * One element met by `for match in matches`: a dictionary, whose two team
   * fields are read, or anything else, on which `match.get` raises. Iterating
   * a JSON object or string yields strings, so such a file is a sequence of
   * `Other` elements.
   */
  datatype Element = Dict(teams: MatchTeams) | Other

  /**
   * One entry of the matches directory: its name, whether it is a directory,
   * and its JSON files, `None` for a file that cannot be read, parsed or
   * iterated.
   */
  datatype DirEntry = DirEntry(name: string, isDir: bool, files: seq<Option<seq<Element>>>)

  /** `usage_stats[comp][name]`, 0 when absent. */
  function Lookup(stats: map<(string, string), nat>, c: string, n: string): nat
  {
    if (c, n) in stats then stats[(c, n)] else 0
  }

  /** How often `n` is a non-empty home or away team in `ms`. */
  function UsesIn(ms: seq<MatchTeams>, n: string): nat
  {
    if |ms| == 0 then 0
    else
      var m := ms[|ms| - 1];
      UsesIn(ms[..|ms| - 1], n) + (if m.homeTeam != "" && m.homeTeam == n then 1 else 0)
        + (if m.awayTeam != "" && m.awayTeam == n then 1 else 0)
  }

  /** The length of the leading run of dictionaries. */
  function DictRun(es: seq<Element>): (k: nat)
    ensures k <= |es|
  {
    if |es| == 0 || es[0].Other? then 0 else 1 + DictRun(es[1..])
  }

  function TeamsOf(es: seq<Element>): seq<MatchTeams>
    requires forall k :: 0 <= k < |es| ==> es[k].Dict?
  {
    seq(|es|, k requires 0 <= k < |es| => es[k].teams)
  }

  lemma {:induction false} DictRunAll(es: seq<Element>)
    ensures forall k :: 0 <= k < DictRun(es) ==> es[k].Dict?
  {
    if |es| > 0 && es[0].Dict? {
      DictRunAll(es[1..]);
      assert forall k :: 1 <= k < DictRun(es) ==> es[k] == es[1..][k - 1];
    }
  }

  /** The matches a file counts: those read before `match.get` first raises. */
  function Counted(es: seq<Element>): (r: seq<MatchTeams>)
    ensures |r| == DictRun(es) && forall k :: 0 <= k < |r| ==> es[k] == Dict(r[k])
  {
    DictRunAll(es);
    TeamsOf(es[..DictRun(es)])
  }

  /** The leading run ends at the first element that is not a dictionary, or at the end. */
  lemma {:induction false} DictRunAt(es: seq<Element>, i: nat)
    requires i <= |es| && (forall k :: 0 <= k < i ==> es[k].Dict?) && (i == |es| || es[i].Other?)
    ensures DictRun(es) == i
  {
    if i > 0 {
      assert forall k :: 0 <= k < i - 1 ==> es[1..][k] == es[k + 1];
      DictRunAt(es[1..], i - 1);
    }
  }

  /**
   * A file whose list holds a non-dictionary element keeps the counts of the
   * matches before it, and nothing after it is counted.
   */
  lemma CountedStopsAtOther(pre: seq<MatchTeams>, post: seq<Element>)
    ensures Counted(Dicts(pre) + [Other] + post) == pre
  {
    var es := Dicts(pre) + [Other] + post;
    DictRunAt(es, |pre|);
  }

  /** A list of dictionaries only is counted whole. */
  lemma CountedAllDicts(ms: seq<MatchTeams>)
    ensures Counted(Dicts(ms)) == ms
  {
    DictRunAt(Dicts(ms), |ms|);
  }

  function Dicts(ms: seq<MatchTeams>): (r: seq<Element>)
    ensures |r| == |ms| && forall k :: 0 <= k < |ms| ==> r[k] == Dict(ms[k])
  {
    seq(|ms|, k requires 0 <= k < |ms| => Dict(ms[k]))
  }

  function UsesInFiles(fs: seq<Option<seq<Element>>>, n: string): nat
  {
    if |fs| == 0 then 0
    else UsesInFiles(fs[..|fs| - 1], n) + (if fs[|fs| - 1].Some? then UsesIn(Counted(fs[|fs| - 1].value), n) else 0)
  }

  /** The uses of `n` in every readable file of every directory named `c`. */
  function Occurrences(dirs: seq<DirEntry>, c: string, n: string): nat
  {
    if |dirs| == 0 then 0
    else
      var d := dirs[|dirs| - 1];
      Occurrences(dirs[..|dirs| - 1], c, n) + (if d.isDir && d.name == c then UsesInFiles(d.files, n) else 0)
  }

  /** An empty team name is never counted. */
  lemma {:induction false} OccurrencesOfEmpty(dirs: seq<DirEntry>, c: string)
    ensures Occurrences(dirs, c, "") == 0
  {
    if |dirs| > 0 {
      OccurrencesOfEmpty(dirs[..|dirs| - 1], c);
      var d := dirs[|dirs| - 1];
      if d.isDir && d.name == c {
        UsesInFilesOfEmpty(d.files);
      }
    }
  }

  lemma {:induction false} UsesInFilesOfEmpty(fs: seq<Option<seq<Element>>>)
    ensures UsesInFiles(fs, "") == 0
  {
    if |fs| > 0 {
      UsesInFilesOfEmpty(fs[..|fs| - 1]);
      if fs[|fs| - 1].Some? {
        UsesInOfEmpty(Counted(fs[|fs| - 1].value));
      }
    }
  }

  lemma {:induction false} UsesInOfEmpty(ms: seq<MatchTeams>)
    ensures UsesIn(ms, "") == 0
  {
    if |ms| > 0 {
      UsesInOfEmpty(ms[..|ms| - 1]);
    }
  }

  /** `usage_stats[comp][name] += 1` */
  function Bump(stats: map<(string, string), nat>, c: string, n: string): (r: map<(string, string), nat>)
    ensures forall c1, n1 :: Lookup(r, c1, n1) == Lookup(stats, c1, n1) + (if c1 == c && n1 == n then 1 else 0)
  {
    stats[(c, n) := Lookup(stats, c, n) + 1]
  }

  /** How often `n` is the non-empty home or away team of `m`. */
  function MatchUses(m: MatchTeams, n: string): nat
  {
    (if m.homeTeam != "" && m.homeTeam == n then 1 else 0) + (if m.awayTeam != "" && m.awayTeam == n then 1 else 0)
  }

  lemma UsesInSnoc(ms: seq<MatchTeams>, m: MatchTeams)
    ensures forall n :: UsesIn(ms + [m], n) == UsesIn(ms, n) + MatchUses(m, n)
  {
    assert (ms + [m])[..|ms|] == ms;
  }

  /** The two increments of one match. */
  method CountMatch(stats0: map<(string, string), nat>, c: string, m: MatchTeams) returns (stats: map<(string, string), nat>)
    ensures forall c1, n :: Lookup(stats, c1, n) == Lookup(stats0, c1, n) + (if c1 == c then MatchUses(m, n) else 0)
  {
    stats := stats0;
    if m.homeTeam != "" {
      stats := Bump(stats, c, m.homeTeam);
    }
    if m.awayTeam != "" {
      stats := Bump(stats, c, m.awayTeam);
    }
  }

  /** When the loop stops, the matches it read are the counted ones. */
  lemma CountedIs(es: seq<Element>, ms: seq<MatchTeams>)
    requires |ms| <= |es| && (|ms| == |es| || es[|ms|].Other?)
    requires forall k :: 0 <= k < |ms| ==> es[k] == Dict(ms[k])
    ensures Counted(es) == ms
  {
    DictRunAt(es, |ms|);
  }

  /**
   * The loop over the elements of one file. It stops at the first element
   * that is not a dictionary, where `match.get` raises; the counts already
   * made stay, since the `except` is outside the loop.
   */
  method CountMatches(stats0: map<(string, string), nat>, c: string, es: seq<Element>) returns (stats: map<(string, string), nat>)
    ensures forall c1, n :: Lookup(stats, c1, n) == Lookup(stats0, c1, n) + (if c1 == c then UsesIn(Counted(es), n) else 0)
  {
    stats := stats0;
    var i := 0;
    ghost var ms: seq<MatchTeams> := [];
    assert forall n :: UsesIn(ms, n) == 0;
    while i < |es| && es[i].Dict?
      invariant 0 <= i <= |es| && |ms| == i
      invariant forall k :: 0 <= k < i ==> es[k] == Dict(ms[k])
      invariant forall c1, n :: Lookup(stats, c1, n) == Lookup(stats0, c1, n) + (if c1 == c then UsesIn(ms, n) else 0)
    {
      var m := es[i].teams;
      stats := CountMatch(stats, c, m);
      UsesInSnoc(ms, m);
      ms := ms + [m];
      i := i + 1;
    }
    CountedIs(es, ms);
  }

  /** The loop over the JSON files of one directory; a file that cannot be read adds nothing. */
  method CountFiles(stats0: map<(string, string), nat>, c: string, fs: seq<Option<seq<Element>>>)
    returns (stats: map<(string, string), nat>)
    ensures forall c1, n :: Lookup(stats, c1, n) == Lookup(stats0, c1, n) + (if c1 == c then UsesInFiles(fs, n) else 0)
  {
    stats := stats0;
    var i := 0;
    assert forall n :: UsesInFiles(fs[..0], n) == 0;
    while i < |fs|
      invariant 0 <= i <= |fs|
      invariant forall c1, n :: Lookup(stats, c1, n) == Lookup(stats0, c1, n) + (if c1 == c then UsesInFiles(fs[..i], n) else 0)
    {
      assert fs[..i + 1][..i] == fs[..i];
      if fs[i].Some? {
        stats := CountMatches(stats, c, fs[i].value);
      }
      i := i + 1;
    }
    assert fs[..i] == fs;
  }

  /** `analyze_match_data_usage`: every count is the number of uses of that name under that directory. */
  method AnalyzeMatchDataUsage(dirs: seq<DirEntry>) returns (stats: map<(string, string), nat>)
    ensures forall c, n :: Lookup(stats, c, n) == Occurrences(dirs, c, n)
  {
    stats := map[];
    var i := 0;
    while i < |dirs|
      invariant 0 <= i <= |dirs|
      invariant forall c, n :: Lookup(stats, c, n) == Occurrences(dirs[..i], c, n)
    {
      assert dirs[..i + 1][..i] == dirs[..i];
      var d := dirs[i];
      if d.isDir {
        stats := CountFiles(stats, d.name, d.files);
      }
      i := i + 1;
    }
    assert dirs[..i] == dirs;
  }

  // ------------------------------------------------------------ generate_merge_plan

  datatype PlanTeam = PlanTeam(id: string, name: string, usageCount: nat)

  datatype MergePlan = MergePlan(competitionId: string, baseName: string, primaryTeam: PlanTeam,
                                 mergeTargets: seq<PlanTeam>, nameMappings: map<string, string>)

  /** The teams of a group with their `usage_count` looked up. */
  function WithUsage(ts: seq<TeamRef>, stats: map<(string, string), nat>, c: string): seq<PlanTeam>
  {
    seq(|ts|, i requires 0 <= i < |ts| => PlanTeam(ts[i].id, ts[i].name, Lookup(stats, c, ts[i].name)))
  }

  /** The order of `sort(key=usage_count, reverse=True)`. */
  predicate UsageGe(a: PlanTeam, b: PlanTeam)
  {
    a.usageCount >= b.usageCount
  }

  function NamesOf(ts: seq<PlanTeam>): seq<string>
  {
    seq(|ts|, i requires 0 <= i < |ts| => ts[i].name)
  }

  /** The plan of one group: most used first, every name mapped to its name. */
  function PlanFor(c: string, d: DupGroup, stats: map<(string, string), nat>): MergePlan
    requires |d.teams| > 0
  {
    var sorted := SortBy(WithUsage(d.teams, stats, c), UsageGe);
    MergePlan(c, d.baseName, sorted[0], sorted[1..], map n | n in NamesOf(sorted) :: sorted[0].name)
  }

  ghost predicate NonEmptyGroups(dups: seq<(string, seq<DupGroup>)>)
  {
    forall i, j :: 0 <= i < |dups| && 0 <= j < |dups[i].1| ==> |dups[i].1[j].teams| > 0
  }

  function PlansOf(c: string, ds: seq<DupGroup>, stats: map<(string, string), nat>): seq<MergePlan>
    requires forall j :: 0 <= j < |ds| ==> |ds[j].teams| > 0
  {
    if |ds| == 0 then [] else PlansOf(c, ds[..|ds| - 1], stats) + [PlanFor(c, ds[|ds| - 1], stats)]
  }

  /** `generate_merge_plan`: it indexes `teams[0]`, so every group must be non-empty. */
  function GenerateMergePlan(dups: seq<(string, seq<DupGroup>)>, stats: map<(string, string), nat>): seq<MergePlan>
    requires NonEmptyGroups(dups)
  {
    if |dups| == 0 then []
    else
      var p := dups[|dups| - 1];
      assert forall j :: 0 <= j < |p.1| ==> |p.1[j].teams| > 0;
      GenerateMergePlan(dups[..|dups| - 1], stats) + PlansOf(p.0, p.1, stats)
  }

  lemma UsageGeTotal()
    ensures TotalPreorder(UsageGe)
  {
  }

  /** The plan's teams, primary first: the group sorted by descending usage. */
  function PlanTeams(p: MergePlan): seq<PlanTeam>
  {
    [p.primaryTeam] + p.mergeTargets
  }

  lemma PlanSorted(c: string, d: DupGroup, stats: map<(string, string), nat>)
    requires |d.teams| > 0
    ensures var p := PlanFor(c, d, stats); var u := WithUsage(d.teams, stats, c);
      PlanTeams(p) == SortBy(u, UsageGe)
      && (forall k :: 0 <= k < |p.mergeTargets| ==> p.primaryTeam.usageCount >= p.mergeTargets[k].usageCount)
      && multiset(PlanTeams(p)) == multiset(u)
  {
    var u := WithUsage(d.teams, stats, c);
    var sorted := SortBy(u, UsageGe);
    var p := PlanFor(c, d, stats);
    assert PlanTeams(p) == sorted;
    UsageGeTotal();
    SortBySorted(u, UsageGe);
    SortByPerm(u, UsageGe);
    forall k | 0 <= k < |p.mergeTargets| ensures p.primaryTeam.usageCount >= p.mergeTargets[k].usageCount {
      assert p.mergeTargets[k] == sorted[k + 1];
    }
  }

  /** Among teams of equal usage the plan keeps the group's order (the sort is stable). */
  lemma PlanStable(c: string, d: DupGroup, stats: map<(string, string), nat>, x: PlanTeam)
    requires |d.teams| > 0
    ensures Class(PlanTeams(PlanFor(c, d, stats)), x, UsageGe) == Class(WithUsage(d.teams, stats, c), x, UsageGe)
  {
    PlanSorted(c, d, stats);
    UsageGeTotal();
    SortByStable(WithUsage(d.teams, stats, c), x, UsageGe);
  }

  /** Every usage count in the plan is the stats lookup of that name, 0 when absent. */
  lemma PlanUsage(c: string, d: DupGroup, stats: map<(string, string), nat>)
    requires |d.teams| > 0
    ensures forall t :: t in PlanTeams(PlanFor(c, d, stats)) ==> t.usageCount == Lookup(stats, c, t.name)
  {
    PlanSorted(c, d, stats);
    var u := WithUsage(d.teams, stats, c);
    forall t | t in PlanTeams(PlanFor(c, d, stats)) ensures t.usageCount == Lookup(stats, c, t.name) {
      assert t in multiset(u);
    }
  }

  /** `name_mappings` maps exactly the group's names, the primary's included, to the primary's name. */
  lemma PlanNames(c: string, d: DupGroup, stats: map<(string, string), nat>)
    requires |d.teams| > 0
    ensures var p := PlanFor(c, d, stats);
      (forall n :: n in p.nameMappings <==> exists t :: t in d.teams && t.name == n)
      && (forall n :: n in p.nameMappings ==> p.nameMappings[n] == p.primaryTeam.name)
  {
    PlanSorted(c, d, stats);
    var u := WithUsage(d.teams, stats, c);
    var sorted := SortBy(u, UsageGe);
    var p := PlanFor(c, d, stats);
    forall n ensures n in p.nameMappings <==> exists t :: t in d.teams && t.name == n {
      if n in p.nameMappings {
        var k :| 0 <= k < |sorted| && NamesOf(sorted)[k] == n;
        assert sorted[k] in multiset(u);
        var i :| 0 <= i < |u| && u[i] == sorted[k];
        assert d.teams[i] in d.teams;
      }
      if t :| t in d.teams && t.name == n {
        var i :| 0 <= i < |d.teams| && d.teams[i] == t;
        assert u[i] in multiset(sorted);
        var k :| 0 <= k < |sorted| && sorted[k] == u[i];
        assert NamesOf(sorted)[k] == n;
      }
    }
  }

  /** The plan of a reported group has at least one merge target. */
  lemma PlanOfReportedGroup(c: string, d: DupGroup, refs: seq<TeamRef>, stats: map<(string, string), nat>)
    requires GroupOfRefs(d, refs)
    ensures |PlanFor(c, d, stats).mergeTargets| == d.count - 1 >= 1
  {
  }

  /** The loop of src/validators/team_validator.py:137-139 over the teams of one group. */
  method UsageCounts(ts: seq<TeamRef>, stats: map<(string, string), nat>, c: string) returns (r: seq<PlanTeam>)
    ensures r == WithUsage(ts, stats, c)
  {
    r := [];
    var i := 0;
    while i < |ts|
      invariant 0 <= i <= |ts|
      invariant |r| == i && forall k :: 0 <= k < i ==> r[k] == PlanTeam(ts[k].id, ts[k].name, Lookup(stats, c, ts[k].name))
    {
      r := r + [PlanTeam(ts[i].id, ts[i].name, Lookup(stats, c, ts[i].name))];
      i := i + 1;
    }
  }

  /** The groups of one competition. */
  method PlansLoop(c: string, ds: seq<DupGroup>, stats: map<(string, string), nat>) returns (plans: seq<MergePlan>)
    requires forall j :: 0 <= j < |ds| ==> |ds[j].teams| > 0
    ensures plans == PlansOf(c, ds, stats)
  {
    plans := [];
    var j := 0;
    while j < |ds|
      invariant 0 <= j <= |ds|
      invariant plans == PlansOf(c, ds[..j], stats)
    {
      var plan := GroupPlan(c, ds[j], stats);
      PlansOfStep(c, ds, stats, j);
      plans := plans + [plan];
      j := j + 1;
    }
    TakeAll(ds);
  }

  /** The plan of one group: the most used team first, every other team merged into it. */
  method GroupPlan(c: string, d: DupGroup, stats: map<(string, string), nat>) returns (plan: MergePlan)
    requires |d.teams| > 0
    ensures plan == PlanFor(c, d, stats)
  {
    var teams := UsageCounts(d.teams, stats, c);
    teams := SortBy(teams, UsageGe);
    var primary := teams[0];
    plan := MergePlan(c, d.baseName, primary, teams[1..], map n | n in NamesOf(teams) :: primary.name);
  }

  lemma PlansOfStep(c: string, ds: seq<DupGroup>, stats: map<(string, string), nat>, j: int)
    requires forall k :: 0 <= k < |ds| ==> |ds[k].teams| > 0
    requires 0 <= j < |ds|
    ensures PlansOf(c, ds[..j + 1], stats) == PlansOf(c, ds[..j], stats) + [PlanFor(c, ds[j], stats)]
  {
    assert ds[..j + 1][..j] == ds[..j];
  }

  method GenerateMergePlanLoop(dups: seq<(string, seq<DupGroup>)>, stats: map<(string, string), nat>) returns (plans: seq<MergePlan>)
    requires NonEmptyGroups(dups)
    ensures plans == GenerateMergePlan(dups, stats)
  {
    plans := [];
    var i := 0;
    while i < |dups|
      invariant 0 <= i <= |dups|
      invariant plans == GenerateMergePlan(dups[..i], stats)
    {
      assert dups[..i + 1][..i] == dups[..i];
      assert forall j :: 0 <= j < |dups[i].1| ==> |dups[i].1[j].teams| > 0;
      var more := PlansLoop(dups[i].0, dups[i].1, stats);
      plans := plans + more;
      i := i + 1;
    }
    assert dups[..i] == dups;
  }

  /** Every group the analysis reports is non-empty, so the merge plan can be generated from it. */
  lemma AnalysisFeedsPlan(teams: BC.Catalog)
    requires forall k :: k in teams.ids ==> k in teams.teams
    ensures NonEmptyGroups(AnalyzeDuplicatesInTeams(teams))
  {
    AnalyzeSound(teams);
    var r := AnalyzeDuplicatesInTeams(teams);
    forall i, j | 0 <= i < |r| && 0 <= j < |r[i].1| ensures |r[i].1[j].teams| > 0 {
      assert r[i] in r;
      assert r[i].1[j] in r[i].1;
    }
  }
}
