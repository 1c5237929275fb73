/**
 * `generate_team_master` of `src/services/team_service.py`: the catalog is
 * rebuilt from the team names of each competition. A name that matches an
 * existing record keeps that record (only its logos may change); international
 * teams are keyed by their hyphenated national id; a new club gets the id
 * `{comp}_{n}` with n one more than the largest number already used for that
 * prefix.
 */
module TeamServiceMaster {
  import opened Text
  import opened Sorting
  import BC = BaseCatalog
  import opened TeamService

  // ------------------------------------------------------------ index of the existing catalog

  /** A record the index keeps: it has a name and a competition. */
  predicate Indexed(rec: BC.TeamRecord) { rec.name != "" && rec.competitionId != "" }

  /** `existing_by_name` (competition and normalised name to id) and `existing_by_id`. */
  datatype Index = Index(byName: map<(string, string), string>, byId: map<string, BC.TeamRecord>)

  /** Every name key leads to an indexed id. */
  predicate ValidIndex(ix: Index)
  {
    forall key :: key in ix.byName ==> ix.byName[key] in ix.byId
  }

  /** `r` indexes exactly the indexed records of `ids`, each name key leading to a record with that key. */
  ghost predicate IndexOf(r: Index, ids: seq<string>, teams: map<string, BC.TeamRecord>, norm: string -> string)
    requires forall k :: k in ids ==> k in teams
  {
    (forall id :: id in r.byId <==> id in ids && Indexed(teams[id]))
    && (forall id :: id in r.byId ==> r.byId[id] == teams[id])
    && (forall id :: id in r.byId ==> (r.byId[id].competitionId, norm(r.byId[id].name)) in r.byName)
    && (forall key :: key in r.byName ==>
         (r.byName[key] in r.byId && key == (r.byId[r.byName[key]].competitionId, norm(r.byId[r.byName[key]].name))))
  }

  /** The index over `ids` in dict order, a later record overwriting an earlier one with the same key. */
  function IndexWith(ids: seq<string>, teams: map<string, BC.TeamRecord>, norm: string -> string): (r: Index)
    requires forall k :: k in ids ==> k in teams
    ensures IndexOf(r, ids, teams, norm)
  {
    if |ids| == 0 then Index(map[], map[])
    else
      var init := ids[..|ids| - 1];
      var id := ids[|ids| - 1];
      IndexAddSpec(IndexWith(init, teams, norm), init, ids, teams, norm);
      IndexAdd(IndexWith(init, teams, norm), id, teams[id], norm)
  }

  /** One record of the indexing loop: an indexed record overwrites both maps at its keys. */
  function IndexAdd(ix: Index, id: string, rec: BC.TeamRecord, norm: string -> string): Index
  {
    if Indexed(rec) then Index(ix.byName[(rec.competitionId, norm(rec.name)) := id], ix.byId[id := rec]) else ix
  }

  lemma IndexAddSpec(ix: Index, init: seq<string>, ids: seq<string>, teams: map<string, BC.TeamRecord>, norm: string -> string)
    requires forall k :: k in ids ==> k in teams
    requires |ids| > 0 && init == ids[..|ids| - 1]
    ensures forall k :: k in init ==> k in teams
    ensures IndexOf(ix, init, teams, norm) ==> IndexOf(IndexAdd(ix, ids[|ids| - 1], teams[ids[|ids| - 1]], norm), ids, teams, norm)
  {
    SnocMembers(ids);
    if IndexOf(ix, init, teams, norm) {
      var id := ids[|ids| - 1];
      if Indexed(teams[id]) {
        IndexPut(ix, init, ids, teams, norm, id);
      } else {
        IndexSkip(ix, init, ids, teams, norm, id);
      }
    }
  }

  lemma IndexSkip(ix: Index, init: seq<string>, ids: seq<string>, teams: map<string, BC.TeamRecord>, norm: string -> string, id: string)
    requires forall k :: k in ids ==> k in teams
    requires forall k :: k in ids <==> k in init || k == id
    requires forall k :: k in init ==> k in teams
    requires id in teams && !Indexed(teams[id]) && IndexOf(ix, init, teams, norm)
    ensures IndexOf(ix, ids, teams, norm)
  {
  }

  lemma IndexPut(ix: Index, init: seq<string>, ids: seq<string>, teams: map<string, BC.TeamRecord>, norm: string -> string, id: string)
    requires forall k :: k in ids ==> k in teams
    requires forall k :: k in ids <==> k in init || k == id
    requires forall k :: k in init ==> k in teams
    requires id in teams && Indexed(teams[id]) && IndexOf(ix, init, teams, norm)
    ensures IndexOf(IndexAdd(ix, id, teams[id], norm), ids, teams, norm)
  {
  }

  lemma IndexWithStep(ids: seq<string>, teams: map<string, BC.TeamRecord>, norm: string -> string, i: int)
    requires forall k :: k in ids ==> k in teams
    requires 0 <= i < |ids|
    ensures forall k :: k in ids[..i] ==> k in teams
    ensures IndexWith(ids[..i + 1], teams, norm) == IndexAdd(IndexWith(ids[..i], teams, norm), ids[i], teams[ids[i]], norm)
  {
    assert ids[..i + 1][..i] == ids[..i];
  }

  /** The index `generate_team_master` builds from `existing_teams`. */
  function IndexExisting(existing: BC.Catalog): (r: Index)
    requires forall k :: k in existing.ids ==> k in existing.teams
    ensures ValidIndex(r)
  {
    IndexWith(existing.ids, existing.teams, NormalizeTeamName)
  }

  // ------------------------------------------------------------ club numbers

  /** The position of the last `_` of `s`. */
  function LastUnderscore(s: string): (i: nat)
    requires '_' in s
    ensures i < |s| && s[i] == '_' && '_' !in s[i + 1..]
  {
    if s[|s| - 1] == '_' then |s| - 1
    else
      assert s == s[..|s| - 1] + [s[|s| - 1]];
      var i := LastUnderscore(s[..|s| - 1]);
      assert s[i + 1..] == s[..|s| - 1][i + 1..] + [s[|s| - 1]];
      i
  }

  /** `team_id.rsplit("_", 1)` and `int(num_str)`: the prefix and the number, or None. */
  function ClubNumber(id: string): Option<(string, int)>
  {
    if '_' in id then
      var i := LastUnderscore(id);
      match ParseInt(id[i + 1..])
      case Some(n) => Some((id[..i], n))
      case None => None
    else None
  }

  /** `max_id_by_comp[p]` of a `defaultdict(int)`. */
  function MaxGet(m: map<string, nat>, p: string): nat
  {
    if p in m then m[p] else 0
  }

  /** `max_id_by_comp`: per prefix, the largest number of an existing id (never below 0). */
  function MaxIds(ids: seq<string>): (r: map<string, nat>)
    ensures forall id :: id in ids && ClubNumber(id).Some? ==> ClubNumber(id).value.1 <= MaxGet(r, ClubNumber(id).value.0)
  {
    if |ids| == 0 then map[]
    else
      var init := ids[..|ids| - 1];
      var m := MaxIds(init);
      assert forall id :: id in ids ==> id in init || id == ids[|ids| - 1];
      MaxAdd(m, ids[|ids| - 1])
  }

  /** One id of the counting loop: a parsed club id raises its prefix's maximum. */
  function MaxAdd(m: map<string, nat>, id: string): map<string, nat>
  {
    var parsed := ClubNumber(id);
    if parsed.Some? then RaiseMax(m, parsed.value.0, parsed.value.1) else m
  }

  lemma MaxIdsStep(ids: seq<string>, i: int)
    requires 0 <= i < |ids|
    ensures MaxIds(ids[..i + 1]) == MaxAdd(MaxIds(ids[..i]), ids[i])
  {
    assert ids[..i + 1][..i] == ids[..i];
  }

  /** `max_id_by_comp[p] = max(max_id_by_comp[p], n)` */
  function RaiseMax(m: map<string, nat>, p: string, n: int): (r: map<string, nat>)
    ensures MaxGet(r, p) >= n && MaxGet(r, p) >= MaxGet(m, p)
    ensures forall q :: q != p ==> MaxGet(r, q) == MaxGet(m, q)
  {
    m[p := if n > MaxGet(m, p) then n else MaxGet(m, p)]
  }

  /** `f"{comp_id}_{n}"` */
  function ClubId(comp: string, n: nat): string
  {
    comp + "_" + NatToString(n)
  }

  /** A club id reads back as its prefix and number. */
  lemma ClubNumberOfClubId(comp: string, n: nat)
    ensures ClubNumber(ClubId(comp, n)) == Some((comp, n))
  {
    var s := ClubId(comp, n);
    var d := NatToString(n);
    assert s[|comp|] == '_';
    var i := LastUnderscore(s);
    assert s[i + 1..] == d && s[..i] == comp;
    ParseIntOfString(n);
    assert IntToString(n) == d;
  }

  /** A new club number above the existing maximum gives an id the existing catalog does not have. */
  lemma ClubIdFresh(ids: seq<string>, comp: string, n: nat)
    requires n > MaxGet(MaxIds(ids), comp)
    ensures ClubId(comp, n) !in ids
  {
    ClubNumberOfClubId(comp, n);
  }

  // ------------------------------------------------------------ records

  /** `(official_logos_by_comp or {}).get(comp_id, {}).get(team_name)`, absent entries read as `{}`. */
  function OfficialOf(logos: map<string, map<string, map<string, string>>>, comp: string, name: string): map<string, string>
  {
    if comp in logos && name in logos[comp] then logos[comp][name] else map[]
  }

  /** `official.get("badge_url", official.get("logo_url", ""))` */
  function OfficialBadge(o: map<string, string>): string
  {
    if "badge_url" in o then o["badge_url"] else BC.Get(o, "logo_url")
  }

  /** `b` is `a` with at most the logo and badge changed. */
  predicate SameButLogos(a: BC.TeamRecord, b: BC.TeamRecord)
  {
    a.(logoUrl := b.logoUrl, badgeUrl := b.badgeUrl) == b
  }

  /** A kept record: the official logos replace the stored ones only when the official logo is non-empty. */
  function WithOfficial(rec: BC.TeamRecord, o: map<string, string>): (r: BC.TeamRecord)
    ensures SameButLogos(rec, r)
    ensures BC.Get(o, "logo_url") == "" ==> r == rec
    ensures BC.Get(o, "logo_url") != "" ==> r.logoUrl == BC.Get(o, "logo_url") && r.badgeUrl == OfficialBadge(o)
  {
    if BC.Get(o, "logo_url") != "" then rec.(logoUrl := BC.Get(o, "logo_url"), badgeUrl := OfficialBadge(o)) else rec
  }

  /** The record of a new team. */
  function NewTeam(id: string, comp: string, name: string, o: map<string, string>): BC.TeamRecord
  {
    BC.TeamRecord(id, comp, name, "", name, "", "", BC.Get(o, "logo_url"), OfficialBadge(o))
  }

  // ------------------------------------------------------------ the regeneration

  /** `new_teams`, `max_id_by_comp`, `added_count` and `preserved_count`. */
  datatype MasterState = MasterState(teams: BC.Catalog, maxIds: map<string, nat>, added: nat, preserved: nat)

  /**
   * One team name of competition `comp`; `nid` and `key` stand for its
   * national id and its normalised name.
   */
  function MasterStep(st: MasterState, ix: Index, comp: string, name: string, o: map<string, string>, nid: string, key: string): MasterState
    requires ValidIndex(ix)
  {
    if comp in InternationalCompetitions then
      if nid == "" then st
      else if nid in ix.byId then
        MasterState(BC.Put(st.teams, nid, WithOfficial(ix.byId[nid], o)), st.maxIds, st.added, st.preserved + 1)
      else
        MasterState(BC.Put(st.teams, nid, NewTeam(nid, comp, name, o)), st.maxIds, st.added + 1, st.preserved)
    else if (comp, key) in ix.byName then
      var tid := ix.byName[(comp, key)];
      MasterState(BC.Put(st.teams, tid, WithOfficial(ix.byId[tid], o)), st.maxIds, st.added, st.preserved + 1)
    else
      var n := MaxGet(st.maxIds, comp) + 1;
      var tid := ClubId(comp, n);
      MasterState(BC.Put(st.teams, tid, NewTeam(tid, comp, name, o)), st.maxIds[comp := n], st.added + 1, st.preserved)
  }

  /** The inner loop over the names of one competition. */
  function ProcessNames(st: MasterState, ix: Index, logos: map<string, map<string, map<string, string>>>, comp: string, names: seq<string>,
                        nidOf: (string, string) -> string, norm: string -> string): MasterState
    requires ValidIndex(ix)
  {
    if |names| == 0 then st
    else
      var name := names[|names| - 1];
      MasterStep(ProcessNames(st, ix, logos, comp, names[..|names| - 1], nidOf, norm), ix, comp, name,
                 OfficialOf(logos, comp, name), nidOf(name, comp), norm(name))
  }

  /** The outer loop over the competitions. */
  function ProcessComps(st: MasterState, ix: Index, logos: map<string, map<string, map<string, string>>>, items: seq<(string, seq<string>)>,
                        nidOf: (string, string) -> string, norm: string -> string): MasterState
    requires ValidIndex(ix)
  {
    if |items| == 0 then st
    else
      var last := items[|items| - 1];
      ProcessNames(ProcessComps(st, ix, logos, items[..|items| - 1], nidOf, norm), ix, logos, last.0, last.1, nidOf, norm)
  }

  /** `sorted(teams_by_comp.items())`: the competition ids of a dict are distinct, so they alone decide the order. */
  predicate CompLe(a: (string, seq<string>), b: (string, seq<string>))
  {
    StrLe(a.0, b.0)
  }

  /** The state at the start of the competition loop. */
  function StartState(existing: BC.Catalog): MasterState
  {
    MasterState(BC.Catalog([], map[]), MaxIds(existing.ids), 0, 0)
  }

  /** `generate_team_master(teams_by_comp, existing_teams, official_logos_by_comp=logos)` */
  function GenerateTeamMaster(items: seq<(string, seq<string>)>, existing: BC.Catalog,
                              logos: map<string, map<string, map<string, string>>>): MasterState
    requires forall k :: k in existing.ids ==> k in existing.teams
  {
    ProcessComps(StartState(existing), IndexExisting(existing), logos, SortBy(items, CompLe), GenerateNationalTeamId, NormalizeTeamName)
  }

  // ------------------------------------------------------------ what the regeneration keeps

  /** `id` was indexed and its record keeps everything but, possibly, the logos. */
  ghost predicate Kept(ix: Index, id: string, r: BC.TeamRecord)
  {
    id in ix.byId && SameButLogos(ix.byId[id], r)
  }

  /**
   * `id` is a new team's: a fresh record whose id is its national id, or a
   * club id, absent from the existing catalog, numbered above every number
   * the existing catalog used for that competition.
   */
  ghost predicate Minted(ix: Index, ids0: seq<string>, id: string, r: BC.TeamRecord, nidOf: (string, string) -> string)
  {
    id !in ix.byId && r.id == id && r.nameJa == "" && r.shortName == r.name && r.country == "" && r.division == ""
    && if r.competitionId in InternationalCompetitions then id == nidOf(r.name, r.competitionId)
       else id !in ids0 && exists n: nat :: MaxGet(MaxIds(ids0), r.competitionId) < n && id == ClubId(r.competitionId, n)
  }

  /** The index only holds ids of the existing catalog. */
  predicate IndexOver(ix: Index, ids0: seq<string>)
  {
    ValidIndex(ix) && forall id :: id in ix.byId ==> id in ids0
  }

  ghost predicate MasterInv(st: MasterState, ix: Index, ids0: seq<string>, nidOf: (string, string) -> string)
  {
    BC.WellFormed(st.teams)
    && (forall id :: id in st.teams.teams ==>
          Kept(ix, id, st.teams.teams[id]) || Minted(ix, ids0, id, st.teams.teams[id], nidOf))
    && (forall p :: MaxGet(MaxIds(ids0), p) <= MaxGet(st.maxIds, p))
  }

  lemma PutWellFormed(c: BC.Catalog, id: string, rec: BC.TeamRecord)
    requires BC.WellFormed(c)
    ensures BC.WellFormed(BC.Put(c, id, rec)) && BC.Put(c, id, rec).teams == c.teams[id := rec]
  {
    if id !in c.teams {
      BC.PutNew(c, id, rec);
    }
  }

  /** Storing a kept or minted record keeps the invariant under counter `m`. */
  lemma PutInv(st: MasterState, ix: Index, ids0: seq<string>, m: map<string, nat>, tid: string, rec: BC.TeamRecord,
               added: nat, preserved: nat, nidOf: (string, string) -> string)
    requires MasterInv(st, ix, ids0, nidOf)
    requires forall p :: MaxGet(st.maxIds, p) <= MaxGet(m, p)
    requires Kept(ix, tid, rec) || Minted(ix, ids0, tid, rec, nidOf)
    ensures MasterInv(MasterState(BC.Put(st.teams, tid, rec), m, added, preserved), ix, ids0, nidOf)
  {
    PutWellFormed(st.teams, tid, rec);
  }

  /** A club record numbered above every existing number of its competition is minted. */
  lemma MintedClub(ix: Index, ids0: seq<string>, comp: string, name: string, o: map<string, string>,
                   nidOf: (string, string) -> string, n: nat)
    requires IndexOver(ix, ids0) && comp !in InternationalCompetitions && MaxGet(MaxIds(ids0), comp) < n
    ensures Minted(ix, ids0, ClubId(comp, n), NewTeam(ClubId(comp, n), comp, name, o), nidOf)
  {
    ClubIdFresh(ids0, comp, n);
  }

  /** Raising one counter lowers none. */
  lemma RaiseCounter(m: map<string, nat>, comp: string, n: nat)
    requires MaxGet(m, comp) <= n
    ensures forall p :: MaxGet(m, p) <= MaxGet(m[comp := n], p)
  {
  }

  /** A new club record numbered one above the counter. */
  lemma MintInv(st: MasterState, ix: Index, ids0: seq<string>, comp: string, name: string, o: map<string, string>,
                nidOf: (string, string) -> string)
    requires IndexOver(ix, ids0) && MasterInv(st, ix, ids0, nidOf) && comp !in InternationalCompetitions
    ensures var n := MaxGet(st.maxIds, comp) + 1;
      var tid := ClubId(comp, n);
      MasterInv(MasterState(BC.Put(st.teams, tid, NewTeam(tid, comp, name, o)), st.maxIds[comp := n], st.added + 1, st.preserved), ix, ids0, nidOf)
  {
    var n := MaxGet(st.maxIds, comp) + 1;
    assert MaxGet(MaxIds(ids0), comp) <= MaxGet(st.maxIds, comp);
    MintedClub(ix, ids0, comp, name, o, nidOf, n);
    RaiseCounter(st.maxIds, comp, n);
    PutInv(st, ix, ids0, st.maxIds[comp := n], ClubId(comp, n), NewTeam(ClubId(comp, n), comp, name, o), st.added + 1, st.preserved, nidOf);
  }

  /** A domestic name not indexed under its normalised form mints a club. */
  lemma MintStepInv(st: MasterState, ix: Index, ids0: seq<string>, comp: string, name: string, o: map<string, string>,
                    nidOf: (string, string) -> string, nid: string, key: string)
    requires IndexOver(ix, ids0) && MasterInv(st, ix, ids0, nidOf)
    requires comp !in InternationalCompetitions && (comp, key) !in ix.byName
    ensures MasterInv(MasterStep(st, ix, comp, name, o, nid, key), ix, ids0, nidOf)
  {
    var n := MaxGet(st.maxIds, comp) + 1;
    var tid := ClubId(comp, n);
    assert MasterStep(st, ix, comp, name, o, nid, key)
        == MasterState(BC.Put(st.teams, tid, NewTeam(tid, comp, name, o)), st.maxIds[comp := n], st.added + 1, st.preserved);
    MintInv(st, ix, ids0, comp, name, o, nidOf);
  }

  /** An international name: its national id keeps an indexed record or mints a fresh one. */
  lemma NationalStepInv(st: MasterState, ix: Index, ids0: seq<string>, comp: string, name: string, o: map<string, string>,
                        nidOf: (string, string) -> string, nid: string, key: string)
    requires IndexOver(ix, ids0) && MasterInv(st, ix, ids0, nidOf) && comp in InternationalCompetitions
    requires nid == nidOf(name, comp)
    ensures MasterInv(MasterStep(st, ix, comp, name, o, nid, key), ix, ids0, nidOf)
  {
    if nid != "" {
      if nid in ix.byId {
        PutInv(st, ix, ids0, st.maxIds, nid, WithOfficial(ix.byId[nid], o), st.added, st.preserved + 1, nidOf);
      } else {
        PutInv(st, ix, ids0, st.maxIds, nid, NewTeam(nid, comp, name, o), st.added + 1, st.preserved, nidOf);
      }
    }
  }

  /** A domestic name already indexed under its normalised form keeps that record. */
  lemma KeptStepInv(st: MasterState, ix: Index, ids0: seq<string>, comp: string, name: string, o: map<string, string>,
                    nidOf: (string, string) -> string, nid: string, key: string)
    requires IndexOver(ix, ids0) && MasterInv(st, ix, ids0, nidOf)
    requires comp !in InternationalCompetitions && (comp, key) in ix.byName
    ensures MasterInv(MasterStep(st, ix, comp, name, o, nid, key), ix, ids0, nidOf)
  {
    var tid := ix.byName[(comp, key)];
    PutInv(st, ix, ids0, st.maxIds, tid, WithOfficial(ix.byId[tid], o), st.added, st.preserved + 1, nidOf);
  }

  /** One step keeps the invariant. */
  lemma StepInv(st: MasterState, ix: Index, ids0: seq<string>, comp: string, name: string, o: map<string, string>,
                nidOf: (string, string) -> string, norm: string -> string)
    requires IndexOver(ix, ids0) && MasterInv(st, ix, ids0, nidOf)
    ensures MasterInv(MasterStep(st, ix, comp, name, o, nidOf(name, comp), norm(name)), ix, ids0, nidOf)
  {
    var nid := nidOf(name, comp);
    var key := norm(name);
    if comp in InternationalCompetitions {
      NationalStepInv(st, ix, ids0, comp, name, o, nidOf, nid, key);
    } else if (comp, key) in ix.byName {
      KeptStepInv(st, ix, ids0, comp, name, o, nidOf, nid, key);
    } else {
      MintStepInv(st, ix, ids0, comp, name, o, nidOf, nid, key);
    }
  }

  lemma {:induction false} NamesInv(st: MasterState, ix: Index, ids0: seq<string>, logos: map<string, map<string, map<string, string>>>,
                                    comp: string, names: seq<string>, nidOf: (string, string) -> string, norm: string -> string)
    requires IndexOver(ix, ids0) && MasterInv(st, ix, ids0, nidOf)
    ensures MasterInv(ProcessNames(st, ix, logos, comp, names, nidOf, norm), ix, ids0, nidOf)
  {
    if |names| > 0 {
      var name := names[|names| - 1];
      NamesInv(st, ix, ids0, logos, comp, names[..|names| - 1], nidOf, norm);
      StepInv(ProcessNames(st, ix, logos, comp, names[..|names| - 1], nidOf, norm), ix, ids0, comp, name,
              OfficialOf(logos, comp, name), nidOf, norm);
    }
  }

  lemma {:induction false} CompsInv(st: MasterState, ix: Index, ids0: seq<string>, logos: map<string, map<string, map<string, string>>>,
                                    items: seq<(string, seq<string>)>, nidOf: (string, string) -> string, norm: string -> string)
    requires IndexOver(ix, ids0) && MasterInv(st, ix, ids0, nidOf)
    ensures MasterInv(ProcessComps(st, ix, logos, items, nidOf, norm), ix, ids0, nidOf)
  {
    if |items| > 0 {
      var last := items[|items| - 1];
      CompsInv(st, ix, ids0, logos, items[..|items| - 1], nidOf, norm);
      NamesInv(ProcessComps(st, ix, logos, items[..|items| - 1], nidOf, norm), ix, ids0, logos, last.0, last.1, nidOf, norm);
    }
  }

  /**
   * Every record of the regenerated catalog is either an existing record of
   * the same id, changed at most in its logos, or a new team's record under
   * its national id or a club id the existing catalog never used.
   */
  lemma GenerateKeepsOrMints(items: seq<(string, seq<string>)>, existing: BC.Catalog, logos: map<string, map<string, map<string, string>>>)
    requires forall k :: k in existing.ids ==> k in existing.teams
    ensures var r := GenerateTeamMaster(items, existing, logos);
      BC.WellFormed(r.teams)
      && forall id :: id in r.teams.teams ==>
        (id in existing.teams && Indexed(existing.teams[id]) && SameButLogos(existing.teams[id], r.teams.teams[id]))
        || Minted(IndexExisting(existing), existing.ids, id, r.teams.teams[id], GenerateNationalTeamId)
  {
    var ix := IndexExisting(existing);
    assert BC.WellFormed(StartState(existing).teams);
    CompsInv(StartState(existing), ix, existing.ids, logos, SortBy(items, CompLe), GenerateNationalTeamId, NormalizeTeamName);
  }

  // ------------------------------------------------------------ counters

  /** 1 for an international name without a country code, which the loop skips. */
  function Skip(comp: string, name: string): nat
  {
    if comp in InternationalCompetitions && GenerateNationalTeamId(name, comp) == "" then 1 else 0
  }

  function SkippedIn(comp: string, names: seq<string>): nat
  {
    if |names| == 0 then 0 else SkippedIn(comp, names[..|names| - 1]) + Skip(comp, names[|names| - 1])
  }

  function CompSize(item: (string, seq<string>)): nat { |item.1| }

  function CompSkips(item: (string, seq<string>)): nat { SkippedIn(item.0, item.1) }

  lemma {:induction false} NamesCount(st: MasterState, ix: Index, logos: map<string, map<string, map<string, string>>>, comp: string, names: seq<string>)
    requires ValidIndex(ix)
    ensures var r := ProcessNames(st, ix, logos, comp, names, GenerateNationalTeamId, NormalizeTeamName);
      r.added + r.preserved + SkippedIn(comp, names) == st.added + st.preserved + |names|
  {
    if |names| > 0 {
      var init := names[..|names| - 1];
      var name := names[|names| - 1];
      NamesCount(st, ix, logos, comp, init);
      var prev := ProcessNames(st, ix, logos, comp, init, GenerateNationalTeamId, NormalizeTeamName);
      var nid := GenerateNationalTeamId(name, comp);
      StepCount(prev, ix, comp, name, OfficialOf(logos, comp, name), nid, NormalizeTeamName(name), Skip(comp, name));
    }
  }

  /** One step adds one to exactly one counter, or skips the name. */
  lemma StepCount(st: MasterState, ix: Index, comp: string, name: string, o: map<string, string>, nid: string, key: string, skip: nat)
    requires ValidIndex(ix)
    requires skip == if comp in InternationalCompetitions && nid == "" then 1 else 0
    ensures var r := MasterStep(st, ix, comp, name, o, nid, key);
      r.added + r.preserved + skip == st.added + st.preserved + 1
  {
  }

  lemma {:induction false} CompsCount(st: MasterState, ix: Index, logos: map<string, map<string, map<string, string>>>, items: seq<(string, seq<string>)>)
    requires ValidIndex(ix)
    ensures var r := ProcessComps(st, ix, logos, items, GenerateNationalTeamId, NormalizeTeamName);
      r.added + r.preserved + SumOf(items, CompSkips) == st.added + st.preserved + SumOf(items, CompSize)
  {
    if |items| > 0 {
      var last := items[|items| - 1];
      CompsCount(st, ix, logos, items[..|items| - 1]);
      NamesCount(ProcessComps(st, ix, logos, items[..|items| - 1], GenerateNationalTeamId, NormalizeTeamName), ix, logos, last.0, last.1);
    }
  }

  /** Every input name adds one to exactly one counter, except the skipped international names. */
  lemma GenerateCounts(items: seq<(string, seq<string>)>, existing: BC.Catalog, logos: map<string, map<string, map<string, string>>>)
    requires forall k :: k in existing.ids ==> k in existing.teams
    ensures var r := GenerateTeamMaster(items, existing, logos);
      r.added + r.preserved + SumOf(items, CompSkips) == SumOf(items, CompSize)
  {
    var sorted := SortBy(items, CompLe);
    SortByPerm(items, CompLe);
    SumOfPerm(sorted, items, CompSkips);
    SumOfPerm(sorted, items, CompSize);
    CompsCount(StartState(existing), IndexExisting(existing), logos, sorted);
  }

  // ------------------------------------------------------------ known teams keep their ids

  /** The id of the existing record a name matches: its national id, or the id indexed under its normalised name. */
  function KnownId(ix: Index, comp: string, name: string, nidOf: (string, string) -> string, norm: string -> string): Option<string>
  {
    if comp in InternationalCompetitions then
      var nid := nidOf(name, comp);
      if nid != "" && nid in ix.byId then Some(nid) else None
    else if (comp, norm(name)) in ix.byName then Some(ix.byName[(comp, norm(name))])
    else None
  }

  /** A step only adds keys, and a known name's id is among them afterwards. */
  lemma StepGrow(st: MasterState, ix: Index, comp: string, name: string, o: map<string, string>,
                 nidOf: (string, string) -> string, norm: string -> string)
    requires ValidIndex(ix)
    ensures var st' := MasterStep(st, ix, comp, name, o, nidOf(name, comp), norm(name));
      (forall id :: id in st.teams.teams ==> id in st'.teams.teams)
      && (KnownId(ix, comp, name, nidOf, norm).Some? ==> KnownId(ix, comp, name, nidOf, norm).value in st'.teams.teams)
  {
    var nid := nidOf(name, comp);
    var key := norm(name);
    var st' := MasterStep(st, ix, comp, name, o, nid, key);
    if comp in InternationalCompetitions {
      if nid == "" {
        assert st' == st;
      } else {
        var rec := if nid in ix.byId then WithOfficial(ix.byId[nid], o) else NewTeam(nid, comp, name, o);
        assert st'.teams == BC.Put(st.teams, nid, rec);
      }
    } else if (comp, key) in ix.byName {
      var tid := ix.byName[(comp, key)];
      assert st'.teams == BC.Put(st.teams, tid, WithOfficial(ix.byId[tid], o));
    } else {
      var tid := ClubId(comp, MaxGet(st.maxIds, comp) + 1);
      assert st'.teams == BC.Put(st.teams, tid, NewTeam(tid, comp, name, o));
    }
  }

  lemma {:induction false} NamesGrow(st: MasterState, ix: Index, logos: map<string, map<string, map<string, string>>>, comp: string, names: seq<string>,
                                     nidOf: (string, string) -> string, norm: string -> string)
    requires ValidIndex(ix)
    ensures var r := ProcessNames(st, ix, logos, comp, names, nidOf, norm);
      (forall id :: id in st.teams.teams ==> id in r.teams.teams)
      && forall name :: name in names && KnownId(ix, comp, name, nidOf, norm).Some? ==> KnownId(ix, comp, name, nidOf, norm).value in r.teams.teams
  {
    if |names| > 0 {
      var init := names[..|names| - 1];
      var name := names[|names| - 1];
      NamesGrow(st, ix, logos, comp, init, nidOf, norm);
      StepGrow(ProcessNames(st, ix, logos, comp, init, nidOf, norm), ix, comp, name, OfficialOf(logos, comp, name), nidOf, norm);
      assert forall x :: x in names ==> x in init || x == name;
    }
  }

  lemma {:induction false} CompsGrow(st: MasterState, ix: Index, logos: map<string, map<string, map<string, string>>>, items: seq<(string, seq<string>)>,
                                     nidOf: (string, string) -> string, norm: string -> string)
    requires ValidIndex(ix)
    ensures var r := ProcessComps(st, ix, logos, items, nidOf, norm);
      (forall id :: id in st.teams.teams ==> id in r.teams.teams)
      && forall item, name :: item in items && name in item.1 && KnownId(ix, item.0, name, nidOf, norm).Some? ==>
        KnownId(ix, item.0, name, nidOf, norm).value in r.teams.teams
  {
    if |items| > 0 {
      var init := items[..|items| - 1];
      var last := items[|items| - 1];
      CompsGrow(st, ix, logos, init, nidOf, norm);
      NamesGrow(ProcessComps(st, ix, logos, init, nidOf, norm), ix, logos, last.0, last.1, nidOf, norm);
      assert forall item :: item in items ==> item in init || item == last;
    }
  }

  /** Under the invariant, a known name's id ends up in the result with a kept record. */
  lemma KnownKeptWith(st: MasterState, ix: Index, ids0: seq<string>, logos: map<string, map<string, map<string, string>>>,
                      items: seq<(string, seq<string>)>, nidOf: (string, string) -> string, norm: string -> string,
                      item: (string, seq<string>), name: string)
    requires IndexOver(ix, ids0) && MasterInv(st, ix, ids0, nidOf)
    requires item in items && name in item.1 && KnownId(ix, item.0, name, nidOf, norm).Some?
    ensures var r := ProcessComps(st, ix, logos, items, nidOf, norm);
      var id := KnownId(ix, item.0, name, nidOf, norm).value;
      id in r.teams.teams && id in ix.byId && SameButLogos(ix.byId[id], r.teams.teams[id])
  {
    CompsGrow(st, ix, logos, items, nidOf, norm);
    CompsInv(st, ix, ids0, logos, items, nidOf, norm);
  }

  /**
   * A name matched by its national id or by its competition and normalised
   * name keeps the matched id, and the record stored under it is the
   * existing one with at most its logos changed.
   */
  lemma GenerateKeepsKnown(items: seq<(string, seq<string>)>, existing: BC.Catalog,
                           logos: map<string, map<string, map<string, string>>>, item: (string, seq<string>), name: string)
    requires forall k :: k in existing.ids ==> k in existing.teams
    requires item in items && name in item.1 && KnownId(IndexExisting(existing), item.0, name, GenerateNationalTeamId, NormalizeTeamName).Some?
    ensures var r := GenerateTeamMaster(items, existing, logos);
      var id := KnownId(IndexExisting(existing), item.0, name, GenerateNationalTeamId, NormalizeTeamName).value;
      id in r.teams.teams && id in existing.teams && SameButLogos(existing.teams[id], r.teams.teams[id])
  {
    var ix := IndexExisting(existing);
    var sorted := SortBy(items, CompLe);
    SortByPerm(items, CompLe);
    assert item in multiset(sorted);
    assert BC.WellFormed(StartState(existing).teams);
    KnownKeptWith(StartState(existing), ix, existing.ids, logos, sorted, GenerateNationalTeamId, NormalizeTeamName, item, name);
  }

  // ------------------------------------------------------------ the loops

  /** The indexing loop over `existing_teams.items()`. */
  method BuildIndex(existing: BC.Catalog) returns (ix: Index)
    requires forall k :: k in existing.ids ==> k in existing.teams
    ensures ix == IndexExisting(existing)
  {
    ix := Index(map[], map[]);
    var i := 0;
    while i < |existing.ids|
      invariant 0 <= i <= |existing.ids|
      invariant ix == IndexWith(existing.ids[..i], existing.teams, NormalizeTeamName)
    {
      var id := existing.ids[i];
      var data := existing.teams[id];
      IndexWithStep(existing.ids, existing.teams, NormalizeTeamName, i);
      ghost var prev := ix;
      if data.name != "" && data.competitionId != "" {
        var key := (data.competitionId, NormalizeTeamName(data.name));
        ix := Index(ix.byName[key := id], ix.byId[id := data]);
      }
      assert ix == IndexAdd(prev, id, data, NormalizeTeamName);
      i := i + 1;
    }
    TakeAll(existing.ids);
  }

  /** The loop computing `max_id_by_comp`. */
  method MaxIdsLoop(ids: seq<string>) returns (m: map<string, nat>)
    ensures m == MaxIds(ids)
  {
    m := map[];
    var i := 0;
    while i < |ids|
      invariant 0 <= i <= |ids|
      invariant m == MaxIds(ids[..i])
    {
      var parsed := ClubNumber(ids[i]);
      ghost var prev := m;
      if parsed.Some? {
        m := RaiseMax(m, parsed.value.0, parsed.value.1);
      }
      assert m == MaxAdd(prev, ids[i]);
      MaxIdsStep(ids, i);
      i := i + 1;
    }
    TakeAll(ids);
  }

  lemma NamesSnoc(st: MasterState, ix: Index, logos: map<string, map<string, map<string, string>>>, comp: string, names: seq<string>, i: nat,
                  nidOf: (string, string) -> string, norm: string -> string)
    requires ValidIndex(ix) && i < |names|
    ensures ProcessNames(st, ix, logos, comp, names[..i + 1], nidOf, norm)
         == MasterStep(ProcessNames(st, ix, logos, comp, names[..i], nidOf, norm), ix, comp, names[i],
                       OfficialOf(logos, comp, names[i]), nidOf(names[i], comp), norm(names[i]))
  {
    assert names[..i + 1][..i] == names[..i];
  }

  /**
   * The loop over the names of one competition, with `nidOf` and `norm` in
   * the place of `generate_national_team_id` and `normalize_team_name`.
   */
  method ProcessNamesLoop(teams0: BC.Catalog, maxIds0: map<string, nat>, added0: nat, preserved0: nat, ix: Index,
                          logos: map<string, map<string, map<string, string>>>, comp: string, names: seq<string>,
                          nidOf: (string, string) -> string, norm: string -> string)
    returns (teams: BC.Catalog, maxIds: map<string, nat>, added: nat, preserved: nat)
    requires ValidIndex(ix)
    ensures MasterState(teams, maxIds, added, preserved)
         == ProcessNames(MasterState(teams0, maxIds0, added0, preserved0), ix, logos, comp, names, nidOf, norm)
  {
    teams, maxIds, added, preserved := teams0, maxIds0, added0, preserved0;
    var official: map<string, map<string, string>> := if comp in logos then logos[comp] else map[];
    var i := 0;
    while i < |names|
      invariant 0 <= i <= |names|
      invariant MasterState(teams, maxIds, added, preserved)
             == ProcessNames(MasterState(teams0, maxIds0, added0, preserved0), ix, logos, comp, names[..i], nidOf, norm)
    {
      var name := names[i];
      var o: map<string, string> := if name in official then official[name] else map[];
      assert o == OfficialOf(logos, comp, name);
      teams, maxIds, added, preserved := ProcessName(teams, maxIds, added, preserved, ix, comp, name, o, nidOf, norm);
      NamesSnoc(MasterState(teams0, maxIds0, added0, preserved0), ix, logos, comp, names, i, nidOf, norm);
      i := i + 1;
    }
    TakeAll(names);
  }

  /** The body of the name loop for one team name and its official logos `o`. */
  method ProcessName(teams0: BC.Catalog, maxIds0: map<string, nat>, added0: nat, preserved0: nat, ix: Index,
                     comp: string, name: string, o: map<string, string>,
                     nidOf: (string, string) -> string, norm: string -> string)
    returns (teams: BC.Catalog, maxIds: map<string, nat>, added: nat, preserved: nat)
    requires ValidIndex(ix)
    ensures MasterState(teams, maxIds, added, preserved)
         == MasterStep(MasterState(teams0, maxIds0, added0, preserved0), ix, comp, name, o, nidOf(name, comp), norm(name))
  {
    teams, maxIds, added, preserved := teams0, maxIds0, added0, preserved0;
    if comp in InternationalCompetitions {
      var tid := nidOf(name, comp);
      if tid == "" {
        // no country code: the name is skipped
      } else if tid in ix.byId {
        teams := BC.Put(teams, tid, WithOfficial(ix.byId[tid], o));
        preserved := preserved + 1;
      } else {
        teams := BC.Put(teams, tid, NewTeam(tid, comp, name, o));
        added := added + 1;
      }
    } else {
      var key := (comp, norm(name));
      if key in ix.byName {
        var tid := ix.byName[key];
        teams := BC.Put(teams, tid, WithOfficial(ix.byId[tid], o));
        preserved := preserved + 1;
      } else {
        var n := MaxGet(maxIds, comp) + 1;
        maxIds := maxIds[comp := n];
        var tid := ClubId(comp, n);
        teams := BC.Put(teams, tid, NewTeam(tid, comp, name, o));
        added := added + 1;
      }
    }
  }

  lemma CompsSnoc(st: MasterState, ix: Index, logos: map<string, map<string, map<string, string>>>, items: seq<(string, seq<string>)>, t: nat,
                  nidOf: (string, string) -> string, norm: string -> string)
    requires ValidIndex(ix) && t < |items|
    ensures ProcessComps(st, ix, logos, items[..t + 1], nidOf, norm)
         == ProcessNames(ProcessComps(st, ix, logos, items[..t], nidOf, norm), ix, logos, items[t].0, items[t].1, nidOf, norm)
  {
    assert items[..t + 1][..t] == items[..t];
  }

  /**
   * `generate_team_master`: the new catalog, `added_count` and
   * `preserved_count`.
   */
  method GenerateTeamMasterLoop(items: seq<(string, seq<string>)>, existing: BC.Catalog,
                                logos: map<string, map<string, map<string, string>>>)
    returns (newTeams: BC.Catalog, added: nat, preserved: nat)
    requires forall k :: k in existing.ids ==> k in existing.teams
    ensures var r := GenerateTeamMaster(items, existing, logos);
      newTeams == r.teams && added == r.added && preserved == r.preserved
  {
    var ix := BuildIndex(existing);
    var maxIds := MaxIdsLoop(existing.ids);
    newTeams, added, preserved := BC.Catalog([], map[]), 0, 0;
    var sorted := SortBy(items, CompLe);
    var t := 0;
    while t < |sorted|
      invariant 0 <= t <= |sorted|
      invariant MasterState(newTeams, maxIds, added, preserved) == ProcessComps(StartState(existing), ix, logos, sorted[..t], GenerateNationalTeamId, NormalizeTeamName)
    {
      newTeams, maxIds, added, preserved := ProcessNamesLoop(newTeams, maxIds, added, preserved, ix, logos, sorted[t].0, sorted[t].1,
                                                               GenerateNationalTeamId, NormalizeTeamName);
      CompsSnoc(StartState(existing), ix, logos, sorted, t, GenerateNationalTeamId, NormalizeTeamName);
      t := t + 1;
    }
    TakeAll(sorted);
  }
}
