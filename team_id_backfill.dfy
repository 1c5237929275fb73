/**
 * `src/services/team_id_backfill.py`: recomputes the home/away team ids of
 * every match file under data/matches with a resolver built read-only over
 * teams.json. An id is recomputed when it is empty or when `force` is set; a
 * file is written back only when some recomputed id came out non-empty. The
 * resolver is the parameter `resolve(name, competition)`; for the collector's
 * own `_resolve_team_id` it is `ReadOnlyResolver` below.
 */
module TeamIdBackfill {
  import opened Text
  import opened BaseNames
  import opened BaseMatches
  import BC = BaseCatalog

  /** One element of a decoded match file: a dict (read as a match) or anything else. */
  datatype Item = NotDict | Dict(m: Match)

  /** A match file: unreadable or not JSON, JSON that is not a list, or a list. */
  datatype FileContent = Unreadable | NotList | Items(items: seq<Item>)

  /** A directory entry under data/matches: its name, whether it is a directory, and its `*.json` files in sorted order. */
  datatype CompDir = CompDir(name: string, isDir: bool, files: seq<FileContent>)

  // ------------------------------------------------------------- the resolver

  /** `_Resolver(update_team_master=False)._resolve_team_id` over a catalog and its base-name cache. */
  function ReadOnlyResolver(c: BC.Catalog, cache: NameCache, aliasKey: string -> string): (string, string) -> string
  {
    (name: string, comp: string) => BC.Resolve(c, false, cache, aliasKey, name, comp).0
  }

  /** With the flag off, resolving never changes the catalog, so every call of the pass sees the same teams.json, and a non-empty id is one of its keys. */
  lemma ReadOnlyResolverSpec(c: BC.Catalog, cache: NameCache, aliasKey: string -> string, name: string, comp: string)
    requires BC.WellFormed(c)
    ensures BC.Resolve(c, false, cache, aliasKey, name, comp).1 == c
    ensures var id := ReadOnlyResolver(c, cache, aliasKey)(name, comp); id == "" || id in c.teams
  {
    BC.ResolveTeam(c, false, cache, aliasKey, name, comp);
  }

  // ------------------------------------------------------------------ a match

  /** One match of the inner loop: the match afterwards and how many recomputed ids are non-empty. */
  function BackfillMatch(resolve: (string, string) -> string, comp: string, force: bool, m: Match): (Match, nat)
  {
    var m1 := if force || m.homeTeamId == "" then m.(homeTeamId := resolve(m.homeTeam, comp)) else m;
    var h: nat := if (force || m.homeTeamId == "") && m1.homeTeamId != "" then 1 else 0;
    var m2 := if force || m1.awayTeamId == "" then m1.(awayTeamId := resolve(m.awayTeam, comp)) else m1;
    var a: nat := if (force || m1.awayTeamId == "") && m2.awayTeamId != "" then 1 else 0;
    (m2, h + a)
  }

  /**
   * Only the two team ids can change. An id is replaced by the resolved id of
   * its team in the directory's competition (not the match's own
   * competition_id) when it is empty or `force` is set, even when that
   * resolved id is ""; the count is the number of replaced ids that are
   * non-empty.
   */
  lemma BackfillMatchSpec(resolve: (string, string) -> string, comp: string, force: bool, m: Match)
    ensures var (r, n) := BackfillMatch(resolve, comp, force, m);
      r.(homeTeamId := m.homeTeamId, awayTeamId := m.awayTeamId) == m
      && r.homeTeamId == (if force || m.homeTeamId == "" then resolve(m.homeTeam, comp) else m.homeTeamId)
      && r.awayTeamId == (if force || m.awayTeamId == "" then resolve(m.awayTeam, comp) else m.awayTeamId)
      && n == (if (force || m.homeTeamId == "") && r.homeTeamId != "" then 1 else 0)
            + (if (force || m.awayTeamId == "") && r.awayTeamId != "" then 1 else 0)
  {
  }

  /** Without `force`, a second pass counts nothing and changes nothing: filled ids are kept, empty ones resolve to "" again. */
  lemma BackfillMatchIdempotent(resolve: (string, string) -> string, comp: string, m: Match)
    ensures var r := BackfillMatch(resolve, comp, false, m).0;
      BackfillMatch(resolve, comp, false, r) == (r, 0)
  {
    BackfillMatchSpec(resolve, comp, false, m);
    var r := BackfillMatch(resolve, comp, false, m).0;
    BackfillMatchSpec(resolve, comp, false, r);
  }

  /** With `force`, a set id whose team no longer resolves is cleared, yet it is not counted. */
  lemma ForceClears(resolve: (string, string) -> string, comp: string, m: Match)
    requires m.homeTeamId != "" && resolve(m.homeTeam, comp) == "" && resolve(m.awayTeam, comp) == ""
    ensures var (r, n) := BackfillMatch(resolve, comp, true, m);
      r.homeTeamId == "" && r != m && n == 0
  {
    BackfillMatchSpec(resolve, comp, true, m);
  }

  // ------------------------------------------------------------------- a file

  /** One item of the inner loop on the accumulated items and count: a dict is backfilled, anything else kept. */
  function ItemStep(resolve: (string, string) -> string, comp: string, force: bool, acc: (seq<Item>, nat), it: Item): (seq<Item>, nat)
  {
    if it.Dict? then
      var (m, k) := BackfillMatch(resolve, comp, force, it.m);
      (acc.0 + [Dict(m)], acc.1 + k)
    else (acc.0 + [it], acc.1)
  }

  /** The inner loop over the items of a list file: non-dict items are kept as they are. */
  function BackfillItems(resolve: (string, string) -> string, comp: string, force: bool, items: seq<Item>): (r: (seq<Item>, nat))
    ensures |r.0| == |items|
    ensures forall i :: 0 <= i < |items| ==>
      r.0[i] == if items[i].Dict? then Dict(BackfillMatch(resolve, comp, force, items[i].m).0) else NotDict
  {
    if |items| == 0 then ([], 0)
    else ItemStep(resolve, comp, force, BackfillItems(resolve, comp, force, items[..|items| - 1]), items[|items| - 1])
  }

  /** What a file contributes: its rewritten items when it is written, and its count of non-empty recomputed ids. */
  function BackfillFile(resolve: (string, string) -> string, comp: string, force: bool, f: FileContent): (r: (Option<seq<Item>>, nat))
    ensures r.0.Some? <==> f.Items? && r.1 > 0
  {
    match f
    case Items(items) =>
      var (out, n) := BackfillItems(resolve, comp, force, items);
      (if n > 0 then Some(out) else None, n)
    case _ => (None, 0)
  }

  /** The body of the inner loop for one item; `hit` tells whether a recomputed id came out non-empty. */
  method BackfillItem(resolve: (string, string) -> string, comp: string, force: bool, out0: seq<Item>, updates0: nat, it: Item)
    returns (out: seq<Item>, updates: nat, hit: bool)
    ensures (out, updates) == ItemStep(resolve, comp, force, (out0, updates0), it)
    ensures hit <==> updates > updates0
  {
    out, updates, hit := out0, updates0, false;
    if !it.Dict? {
      out := out + [it];
    } else {
      var m := it.m;
      if force || m.homeTeamId == "" {
        m := m.(homeTeamId := resolve(m.homeTeam, comp));
        if m.homeTeamId != "" {
          hit := true;
          updates := updates + 1;
        }
      }
      if force || m.awayTeamId == "" {
        m := m.(awayTeamId := resolve(m.awayTeam, comp));
        if m.awayTeamId != "" {
          hit := true;
          updates := updates + 1;
        }
      }
      out := out + [Dict(m)];
    }
  }

  lemma ItemsSnoc(resolve: (string, string) -> string, comp: string, force: bool, items: seq<Item>, i: nat)
    requires i < |items|
    ensures BackfillItems(resolve, comp, force, items[..i + 1])
         == ItemStep(resolve, comp, force, BackfillItems(resolve, comp, force, items[..i]), items[i])
  {
    assert items[..i + 1][..i] == items[..i];
  }

  /** The loop over one list file; `changed` is set exactly when the count grows. */
  method BackfillItemsLoop(resolve: (string, string) -> string, comp: string, force: bool, items: seq<Item>)
    returns (out: seq<Item>, changed: bool, updates: nat)
    ensures (out, updates) == BackfillItems(resolve, comp, force, items)
    ensures changed <==> updates > 0
  {
    out, changed, updates := [], false, 0;
    var i := 0;
    while i < |items|
      invariant 0 <= i <= |items|
      invariant (out, updates) == BackfillItems(resolve, comp, force, items[..i])
      invariant changed <==> updates > 0
    {
      var hit;
      out, updates, hit := BackfillItem(resolve, comp, force, out, updates, items[i]);
      changed := changed || hit;
      ItemsSnoc(resolve, comp, force, items, i);
      i := i + 1;
    }
    assert items[..i] == items;
  }

  // -------------------------------------------------------------- all files

  /** `_iter_match_files`: a directory is visited when it is one and, with a non-empty `only`, when it is listed. */
  predicate Visited(d: CompDir, only: seq<string>)
  {
    d.isDir && (|only| == 0 || d.name in only)
  }

  /** The files of one directory: the written contents in order, and the summed count. */
  function BackfillDir(resolve: (string, string) -> string, force: bool, comp: string, files: seq<FileContent>): (r: (seq<seq<Item>>, nat))
  {
    if |files| == 0 then ([], 0)
    else FileStep(resolve, force, comp, BackfillDir(resolve, force, comp, files[..|files| - 1]), files[|files| - 1])
  }

  /** One file on the accumulated written files and count. */
  function FileStep(resolve: (string, string) -> string, force: bool, comp: string, acc: (seq<seq<Item>>, nat), f: FileContent): (seq<seq<Item>>, nat)
  {
    var (w, k) := BackfillFile(resolve, comp, force, f);
    (if w.Some? then acc.0 + [w.value] else acc.0, acc.1 + k)
  }

  /** `backfill_team_ids`: the written files in order and `total_updates`; `updated_files` is the number written. */
  function Backfill(resolve: (string, string) -> string, force: bool, only: seq<string>, dirs: seq<CompDir>): (r: (seq<seq<Item>>, nat))
  {
    if |dirs| == 0 then ([], 0)
    else
      var (ws, n) := Backfill(resolve, force, only, dirs[..|dirs| - 1]);
      var d := dirs[|dirs| - 1];
      if Visited(d, only) then
        var (w, k) := BackfillDir(resolve, force, d.name, d.files);
        (ws + w, n + k)
      else (ws, n)
  }

  /** A directory that is not visited contributes nothing. */
  lemma {:induction false} BackfillSkips(resolve: (string, string) -> string, force: bool, only: seq<string>, dirs: seq<CompDir>, d: CompDir)
    requires !Visited(d, only)
    ensures Backfill(resolve, force, only, dirs + [d]) == Backfill(resolve, force, only, dirs)
  {
    assert (dirs + [d])[..|dirs|] == dirs;
  }

  /** Every written file counted at least one id, so at most `total_updates` files are written. */
  lemma {:induction false} WrittenBound(resolve: (string, string) -> string, force: bool, comp: string, files: seq<FileContent>)
    ensures var (ws, n) := BackfillDir(resolve, force, comp, files); |ws| <= n && |ws| <= |files|
  {
    if |files| > 0 {
      WrittenBound(resolve, force, comp, files[..|files| - 1]);
    }
  }

  /** The same bound over every directory: `updated_files <= total_updates`. */
  lemma {:induction false} BackfillBound(resolve: (string, string) -> string, force: bool, only: seq<string>, dirs: seq<CompDir>)
    ensures var (ws, n) := Backfill(resolve, force, only, dirs); |ws| <= n
  {
    if |dirs| > 0 {
      BackfillBound(resolve, force, only, dirs[..|dirs| - 1]);
      var d := dirs[|dirs| - 1];
      WrittenBound(resolve, force, d.name, d.files);
    }
  }

  /** The files of one directory, skipping unreadable and non-list ones. */
  method BackfillDirLoop(resolve: (string, string) -> string, force: bool, comp: string, files: seq<FileContent>)
    returns (written: seq<seq<Item>>, updates: nat)
    ensures (written, updates) == BackfillDir(resolve, force, comp, files)
  {
    written, updates := [], 0;
    var f := 0;
    while f < |files|
      invariant 0 <= f <= |files|
      invariant (written, updates) == BackfillDir(resolve, force, comp, files[..f])
    {
      written, updates := BackfillOneFile(resolve, force, comp, written, updates, files[f]);
      DirSnoc(resolve, force, comp, files, f);
      f := f + 1;
    }
    assert files[..f] == files;
  }

  /** The body of the loop over files: a list file is backfilled and written back when some id was filled. */
  method BackfillOneFile(resolve: (string, string) -> string, force: bool, comp: string, written0: seq<seq<Item>>, updates0: nat, f: FileContent)
    returns (written: seq<seq<Item>>, updates: nat)
    ensures (written, updates) == FileStep(resolve, force, comp, (written0, updates0), f)
  {
    written, updates := written0, updates0;
    if f.Items? {
      var out, changed, k := BackfillItemsLoop(resolve, comp, force, f.items);
      updates := updates + k;
      if changed {
        written := written + [out];
      }
    }
  }

  lemma DirSnoc(resolve: (string, string) -> string, force: bool, comp: string, files: seq<FileContent>, f: nat)
    requires f < |files|
    ensures BackfillDir(resolve, force, comp, files[..f + 1])
         == FileStep(resolve, force, comp, BackfillDir(resolve, force, comp, files[..f]), files[f])
  {
    assert files[..f + 1][..f] == files[..f];
  }

  /** `backfill_team_ids(only, force)`: the written files, `updated_files` and `total_updates`. */
  method BackfillTeamIds(resolve: (string, string) -> string, force: bool, only: seq<string>, dirs: seq<CompDir>)
    returns (written: seq<seq<Item>>, updatedFiles: nat, totalUpdates: nat)
    ensures (written, totalUpdates) == Backfill(resolve, force, only, dirs)
    ensures updatedFiles == |written| <= totalUpdates
  {
    written, totalUpdates := [], 0;
    var d := 0;
    while d < |dirs|
      invariant 0 <= d <= |dirs|
      invariant (written, totalUpdates) == Backfill(resolve, force, only, dirs[..d])
    {
      assert dirs[..d + 1][..d] == dirs[..d];
      var dir := dirs[d];
      if dir.isDir && (|only| == 0 || dir.name in only) {
        var ws, k := BackfillDirLoop(resolve, force, dir.name, dir.files);
        written := written + ws;
        totalUpdates := totalUpdates + k;
      }
      d := d + 1;
    }
    assert dirs[..d] == dirs;
    updatedFiles := |written|;
    BackfillBound(resolve, force, only, dirs);
  }
}
