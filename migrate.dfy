/**
 * The one-off migration of match files (`scripts/migrate_to_new_structure.py`):
 * every old file `data/matches/<name>.json` whose name has a new competition
 * id is split by season into `data/matches/<id>/<season>.json`, every match
 * relabelled with the new id, after a backup copy of all old files; the old
 * file is removed once its season files are written. The file system is the
 * log of actions the migration performs, in order.
 */
module Migrate {
  import opened Text
  import opened Sorting

  /** A match record: its `season` when the key is present, its `competition_id`, and every other key. */
  datatype Match = Match(season: Option<string>, competitionId: Option<string>, fields: map<string, string>)

  /** An old match file: its stem and its list of matches. */
  datatype OldFile = OldFile(stem: string, matches: seq<Match>)

  /** What the migration does to the file system. */
  datatype Action =
    | RemoveBackupDir
    | MakeBackupDir
    | Copy(name: string)
    | MakeDir(compId: string)
    | Write(compId: string, season: string, matches: seq<Match>)
    | Unlink(name: string)

  /** `COMPETITION_ID_MAP`. */
  const CompetitionIdMap: map<string, string> := map[
    "six-nations" := "m6n", "six-nations-women" := "w6n", "six-nations-u20" := "u6n",
    "league-one" := "jrlo", "top14" := "t14", "gallagher-premiership" := "gp", "urc" := "urc",
    "epcr-champions" := "ecc", "epcr-challenge" := "ech", "super-rugby-pacific" := "srp",
    "rugby-championship" := "trc", "autumn-nations-series" := "ans", "world-rugby-internationals" := "wri"]

  function Name(f: OldFile): string { f.stem + ".json" }

  /** `COMPETITION_ID_MAP.get(stem)`, with an empty id read as none. */
  function NewId(idMap: map<string, string>, f: OldFile): Option<string>
  {
    if f.stem in idMap && idMap[f.stem] != "" then Some(idMap[f.stem]) else None
  }

  /** A file that is left in place: no new id, or no matches. */
  predicate Skipped(idMap: map<string, string>, f: OldFile)
  {
    NewId(idMap, f).None? || |f.matches| == 0
  }

  predicate IsBackup(a: Action) { a.RemoveBackupDir? || a.MakeBackupDir? || a.Copy? }

  // ------------------------------------------------------------ seasons

  /** `match.get("season", "unknown")`. */
  function SeasonOf(m: Match): string
  {
    if m.season.Some? then m.season.value else "unknown"
  }

  function Relabel(m: Match, id: string): Match { m.(competitionId := Some(id)) }

  function RelabelFn(id: string): Match -> Match { (m: Match) => Relabel(m, id) }

  /** The matches of a season, in file order. */
  function InSeason(ms: seq<Match>, s: string): seq<Match>
  {
    if |ms| == 0 then []
    else InSeason(ms[..|ms| - 1], s) + (if SeasonOf(ms[|ms| - 1]) == s then [ms[|ms| - 1]] else [])
  }

  /** The `by_season` defaultdict: its keys in insertion order and its lists. */
  datatype Groups = Groups(order: seq<string>, lists: map<string, seq<Match>>)

  function GroupAdd(g: Groups, m: Match): Groups
  {
    var s := SeasonOf(m);
    if s in g.lists then Groups(g.order, g.lists[s := g.lists[s] + [m]])
    else Groups(g.order + [s], g.lists[s := [m]])
  }

  /** The grouping loop: each match relabelled, then appended to its season. */
  function BySeason(ms: seq<Match>, id: string): Groups
  {
    if |ms| == 0 then Groups([], map[])
    else GroupAdd(BySeason(ms[..|ms| - 1], id), Relabel(ms[|ms| - 1], id))
  }

  function Get(lists: map<string, seq<Match>>, s: string): seq<Match>
  {
    if s in lists then lists[s] else []
  }

  /** The keys are listed once each, and they are exactly the seasons of the lists. */
  ghost predicate GroupsOk(g: Groups)
  {
    Distinct(g.order) && forall s :: s in g.lists <==> s in g.order
  }

  /** The number of matches over the seasons `order`. */
  function Total(order: seq<string>, lists: map<string, seq<Match>>): nat
  {
    if |order| == 0 then 0 else Total(order[..|order| - 1], lists) + |Get(lists, order[|order| - 1])|
  }

  /** The seasons are listed once each, and a season is a key exactly when some match has it. */
  lemma {:induction false} BySeasonKeys(ms: seq<Match>, id: string)
    ensures GroupsOk(BySeason(ms, id))
    ensures forall s :: s in BySeason(ms, id).lists <==> exists k :: 0 <= k < |ms| && SeasonOf(ms[k]) == s
  {
    if |ms| > 0 {
      var init := ms[..|ms| - 1];
      BySeasonKeys(init, id);
      var g, s := BySeason(init, id), SeasonOf(ms[|ms| - 1]);
      assert forall k :: 0 <= k < |init| ==> init[k] == ms[k];
      if s !in g.lists {
        assert s !in g.order;
        DistinctSnoc(g.order, s);
      }
      forall t | t in BySeason(ms, id).lists ensures exists k :: 0 <= k < |ms| && SeasonOf(ms[k]) == t {
        if t == s {
          assert SeasonOf(ms[|ms| - 1]) == t;
        } else {
          var k :| 0 <= k < |init| && SeasonOf(init[k]) == t;
          assert SeasonOf(ms[k]) == t;
        }
      }
      forall t | exists k :: 0 <= k < |ms| && SeasonOf(ms[k]) == t ensures t in BySeason(ms, id).lists {
        var k :| 0 <= k < |ms| && SeasonOf(ms[k]) == t;
        if k < |init| {
          assert SeasonOf(init[k]) == t;
        }
      }
    }
  }

  lemma DistinctSnoc<T>(s: seq<T>, x: T)
    requires Distinct(s) && x !in s
    ensures Distinct(s + [x])
  {
  }

  /** Each season's list holds that season's matches, relabelled, in file order. */
  lemma {:induction false} BySeasonLists(ms: seq<Match>, id: string)
    ensures forall s :: Get(BySeason(ms, id).lists, s) == InSeason(Map(ms, RelabelFn(id)), s)
  {
    if |ms| > 0 {
      var init := ms[..|ms| - 1];
      BySeasonLists(init, id);
      var r, m := Map(init, RelabelFn(id)), Relabel(ms[|ms| - 1], id);
      SnocPrefix(r, m);
      assert Map(ms, RelabelFn(id)) == r + [m];
    }
  }

  /** Changing one season's list changes the total by the difference, when seasons are listed once. */
  lemma {:induction false} TotalUpdate(order: seq<string>, lists: map<string, seq<Match>>, s: string, v: seq<Match>)
    requires Distinct(order)
    ensures Total(order, lists[s := v]) + (if s in order then |Get(lists, s)| else 0)
      == Total(order, lists) + (if s in order then |v| else 0)
  {
    if |order| > 0 {
      var init, x := order[..|order| - 1], order[|order| - 1];
      assert Distinct(init);
      TotalUpdate(init, lists, s, v);
      SnocMembers(order);
      if x == s {
        assert s !in init;
      }
    }
  }

  lemma TotalSnoc(order: seq<string>, lists: map<string, seq<Match>>, s: string)
    ensures Total(order + [s], lists) == Total(order, lists) + |Get(lists, s)|
  {
    SnocPrefix(order, s);
  }

  /** The season files hold every match of the old file exactly once in total. */
  lemma {:induction false} BySeasonTotal(ms: seq<Match>, id: string)
    ensures Total(BySeason(ms, id).order, BySeason(ms, id).lists) == |ms|
  {
    if |ms| > 0 {
      var init := ms[..|ms| - 1];
      BySeasonTotal(init, id);
      BySeasonKeys(init, id);
      var g, m := BySeason(init, id), Relabel(ms[|ms| - 1], id);
      var s := SeasonOf(m);
      if s in g.lists {
        TotalUpdate(g.order, g.lists, s, g.lists[s] + [m]);
      } else {
        TotalUpdate(g.order, g.lists, s, [m]);
        TotalSnoc(g.order, g.lists[s := [m]], s);
      }
    }
  }

  /** Every migrated match carries the new id and sits in its own season's list. */
  lemma {:induction false} BySeasonLabels(ms: seq<Match>, id: string)
    ensures forall s, m :: s in BySeason(ms, id).lists && m in BySeason(ms, id).lists[s] ==>
      m.competitionId == Some(id) && SeasonOf(m) == s
  {
    if |ms| > 0 {
      BySeasonLabels(ms[..|ms| - 1], id);
    }
  }

  /** The grouping loop of one file. */
  method GroupBySeason(ms: seq<Match>, id: string) returns (g: Groups)
    ensures g == BySeason(ms, id)
  {
    g := Groups([], map[]);
    var i := 0;
    while i < |ms|
      invariant 0 <= i <= |ms| && g == BySeason(ms[..i], id)
    {
      var m := Relabel(ms[i], id);
      var s := SeasonOf(m);
      if s in g.lists {
        g := Groups(g.order, g.lists[s := g.lists[s] + [m]]);
      } else {
        g := Groups(g.order + [s], g.lists[s := [m]]);
      }
      TakeNext(ms, i);
      assert ms[..i + 1][..i] == ms[..i];
      i := i + 1;
    }
    TakeAll(ms);
  }

  // ------------------------------------------------------------ the log

  /** One `<season>.json` write per season, in key order. */
  function WriteLog(id: string, lists: map<string, seq<Match>>, order: seq<string>): seq<Action>
  {
    if |order| == 0 then []
    else
      var s := order[|order| - 1];
      WriteLog(id, lists, order[..|order| - 1]) + [Write(id, s, Get(lists, s))]
  }

  lemma {:induction false} WriteLogSpec(id: string, lists: map<string, seq<Match>>, order: seq<string>)
    ensures |WriteLog(id, lists, order)| == |order|
    ensures forall k :: 0 <= k < |order| ==> WriteLog(id, lists, order)[k] == Write(id, order[k], Get(lists, order[k]))
  {
    if |order| > 0 {
      var init := order[..|order| - 1];
      WriteLogSpec(id, lists, init);
      assert forall k :: 0 <= k < |init| ==> init[k] == order[k];
    }
  }

  /** The actions of a processed file: its directory, its season files, then its removal. */
  function FileActs(id: string, g: Groups, name: string): seq<Action>
  {
    [MakeDir(id)] + WriteLog(id, g.lists, g.order) + [Unlink(name)]
  }

  /** What one old file causes: nothing when skipped. */
  function FileLog(idMap: map<string, string>, f: OldFile): seq<Action>
  {
    if Skipped(idMap, f) then []
    else
      var id := NewId(idMap, f).value;
      FileActs(id, BySeason(f.matches, id), Name(f))
  }

  /** The processing loop over the old files. */
  function ProcessLog(idMap: map<string, string>, files: seq<OldFile>): seq<Action>
  {
    if |files| == 0 then [] else ProcessLog(idMap, files[..|files| - 1]) + FileLog(idMap, files[|files| - 1])
  }

  function CopyFn(): OldFile -> Action { (f: OldFile) => Copy(Name(f)) }

  /** The backup: the old backup directory removed when it exists, a new one made, every old file copied. */
  function BackupLog(files: seq<OldFile>, backupExists: bool): seq<Action>
  {
    (if backupExists then [RemoveBackupDir] else []) + [MakeBackupDir] + Map(files, CopyFn())
  }

  /** `migrate_matches`: nothing without old files, else the backup, then every file. */
  function MigrationLog(idMap: map<string, string>, files: seq<OldFile>, backupExists: bool): seq<Action>
  {
    if |files| == 0 then [] else BackupLog(files, backupExists) + ProcessLog(idMap, files)
  }

  lemma FileActsSpec(id: string, g: Groups, name: string)
    ensures var log := FileActs(id, g, name);
      |log| == |g.order| + 2 && log[0] == MakeDir(id) && log[|log| - 1] == Unlink(name)
      && (forall k :: 0 <= k < |g.order| ==> log[k + 1] == Write(id, g.order[k], Get(g.lists, g.order[k])))
      && (forall k :: 0 <= k < |log| - 1 ==> !log[k].Unlink?)
      && (forall a :: a in log ==> !IsBackup(a))
  {
    var w := WriteLog(id, g.lists, g.order);
    WriteLogSpec(id, g.lists, g.order);
    var log := FileActs(id, g, name);
    forall k | 0 <= k < |g.order| ensures log[k + 1] == Write(id, g.order[k], Get(g.lists, g.order[k])) {
      assert log[k + 1] == w[k];
    }
    forall k | 0 <= k < |log| ensures !IsBackup(log[k]) && (k < |log| - 1 ==> !log[k].Unlink?) {
      if 0 < k < |log| - 1 {
        assert log[k] == w[k - 1];
      }
    }
  }

  /**
   * A processed file makes its directory, writes one file per season (the
   * season's matches, in key order) and only then is removed; a skipped file
   * causes nothing.
   */
  lemma FileLogSpec(idMap: map<string, string>, f: OldFile)
    ensures Skipped(idMap, f) ==> FileLog(idMap, f) == []
    ensures !Skipped(idMap, f) ==>
      var id, log := NewId(idMap, f).value, FileLog(idMap, f);
      var g := BySeason(f.matches, id);
      |log| == |g.order| + 2 && log[0] == MakeDir(id) && log[|log| - 1] == Unlink(Name(f))
      && (forall k :: 0 <= k < |g.order| ==> log[k + 1] == Write(id, g.order[k], Get(g.lists, g.order[k])))
      && (forall k :: 0 <= k < |log| - 1 ==> !log[k].Unlink?)
  {
    if !Skipped(idMap, f) {
      var id := NewId(idMap, f).value;
      FileActsSpec(id, BySeason(f.matches, id), Name(f));
    }
  }

  lemma FileLogNoBackup(idMap: map<string, string>, f: OldFile)
    ensures forall a :: a in FileLog(idMap, f) ==> !IsBackup(a)
  {
    if !Skipped(idMap, f) {
      var id := NewId(idMap, f).value;
      FileActsSpec(id, BySeason(f.matches, id), Name(f));
    }
  }

  lemma {:induction false} ProcessLogNoBackup(idMap: map<string, string>, files: seq<OldFile>)
    ensures forall a :: a in ProcessLog(idMap, files) ==> !IsBackup(a)
  {
    if |files| > 0 {
      ProcessLogNoBackup(idMap, files[..|files| - 1]);
      FileLogNoBackup(idMap, files[|files| - 1]);
    }
  }

  /** A file is removed exactly when it is one of the old files and is not skipped. */
  lemma {:induction false} ProcessLogUnlinks(idMap: map<string, string>, files: seq<OldFile>, n: string)
    ensures Unlink(n) in ProcessLog(idMap, files) <==> exists f :: f in files && Name(f) == n && !Skipped(idMap, f)
  {
    if |files| > 0 {
      var init, f := files[..|files| - 1], files[|files| - 1];
      ProcessLogUnlinks(idMap, init, n);
      FileLogSpec(idMap, f);
      SnocMembers(files);
      if !Skipped(idMap, f) {
        var log := FileLog(idMap, f);
        assert Unlink(n) in log <==> Name(f) == n by {
          if Unlink(n) in log {
            var k :| 0 <= k < |log| && log[k] == Unlink(n);
            assert k == |log| - 1;
          }
        }
      }
    }
  }

  /** Every backup action comes before every other action, and every old file is copied. */
  lemma BackupFirst(idMap: map<string, string>, files: seq<OldFile>, backupExists: bool)
    ensures var log := MigrationLog(idMap, files, backupExists);
      (forall i, j :: 0 <= i < j < |log| && IsBackup(log[j]) ==> IsBackup(log[i]))
      && (forall f :: f in files ==> Copy(Name(f)) in log)
  {
    if |files| > 0 {
      var b, p := BackupLog(files, backupExists), ProcessLog(idMap, files);
      var copies := Map(files, CopyFn());
      MapSpec(files, CopyFn());
      ProcessLogNoBackup(idMap, files);
      var log := b + p;
      assert forall k :: 0 <= k < |b| ==> IsBackup(b[k]) by {
        forall k | 0 <= k < |b| ensures IsBackup(b[k]) {
          var h := |b| - |copies|;
          if k >= h {
            assert b[k] == copies[k - h];
          }
        }
      }
      forall j | |b| <= j < |log| ensures !IsBackup(log[j]) {
        assert log[j] == p[j - |b|];
        assert p[j - |b|] in p;
      }
      forall i, j | 0 <= i < j < |log| && IsBackup(log[j]) ensures IsBackup(log[i]) {
        assert log[i] == b[i];
      }
      forall f | f in files ensures Copy(Name(f)) in log {
        var k :| 0 <= k < |files| && files[k] == f;
        assert copies[k] == Copy(Name(f));
        assert log[|b| - |copies| + k] == copies[k];
      }
    }
  }

  /** The write loop of one file. */
  method WriteSeasons(id: string, g: Groups) returns (acts: seq<Action>)
    ensures acts == WriteLog(id, g.lists, g.order)
  {
    acts := [];
    var i := 0;
    while i < |g.order|
      invariant 0 <= i <= |g.order| && acts == WriteLog(id, g.lists, g.order[..i])
    {
      var s := g.order[i];
      acts := acts + [Write(id, s, Get(g.lists, s))];
      TakeNext(g.order, i);
      assert g.order[..i + 1][..i] == g.order[..i];
      i := i + 1;
    }
    TakeAll(g.order);
  }

  /** The body of the processing loop. */
  method MigrateFile(idMap: map<string, string>, f: OldFile) returns (acts: seq<Action>)
    ensures acts == FileLog(idMap, f)
  {
    var newId := NewId(idMap, f);
    if newId.None? {
      return [];
    }
    if |f.matches| == 0 {
      return [];
    }
    var g := GroupBySeason(f.matches, newId.value);
    acts := [MakeDir(newId.value)];
    var writes := WriteSeasons(newId.value, g);
    acts := acts + writes + [Unlink(Name(f))];
  }

  /** `migrate_matches` over an id map. */
  method Migrate(idMap: map<string, string>, files: seq<OldFile>, backupExists: bool) returns (log: seq<Action>)
    ensures log == MigrationLog(idMap, files, backupExists)
  {
    if |files| == 0 {
      return [];
    }
    log := if backupExists then [RemoveBackupDir] else [];
    log := log + [MakeBackupDir];
    var copies: seq<Action> := [];
    var i := 0;
    while i < |files|
      invariant 0 <= i <= |files| && copies == Map(files[..i], CopyFn())
    {
      copies := copies + [Copy(Name(files[i]))];
      SnocMap(files, i, CopyFn());
      i := i + 1;
    }
    TakeAll(files);
    log := log + copies;
    var rest: seq<Action> := [];
    i := 0;
    while i < |files|
      invariant 0 <= i <= |files| && rest == ProcessLog(idMap, files[..i])
    {
      var acts := MigrateFile(idMap, files[i]);
      rest := rest + acts;
      TakeNext(files, i);
      assert files[..i + 1][..i] == files[..i];
      i := i + 1;
    }
    log := log + rest;
  }

  /** `migrate_matches` with the competition id map. */
  method MigrateMatches(files: seq<OldFile>, backupExists: bool) returns (log: seq<Action>)
    ensures log == MigrationLog(CompetitionIdMap, files, backupExists)
  {
    log := Migrate(CompetitionIdMap, files, backupExists);
  }
}
