/**
 * The competition summary (`src/repositories/competition_repository.py`):
 * `load_matches` over a file that may be missing or undecodable, and
 * `build_competitions`, which folds every match file of every data path of
 * each base competition into its teams, seasons, match count, kickoff range
 * and last-modified time, and fills in the default analysis providers.
 * The file system is a value (directories with their sorted `*.json`
 * files, and plain files); `dateutil` parsing is the parameter `parse`
 * (an instant as an integer, `None` when the text does not parse) and
 * `isoformat` the parameter `iso`.
 */
module CompetitionRepository {
  import opened Text
  import opened Sorting

  // ------------------------------------------------------------ files

  /** One element of a match file: a dict, with the fields the summary reads ("" when missing or null), or any other value. */
  datatype Entry = Record(homeTeam: string, awayTeam: string, season: string, kickoff: string, kickoffUtc: string) | NotDict

  /** What `json.load` returns: a list, or some other JSON value. */
  datatype Doc = List(entries: seq<Entry>) | NotList

  /** A path: whether it exists, its decoded content (`None` when it is not valid JSON) and its modification time. */
  datatype File = File(present: bool, decoded: Option<Doc>, mtime: int)

  const Absent := File(false, None, 0)

  /** The directories, each with its `*.json` files in sorted order, and the plain files. */
  datatype Disk = Disk(dirs: map<string, seq<File>>, files: map<string, File>)

  /** `load_matches`: `[]` for a missing file or invalid JSON, else the decoded value. */
  function LoadMatches(f: File): (r: Doc)
    ensures r == List([]) <==> !f.present || f.decoded.None? || f.decoded == Some(List([]))
    ensures r.NotList? <==> f.present && f.decoded == Some(NotList)
    ensures f.present && f.decoded.Some? ==> r == f.decoded.value
  {
    if !f.present || f.decoded.None? then List([]) else f.decoded.value
  }

  function FileAt(disk: Disk, path: string): File
  {
    if path in disk.files then disk.files[path] else Absent
  }

  /** The files one data path stands for: a directory's sorted `*.json` files, else the path itself. */
  function MatchPaths(disk: Disk, path: string): seq<File>
  {
    if path in disk.dirs then disk.dirs[path] else [FileAt(disk, path)]
  }

  /** The files of all data paths, in order. */
  function PathFiles(disk: Disk, paths: seq<string>): seq<File>
  {
    if |paths| == 0 then [] else PathFiles(disk, paths[..|paths| - 1]) + MatchPaths(disk, paths[|paths| - 1])
  }

  // ------------------------------------------------------------ collecting

  /** The concatenation of `f` over `s`, in order. */
  function Collect<T, U>(s: seq<T>, f: T -> seq<U>): seq<U>
  {
    if |s| == 0 then [] else Collect(s[..|s| - 1], f) + f(s[|s| - 1])
  }

  lemma {:induction false} CollectAppend<T, U>(a: seq<T>, b: seq<T>, f: T -> seq<U>)
    ensures Collect(a + b, f) == Collect(a, f) + Collect(b, f)
  {
    if |b| == 0 {
      assert a + b == a;
    } else {
      var b' := b[..|b| - 1];
      assert (a + b)[..|a + b| - 1] == a + b';
      CollectAppend(a, b', f);
      AppendAssoc(Collect(a, f), Collect(b', f), f(b[|b| - 1]));
    }
  }

  lemma CollectSnoc<T, U>(s: seq<T>, i: nat, f: T -> seq<U>)
    requires i < |s|
    ensures Collect(s[..i + 1], f) == Collect(s[..i], f) + f(s[i])
  {
    assert s[..i + 1][..i] == s[..i];
  }

  /** `x` is collected exactly when one element contributes it. */
  lemma {:induction false} CollectMember<T, U>(s: seq<T>, f: T -> seq<U>, x: U)
    ensures x in Collect(s, f) <==> exists i :: 0 <= i < |s| && x in f(s[i])
  {
    if |s| > 0 {
      var init := s[..|s| - 1];
      CollectMember(init, f, x);
      if x in Collect(s, f) && x !in f(s[|s| - 1]) {
        var i :| 0 <= i < |init| && x in f(init[i]);
        assert s[i] == init[i];
      }
      if exists i :: 0 <= i < |s| && x in f(s[i]) {
        var i :| 0 <= i < |s| && x in f(s[i]);
        if i < |init| {
          assert init[i] == s[i];
        }
      }
    }
  }

  lemma AppendAssoc<T>(a: seq<T>, b: seq<T>, c: seq<T>)
    ensures (a + b) + c == a + (b + c)
  {
  }

  // ------------------------------------------------------------ one match

  /** The truthy `home_team` and `away_team` of an entry, in that order. */
  function EntryTeams(e: Entry): seq<string>
  {
    if e.NotDict? then []
    else (if e.homeTeam != "" then [e.homeTeam] else []) + (if e.awayTeam != "" then [e.awayTeam] else [])
  }

  /** The truthy `str(season)` of an entry. */
  function EntrySeasons(e: Entry): seq<string>
  {
    if e.Record? && e.season != "" then [e.season] else []
  }

  /** `parse_datetime`: nothing for an empty value, else the parser's answer. */
  function ParseDatetime(parse: string -> Option<int>, value: string): (r: Option<int>)
    ensures value == "" ==> r.None?
  {
    if value == "" then None else parse(value)
  }

  /** `match.get("kickoff") or match.get("kickoff_utc")` */
  function KickoffOf(e: Entry): string
    requires e.Record?
  {
    if e.kickoff != "" then e.kickoff else e.kickoffUtc
  }

  /** The parsed kickoff of an entry, if any. */
  function EntryDates(parse: string -> Option<int>, e: Entry): seq<int>
  {
    if e.NotDict? then []
    else
      var dt := ParseDatetime(parse, KickoffOf(e));
      if dt.Some? then [dt.value] else []
  }

  function DatesFn(parse: string -> Option<int>): Entry -> seq<int>
  {
    (e: Entry) => EntryDates(parse, e)
  }

  // ------------------------------------------------------------ accumulation

  /**
   * The loop state of one competition: the `teams` and `seasons` sets (as
   * the sequence of their additions), the `dates` list, `match_count` and
   * the running maximum `last_updated`.
   */
  datatype Acc = Acc(teams: seq<string>, seasons: seq<string>, dates: seq<int>, matchCount: nat, lastUpdated: Option<int>)

  const Start := Acc([], [], [], 0, None)

  /** The state after the entry loop of one file. */
  function WithEntries(a: Acc, es: seq<Entry>, parse: string -> Option<int>): Acc
  {
    a.(teams := a.teams + Collect(es, EntryTeams), seasons := a.seasons + Collect(es, EntrySeasons),
      dates := a.dates + Collect(es, DatesFn(parse)))
  }

  /** `max(last_updated, mtime) if last_updated else mtime` */
  function Later(last: Option<int>, t: int): (r: int)
    ensures r >= t && (last.Some? ==> r >= last.value) && (r == t || (last.Some? && r == last.value))
  {
    if last.Some? && last.value > t then last.value else t
  }

  /** The state after one file: a non-list file is skipped; a list adds its length and its entries, and an existing file its mtime. */
  function WithFile(a: Acc, f: File, parse: string -> Option<int>): Acc
  {
    var doc := LoadMatches(f);
    if doc.NotList? then a
    else
      var b := WithEntries(a, doc.entries, parse).(matchCount := a.matchCount + |doc.entries|);
      if f.present then b.(lastUpdated := Some(Later(a.lastUpdated, f.mtime))) else b
  }

  function WithFiles(a: Acc, fs: seq<File>, parse: string -> Option<int>): Acc
  {
    if |fs| == 0 then a else WithFile(WithFiles(a, fs[..|fs| - 1], parse), fs[|fs| - 1], parse)
  }

  /** The entries of a list file, and nothing for any other file. */
  function FileEntries(f: File): seq<Entry>
  {
    var doc := LoadMatches(f);
    if doc.List? then doc.entries else []
  }

  /** The mtime of an existing list file. */
  function FileMtimes(f: File): seq<int>
  {
    if f.present && LoadMatches(f).List? then [f.mtime] else []
  }

  /** The running maximum of `ts`, starting from `last`. */
  function Latest(last: Option<int>, ts: seq<int>): Option<int>
  {
    if |ts| == 0 then last else Some(Later(Latest(last, ts[..|ts| - 1]), ts[|ts| - 1]))
  }

  /** The running maximum from nothing is nothing for no times, else the largest of them. */
  lemma {:induction false} LatestSpec(ts: seq<int>)
    ensures Latest(None, ts).None? <==> |ts| == 0
    ensures Latest(None, ts).Some? ==> Latest(None, ts).value in ts && forall t :: t in ts ==> t <= Latest(None, ts).value
  {
    if |ts| > 0 {
      var init := ts[..|ts| - 1];
      LatestSpec(init);
      SnocMembers(ts);
    }
  }

  lemma WithEntriesAppend(a: Acc, xs: seq<Entry>, ys: seq<Entry>, parse: string -> Option<int>)
    ensures WithEntries(a, xs + ys, parse) == WithEntries(WithEntries(a, xs, parse), ys, parse)
  {
    CollectAppend(xs, ys, EntryTeams);
    CollectAppend(xs, ys, EntrySeasons);
    CollectAppend(xs, ys, DatesFn(parse));
    AppendAssoc(a.teams, Collect(xs, EntryTeams), Collect(ys, EntryTeams));
    AppendAssoc(a.seasons, Collect(xs, EntrySeasons), Collect(ys, EntrySeasons));
    AppendAssoc(a.dates, Collect(xs, DatesFn(parse)), Collect(ys, DatesFn(parse)));
  }

  /** The files' state in closed form: all their entries, their total length, and the latest mtime. */
  function Closed(a: Acc, fs: seq<File>, parse: string -> Option<int>): Acc
  {
    WithEntries(a, Collect(fs, FileEntries), parse).(matchCount := a.matchCount + |Collect(fs, FileEntries)|,
      lastUpdated := Latest(a.lastUpdated, Collect(fs, FileMtimes)))
  }

  lemma ClosedStep(a: Acc, fs: seq<File>, f: File, parse: string -> Option<int>)
    ensures WithFile(Closed(a, fs, parse), f, parse) == Closed(a, fs + [f], parse)
  {
    SnocPrefix(fs, f);
    var es := Collect(fs, FileEntries);
    assert Collect(fs + [f], FileEntries) == es + FileEntries(f);
    assert Collect(fs + [f], FileMtimes) == Collect(fs, FileMtimes) + FileMtimes(f);
    WithEntriesAppend(a, es, FileEntries(f), parse);
    var ms := Collect(fs, FileMtimes);
    if FileMtimes(f) != [] {
      assert ms + FileMtimes(f) == ms + [f.mtime];
      SnocPrefix(ms, f.mtime);
    } else {
      assert ms + FileMtimes(f) == ms;
    }
    if LoadMatches(f).NotList? {
      assert FileEntries(f) == [];
      assert es + FileEntries(f) == es;
      assert WithEntries(WithEntries(a, es, parse), [], parse) == WithEntries(a, es, parse);
    }
  }

  /** Folding the files one by one is the closed form. */
  lemma {:induction false} WithFilesClosed(a: Acc, fs: seq<File>, parse: string -> Option<int>)
    ensures WithFiles(a, fs, parse) == Closed(a, fs, parse)
  {
    if |fs| == 0 {
      assert WithEntries(a, [], parse) == a;
    } else {
      var init := fs[..|fs| - 1];
      WithFilesClosed(a, init, parse);
      ClosedStep(a, init, fs[|fs| - 1], parse);
      assert init + [fs[|fs| - 1]] == fs;
    }
  }

  lemma {:induction false} WithFilesAppend(a: Acc, xs: seq<File>, ys: seq<File>, parse: string -> Option<int>)
    ensures WithFiles(a, xs + ys, parse) == WithFiles(WithFiles(a, xs, parse), ys, parse)
  {
    if |ys| == 0 {
      assert xs + ys == xs;
    } else {
      var ys' := ys[..|ys| - 1];
      assert (xs + ys)[..|xs + ys| - 1] == xs + ys';
      WithFilesAppend(a, xs, ys', parse);
    }
  }

  // ------------------------------------------------------------ the summary

  datatype DateRange = DateRange(start: string, end: string)

  datatype Summary = Summary(matchCount: nat, seasons: seq<string>, dateRange: DateRange, lastUpdated: string)

  datatype Provider = Provider(name: string, officialSource: string)

  datatype Region = Region(region: string, providers: seq<string>, officialSource: string)

  /** A coverage dict: its two list keys when present, and its other keys (such as `notes`). */
  datatype Coverage = Coverage(broadcastRegions: Option<seq<Region>>, analysisProviders: Option<seq<Provider>>, extra: map<string, string>)

  /** A base competition: its id, its `data_paths` (`[]` when missing), its coverage, and every other key. */
  datatype Base = Base(id: string, dataPaths: seq<string>, coverage: Option<Coverage>, fields: map<string, string>)

  /** `{**base, "coverage": ..., "teams": ..., "data_summary": ...}` */
  datatype Competition = Competition(base: Base, coverage: Coverage, teams: seq<string>, summary: Summary)

  const GlobalAnalysisProviders: seq<Provider> := [
    Provider("ESPN Rugby", "https://www.espn.com/rugby/"),
    Provider("RugbyPass", "https://www.rugbypass.com/"),
    Provider("RugbyPass TV", "https://info.rugbypass.tv/")]

  const EmptyCoverage := Coverage(None, None, map[])
  const DefaultCoverage := Coverage(Some([]), Some([]), map[])

  /** `base.get("coverage") or {...}`, then the providers default when that list is missing or empty. */
  function CoverageOf(base: Base): (r: Coverage)
    ensures r.analysisProviders.Some? && |r.analysisProviders.value| > 0
    ensures base.coverage.None? || base.coverage == Some(EmptyCoverage) ==> r == DefaultCoverage.(analysisProviders := Some(GlobalAnalysisProviders))
    ensures base.coverage.Some? && base.coverage != Some(EmptyCoverage) ==>
      r.broadcastRegions == base.coverage.value.broadcastRegions && r.extra == base.coverage.value.extra
      && r.analysisProviders == if base.coverage.value.analysisProviders in {None, Some([])} then Some(GlobalAnalysisProviders)
        else base.coverage.value.analysisProviders
  {
    var c := if base.coverage.None? || base.coverage.value == EmptyCoverage then DefaultCoverage else base.coverage.value;
    if c.analysisProviders.None? || c.analysisProviders == Some([]) then c.(analysisProviders := Some(GlobalAnalysisProviders)) else c
  }

  predicate IntLe(a: int, b: int) { a <= b }

  lemma IntLeTotalPreorder()
    ensures TotalPreorder(IntLe)
  {
  }

  /** The first and last of the sorted kickoffs, or two empty strings. */
  function DateRangeOf(dates: seq<int>, iso: int -> string): DateRange
  {
    if |dates| == 0 then DateRange("", "")
    else
      var s := SortBy(dates, IntLe);
      DateRange(iso(s[0]), iso(s[|s| - 1]))
  }

  /** The ends of the range are the earliest and the latest kickoff. */
  lemma DateRangeSpec(dates: seq<int>, iso: int -> string)
    ensures |dates| == 0 ==> DateRangeOf(dates, iso) == DateRange("", "")
    ensures |dates| > 0 ==> exists lo, hi :: (lo in dates && hi in dates
      && (forall d :: d in dates ==> lo <= d <= hi) && DateRangeOf(dates, iso) == DateRange(iso(lo), iso(hi)))
  {
    if |dates| > 0 {
      var s := SortBy(dates, IntLe);
      IntLeTotalPreorder();
      SortBySorted(dates, IntLe);
      SortByPerm(dates, IntLe);
      SortedEnds(s);
      var lo, hi := s[0], s[|s| - 1];
      forall d | d in dates ensures d in s {
        assert d in multiset(dates);
      }
      assert lo in multiset(s) && hi in multiset(s);
      assert DateRangeOf(dates, iso) == DateRange(iso(lo), iso(hi));
    }
  }

  /** A sorted list of kickoffs starts with its least and ends with its greatest. */
  lemma SortedEnds(s: seq<int>)
    requires |s| > 0 && SortedBy(s, IntLe)
    ensures forall d :: d in s ==> s[0] <= d <= s[|s| - 1]
  {
    forall d | d in s ensures s[0] <= d <= s[|s| - 1] {
      var k :| 0 <= k < |s| && s[k] == d;
      assert IntLe(s[0], s[k]) && IntLe(s[k], s[|s| - 1]);
    }
  }

  /**
   * `{**base, "coverage": coverage, "teams": sorted(teams), "data_summary": ...}`
   * for the competition whose match files are `fs`.
   */
  function SummaryOf(base: Base, coverage: Coverage, fs: seq<File>, parse: string -> Option<int>, iso: int -> string): Competition
  {
    var a := WithFiles(Start, fs, parse);
    Competition(base, coverage, SortedDistinct(a.teams),
      Summary(a.matchCount, SortedDistinct(a.seasons), DateRangeOf(a.dates, iso),
        if a.lastUpdated.Some? then iso(a.lastUpdated.value) else ""))
  }

  /** The summary entry of one base competition. */
  function CompetitionOf(disk: Disk, base: Base, parse: string -> Option<int>, iso: int -> string): Competition
  {
    SummaryOf(base, CoverageOf(base), PathFiles(disk, base.dataPaths), parse, iso)
  }

  /** The loop state of a competition in closed form. */
  lemma StartClosed(fs: seq<File>, parse: string -> Option<int>)
    ensures var a, es := WithFiles(Start, fs, parse), Collect(fs, FileEntries);
      a.teams == Collect(es, EntryTeams) && a.seasons == Collect(es, EntrySeasons) && a.dates == Collect(es, DatesFn(parse))
      && a.matchCount == |es| && a.lastUpdated == Latest(None, Collect(fs, FileMtimes))
  {
    WithFilesClosed(Start, fs, parse);
    var es := Collect(fs, FileEntries);
    assert [] + Collect(es, EntryTeams) == Collect(es, EntryTeams);
    assert [] + Collect(es, EntrySeasons) == Collect(es, EntrySeasons);
    assert [] + Collect(es, DatesFn(parse)) == Collect(es, DatesFn(parse));
  }

  /** `teams` is sorted, without repeats, and holds exactly the truthy home and away names of the dict entries. */
  lemma SummaryTeams(base: Base, coverage: Coverage, fs: seq<File>, parse: string -> Option<int>, iso: int -> string)
    ensures var c, es := SummaryOf(base, coverage, fs, parse, iso), Collect(fs, FileEntries);
      StrictlyIncreasing(c.teams)
      && forall x :: x in c.teams <==> exists i :: 0 <= i < |es| && es[i].Record? && x != "" && (x == es[i].homeTeam || x == es[i].awayTeam)
  {
    StartClosed(fs, parse);
    TeamsSorted(Collect(fs, FileEntries));
  }

  lemma TeamsSorted(es: seq<Entry>)
    ensures var t := SortedDistinct(Collect(es, EntryTeams));
      StrictlyIncreasing(t)
      && forall x :: x in t <==> exists i :: 0 <= i < |es| && es[i].Record? && x != "" && (x == es[i].homeTeam || x == es[i].awayTeam)
  {
    SortedDistinctSpec(Collect(es, EntryTeams));
    forall x {
      TeamsMember(es, x);
    }
  }

  lemma SeasonsSorted(es: seq<Entry>)
    ensures var t := SortedDistinct(Collect(es, EntrySeasons));
      StrictlyIncreasing(t) && forall x :: x in t <==> exists i :: 0 <= i < |es| && es[i].Record? && x != "" && x == es[i].season
  {
    SortedDistinctSpec(Collect(es, EntrySeasons));
    forall x {
      SeasonsMember(es, x);
    }
  }

  lemma TeamsMember(es: seq<Entry>, x: string)
    ensures x in Collect(es, EntryTeams) <==> exists i :: 0 <= i < |es| && es[i].Record? && x != "" && (x == es[i].homeTeam || x == es[i].awayTeam)
  {
    CollectMember(es, EntryTeams, x);
    forall i | 0 <= i < |es|
      ensures x in EntryTeams(es[i]) <==> es[i].Record? && x != "" && (x == es[i].homeTeam || x == es[i].awayTeam)
    {
    }
  }

  lemma SeasonsMember(es: seq<Entry>, x: string)
    ensures x in Collect(es, EntrySeasons) <==> exists i :: 0 <= i < |es| && es[i].Record? && x != "" && x == es[i].season
  {
    CollectMember(es, EntrySeasons, x);
    forall i | 0 <= i < |es|
      ensures x in EntrySeasons(es[i]) <==> es[i].Record? && x != "" && x == es[i].season
    {
    }
  }

  /** `seasons` is sorted, without repeats, and holds exactly the truthy seasons of the dict entries. */
  lemma SummarySeasons(base: Base, coverage: Coverage, fs: seq<File>, parse: string -> Option<int>, iso: int -> string)
    ensures var c, es := SummaryOf(base, coverage, fs, parse, iso), Collect(fs, FileEntries);
      StrictlyIncreasing(c.summary.seasons)
      && forall x :: x in c.summary.seasons <==> exists i :: 0 <= i < |es| && es[i].Record? && x != "" && x == es[i].season
  {
    StartClosed(fs, parse);
    SeasonsSorted(Collect(fs, FileEntries));
  }

  /** `match_count` counts every element of every list file, dicts or not; other files add nothing. */
  lemma {:induction false} SummaryCount(base: Base, coverage: Coverage, fs: seq<File>, parse: string -> Option<int>, iso: int -> string)
    ensures SummaryOf(base, coverage, fs, parse, iso).summary.matchCount == |Collect(fs, FileEntries)|
    ensures forall f :: f in fs ==> |FileEntries(f)| == if LoadMatches(f).List? then |LoadMatches(f).entries| else 0
  {
    StartClosed(fs, parse);
  }

  /** The kickoff range spans the earliest and latest parsed kickoff, or is empty when none parses. */
  lemma SummaryDates(base: Base, coverage: Coverage, fs: seq<File>, parse: string -> Option<int>, iso: int -> string)
    ensures var r, ds := SummaryOf(base, coverage, fs, parse, iso).summary.dateRange, Collect(Collect(fs, FileEntries), DatesFn(parse));
      (|ds| == 0 ==> r == DateRange("", ""))
      && (|ds| > 0 ==> exists lo, hi :: (lo in ds && hi in ds && (forall d :: d in ds ==> lo <= d <= hi) && r == DateRange(iso(lo), iso(hi))))
  {
    StartClosed(fs, parse);
    DateRangeSpec(Collect(Collect(fs, FileEntries), DatesFn(parse)), iso);
  }

  /** `last_updated` is the ISO form of the newest mtime of an existing list file, or "" when there is none. */
  lemma SummaryLastUpdated(base: Base, coverage: Coverage, fs: seq<File>, parse: string -> Option<int>, iso: int -> string)
    ensures var u, ms := SummaryOf(base, coverage, fs, parse, iso).summary.lastUpdated, Collect(fs, FileMtimes);
      (|ms| == 0 ==> u == "")
      && (|ms| > 0 ==> exists m :: m in ms && (forall t :: t in ms ==> t <= m) && u == iso(m))
  {
    StartClosed(fs, parse);
    LatestSpec(Collect(fs, FileMtimes));
  }

  // ------------------------------------------------------------ the loops

  /** One dict entry: its truthy names and season, and its parsed kickoff. */
  method AddEntry(a: Acc, e: Entry, parse: string -> Option<int>) returns (b: Acc)
    ensures b == a.(teams := a.teams + EntryTeams(e), seasons := a.seasons + EntrySeasons(e), dates := a.dates + DatesFn(parse)(e))
  {
    b := a;
    if e.NotDict? {
      assert a.teams + [] == a.teams && a.seasons + [] == a.seasons && a.dates + [] == a.dates;
      return;
    }
    var teams := a.teams;
    if e.homeTeam != "" {
      teams := teams + [e.homeTeam];
    }
    if e.awayTeam != "" {
      teams := teams + [e.awayTeam];
    }
    AppendAssoc(a.teams, if e.homeTeam != "" then [e.homeTeam] else [], if e.awayTeam != "" then [e.awayTeam] else []);
    var seasons := a.seasons;
    if e.season != "" {
      seasons := seasons + [e.season];
    }
    var kickoff := if e.kickoff != "" then e.kickoff else e.kickoffUtc;
    var dt := ParseDatetime(parse, kickoff);
    var dates := a.dates;
    if dt.Some? {
      dates := dates + [dt.value];
    }
    b := a.(teams := teams, seasons := seasons, dates := dates);
  }

  lemma EntriesStep(a: Acc, es: seq<Entry>, i: nat, parse: string -> Option<int>)
    requires i < |es|
    ensures var b := WithEntries(a, es[..i], parse);
      WithEntries(a, es[..i + 1], parse)
        == b.(teams := b.teams + EntryTeams(es[i]), seasons := b.seasons + EntrySeasons(es[i]), dates := b.dates + DatesFn(parse)(es[i]))
  {
    CollectSnoc(es, i, EntryTeams);
    CollectSnoc(es, i, EntrySeasons);
    CollectSnoc(es, i, DatesFn(parse));
    AppendAssoc(a.teams, Collect(es[..i], EntryTeams), EntryTeams(es[i]));
    AppendAssoc(a.seasons, Collect(es[..i], EntrySeasons), EntrySeasons(es[i]));
    AppendAssoc(a.dates, Collect(es[..i], DatesFn(parse)), DatesFn(parse)(es[i]));
  }

  /** The entry loop of one file. */
  method AddEntries(a: Acc, es: seq<Entry>, parse: string -> Option<int>) returns (b: Acc)
    ensures b == WithEntries(a, es, parse)
  {
    b := a;
    assert WithEntries(a, es[..0], parse) == a;
    var i := 0;
    while i < |es|
      invariant 0 <= i <= |es| && b == WithEntries(a, es[..i], parse)
    {
      b := AddEntry(b, es[i], parse);
      EntriesStep(a, es, i, parse);
      i := i + 1;
    }
    TakeAll(es);
  }

  /** One path of the file loop. */
  method AddFile(a: Acc, f: File, parse: string -> Option<int>) returns (b: Acc)
    ensures b == WithFile(a, f, parse)
  {
    var doc := LoadMatches(f);
    if doc.NotList? {
      return a;
    }
    b := a.(matchCount := a.matchCount + |doc.entries|);
    b := AddEntries(b, doc.entries, parse);
    if f.present {
      var last := if b.lastUpdated.Some? && b.lastUpdated.value > f.mtime then b.lastUpdated.value else f.mtime;
      b := b.(lastUpdated := Some(last));
    }
  }

  /** The file loop of one data path. */
  method AddFiles(a: Acc, fs: seq<File>, parse: string -> Option<int>) returns (b: Acc)
    ensures b == WithFiles(a, fs, parse)
  {
    b := a;
    var i := 0;
    while i < |fs|
      invariant 0 <= i <= |fs| && b == WithFiles(a, fs[..i], parse)
    {
      b := AddFile(b, fs[i], parse);
      assert fs[..i + 1][..i] == fs[..i];
      i := i + 1;
    }
    TakeAll(fs);
  }

  lemma PathsStep(a: Acc, disk: Disk, paths: seq<string>, i: nat, parse: string -> Option<int>)
    requires i < |paths|
    ensures WithFiles(a, PathFiles(disk, paths[..i + 1]), parse)
      == WithFiles(WithFiles(a, PathFiles(disk, paths[..i]), parse), MatchPaths(disk, paths[i]), parse)
  {
    assert paths[..i + 1][..i] == paths[..i];
    WithFilesAppend(a, PathFiles(disk, paths[..i]), MatchPaths(disk, paths[i]), parse);
  }

  /** The data-path loop of one competition. */
  method AddPaths(a: Acc, disk: Disk, paths: seq<string>, parse: string -> Option<int>) returns (b: Acc)
    ensures b == WithFiles(a, PathFiles(disk, paths), parse)
  {
    b := a;
    var i := 0;
    while i < |paths|
      invariant 0 <= i <= |paths| && b == WithFiles(a, PathFiles(disk, paths[..i]), parse)
    {
      var path := paths[i];
      var files := if path in disk.dirs then disk.dirs[path] else [FileAt(disk, path)];
      b := AddFiles(b, files, parse);
      PathsStep(a, disk, paths, i, parse);
      i := i + 1;
    }
    TakeAll(paths);
  }

  /** The end of the competition loop body: the date range, the summary and the entry, from the loop state. */
  method Assemble(base: Base, coverage: Coverage, acc: Acc, iso: int -> string) returns (c: Competition)
    ensures c == Competition(base, coverage, SortedDistinct(acc.teams),
      Summary(acc.matchCount, SortedDistinct(acc.seasons), DateRangeOf(acc.dates, iso),
        if acc.lastUpdated.Some? then iso(acc.lastUpdated.value) else ""))
  {
    var dateRange := DateRange("", "");
    if |acc.dates| > 0 {
      var sorted := SortBy(acc.dates, IntLe);
      dateRange := DateRange(iso(sorted[0]), iso(sorted[|sorted| - 1]));
    }
    var lastUpdated := if acc.lastUpdated.Some? then iso(acc.lastUpdated.value) else "";
    c := Competition(base, coverage, SortedDistinct(acc.teams),
      Summary(acc.matchCount, SortedDistinct(acc.seasons), dateRange, lastUpdated));
  }

  /** The body of the competition loop: accumulate, default the coverage, then assemble the entry. */
  method Summarise(disk: Disk, base: Base, parse: string -> Option<int>, iso: int -> string) returns (c: Competition)
    ensures c == CompetitionOf(disk, base, parse, iso)
  {
    var acc := AddPaths(Start, disk, base.dataPaths, parse);
    var coverage := if base.coverage.None? || base.coverage.value == EmptyCoverage then DefaultCoverage else base.coverage.value;
    if coverage.analysisProviders.None? || coverage.analysisProviders == Some([]) {
      coverage := coverage.(analysisProviders := Some(GlobalAnalysisProviders));
    }
    c := Assemble(base, coverage, acc, iso);
  }

  function CompetitionFn(disk: Disk, parse: string -> Option<int>, iso: int -> string): Base -> Competition
  {
    (b: Base) => CompetitionOf(disk, b, parse, iso)
  }

  /** The entries of the base competitions, in order. */
  function Built(disk: Disk, bases: seq<Base>, parse: string -> Option<int>, iso: int -> string): seq<Competition>
  {
    Map(bases, CompetitionFn(disk, parse, iso))
  }

  /** One entry per base competition, in the same order, each that competition's own. */
  lemma BuiltSpec(disk: Disk, bases: seq<Base>, parse: string -> Option<int>, iso: int -> string)
    ensures |Built(disk, bases, parse, iso)| == |bases|
    ensures forall i :: 0 <= i < |bases| ==> Built(disk, bases, parse, iso)[i] == CompetitionOf(disk, bases[i], parse, iso)
  {
    MapSpec(bases, CompetitionFn(disk, parse, iso));
  }

  /** `build_competitions`: the competition loop. */
  method BuildCompetitions(disk: Disk, bases: seq<Base>, parse: string -> Option<int>, iso: int -> string) returns (cs: seq<Competition>)
    ensures cs == Built(disk, bases, parse, iso)
  {
    cs := [];
    var i := 0;
    while i < |bases|
      invariant 0 <= i <= |bases| && cs == Built(disk, bases[..i], parse, iso)
    {
      var c := Summarise(disk, bases[i], parse, iso);
      cs := cs + [c];
      SnocMap(bases, i, CompetitionFn(disk, parse, iso));
      i := i + 1;
    }
    TakeAll(bases);
  }

  /** Each entry keeps its base's fields, and a base whose coverage lists no analysis provider gets the global ones. */
  lemma BuiltKeepsBase(disk: Disk, base: Base, parse: string -> Option<int>, iso: int -> string)
    ensures CompetitionOf(disk, base, parse, iso).base == base
    ensures base.coverage.None? || base.coverage.value.analysisProviders in {None, Some([])} ==>
      CompetitionOf(disk, base, parse, iso).coverage.analysisProviders == Some(GlobalAnalysisProviders)
  {
  }
}
