/**
 * The older competition generator (`src/metadata/generate_competitions.py`):
 * the same fold as the repository's `build_competitions`, except that each
 * data path is read as one file (no directory listing) and every entry gets
 * the empty coverage, with no default analysis providers.
 */
module GenerateCompetitions {
  import opened Text
  import opened Sorting
  import opened CompetitionRepository

  function FileFn(disk: Disk): string -> File
  {
    (p: string) => FileAt(disk, p)
  }

  /** The files of the data paths, each path read as a single file. */
  function LegacyFiles(disk: Disk, paths: seq<string>): seq<File>
  {
    Map(paths, FileFn(disk))
  }

  /** One generated entry: the summary of the single-file paths, with the empty coverage. */
  function LegacyOf(disk: Disk, base: Base, parse: string -> Option<int>, iso: int -> string): Competition
  {
    SummaryOf(base, DefaultCoverage, LegacyFiles(disk, base.dataPaths), parse, iso)
  }

  function LegacyFn(disk: Disk, parse: string -> Option<int>, iso: int -> string): Base -> Competition
  {
    (b: Base) => LegacyOf(disk, b, parse, iso)
  }

  /** The generated entries, in the order of the bases. */
  function LegacyBuilt(disk: Disk, bases: seq<Base>, parse: string -> Option<int>, iso: int -> string): seq<Competition>
  {
    Map(bases, LegacyFn(disk, parse, iso))
  }

  /** When no data path names a directory, the two generators read the same files. */
  lemma {:induction false} LegacyFilesAgree(disk: Disk, paths: seq<string>)
    requires forall p :: p in paths ==> p !in disk.dirs
    ensures LegacyFiles(disk, paths) == PathFiles(disk, paths)
  {
    if |paths| > 0 {
      var init := paths[..|paths| - 1];
      assert forall p :: p in init ==> p in paths;
      LegacyFilesAgree(disk, init);
      SnocMap(paths, |paths| - 1, FileFn(disk));
      TakeAll(paths);
      assert paths[|paths| - 1] in paths;
    }
  }

  /**
   * Every generated entry keeps its base and has the empty coverage; when no
   * data path is a directory its teams and summary are the repository's.
   */
  lemma LegacyAgrees(disk: Disk, base: Base, parse: string -> Option<int>, iso: int -> string)
    ensures LegacyOf(disk, base, parse, iso).base == base
    ensures LegacyOf(disk, base, parse, iso).coverage == Coverage(Some([]), Some([]), map[])
    ensures (forall p :: p in base.dataPaths ==> p !in disk.dirs) ==>
      LegacyOf(disk, base, parse, iso).teams == CompetitionOf(disk, base, parse, iso).teams
      && LegacyOf(disk, base, parse, iso).summary == CompetitionOf(disk, base, parse, iso).summary
  {
    if forall p :: p in base.dataPaths ==> p !in disk.dirs {
      LegacyFilesAgree(disk, base.dataPaths);
    }
  }

  /** One entry per base, in order, each its own. */
  lemma LegacyBuiltSpec(disk: Disk, bases: seq<Base>, parse: string -> Option<int>, iso: int -> string)
    ensures |LegacyBuilt(disk, bases, parse, iso)| == |bases|
    ensures forall i :: 0 <= i < |bases| ==> LegacyBuilt(disk, bases, parse, iso)[i] == LegacyOf(disk, bases[i], parse, iso)
  {
    MapSpec(bases, LegacyFn(disk, parse, iso));
  }

  lemma LegacyStep(a: Acc, disk: Disk, paths: seq<string>, j: nat, parse: string -> Option<int>)
    requires j < |paths|
    ensures WithFiles(a, LegacyFiles(disk, paths[..j + 1]), parse)
      == WithFile(WithFiles(a, LegacyFiles(disk, paths[..j]), parse), FileAt(disk, paths[j]), parse)
  {
    var fs := LegacyFiles(disk, paths[..j]);
    SnocMap(paths, j, FileFn(disk));
    assert (fs + [FileAt(disk, paths[j])])[..|fs|] == fs;
  }

  /** The data-path loop: each path loaded as one file. */
  method LegacyPaths(disk: Disk, paths: seq<string>, parse: string -> Option<int>) returns (b: Acc)
    ensures b == WithFiles(Start, LegacyFiles(disk, paths), parse)
  {
    b := Start;
    var j := 0;
    while j < |paths|
      invariant 0 <= j <= |paths| && b == WithFiles(Start, LegacyFiles(disk, paths[..j]), parse)
    {
      b := AddFile(b, FileAt(disk, paths[j]), parse);
      LegacyStep(Start, disk, paths, j, parse);
      j := j + 1;
    }
    TakeAll(paths);
  }

  /** `build_competitions` of the generator. */
  method LegacyBuild(disk: Disk, bases: seq<Base>, parse: string -> Option<int>, iso: int -> string) returns (cs: seq<Competition>)
    ensures cs == LegacyBuilt(disk, bases, parse, iso)
  {
    cs := [];
    var i := 0;
    while i < |bases|
      invariant 0 <= i <= |bases| && cs == LegacyBuilt(disk, bases[..i], parse, iso)
    {
      var acc := LegacyPaths(disk, bases[i].dataPaths, parse);
      var c := Assemble(bases[i], DefaultCoverage, acc, iso);
      cs := cs + [c];
      SnocMap(bases, i, LegacyFn(disk, parse, iso));
      i := i + 1;
    }
    TakeAll(bases);
  }
}
