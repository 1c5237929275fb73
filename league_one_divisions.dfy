/**
 * `src/collectors/domestic/league_one_divisions.py`: the League One scraper
 * that splits the season into Division 1, 2 and 3. Each match is given a
 * division from its teams' fixed division lists (placeholder names count as
 * Division 1) or from a division read near its container; it then goes to
 * that division's list with competition id `jrlo-divN`, or to the unknown
 * list, and the team ids of the division lists are resolved against their
 * division's competition. The page reading, the kickoff string and the
 * broadcaster list are the ones of `LeagueOne`.
 */
module LeagueOneDivisions {
  import opened Text
  import opened BaseMatches
  import BaseNames
  import BC = BaseCatalog
  import LeagueOne

  // ------------------------------------------------------------- the season

  /**
   * `season = str(int(year) + 1)`: the files are named after the season the
   * scrape year's December opens, which is the year its last months fall in,
   * so `now` lies between that season's opening December and the next one.
   */
  function SaveSeason(year: int, month: int): (r: int)
    requires 1 <= month <= 12
    ensures LeagueOne.MonthIndex(r - 1, 12) <= LeagueOne.MonthIndex(year, month) < LeagueOne.MonthIndex(r, 12)
  {
    LeagueOne.ScrapeYear(year, month) + 1
  }

  // ------------------------------------------------------------- divisions

  const Division1Teams: set<string> := {
    "埼玉ワイルドナイツ", "東京サンゴリアス", "クボタスピアーズ船橋・東京ベイ",
    "東芝ブレイブルーパス東京", "トヨタヴェルブリッツ", "ブラックラムズ東京",
    "コベルコ神戸スティーラーズ", "横浜キヤノンイーグルス", "静岡ブルーレヴズ",
    "花園近鉄ライナーズ", "三重ホンダヒート", "レッドハリケーンズ大阪",
    "三菱重工相模原ダイナボアーズ", "浦安D-Rocks"
  }

  const Division2Teams: set<string> := {
    "グリーンロケッツ東葛", "ルリーロ福岡", "クリタウォーターガッシュ昭島",
    "ヤクルトレビンズ戸田", "スカイアクティブズ広島", "九州電力キューデンヴォルテクス",
    "日本製鉄釜石シーウェイブス", "日野レッドドルフィンズ",
    "豊田自動織機シャトルズ愛知", "清水建設江東ブルーシャークス"
  }

  const Division3Teams: set<string> := {
    "NTTドコモレッドハリケーンズ大阪", "NTT-Com SHINING ARCS",
    "中国電力レッドレグリオンズ", "ながと BLUE ANGELS", "狭山セコムラガッツ"
  }

  predicate IsDivision(d: string) { d == "div1" || d == "div2" || d == "div3" }

  /** `_get_division`: the first of the three lists that holds the name, or "". */
  function GetDivision(name: string): (d: string)
    ensures d == "" || IsDivision(d)
    ensures d == "" <==> name !in Division1Teams && name !in Division2Teams && name !in Division3Teams
    ensures d == "div1" <==> name in Division1Teams
    ensures d == "div2" <==> name !in Division1Teams && name in Division2Teams
  {
    if name in Division1Teams then "div1"
    else if name in Division2Teams then "div2"
    else if name in Division3Teams then "div3"
    else ""
  }

  /** `_infer_division_from_text`: the first division whose Japanese or short label occurs. */
  function InferDivisionFromText(text: string): (d: string)
    ensures d == "" || IsDivision(d)
    ensures d == "" <==> text == "" || (!Contains(text, "ディビジョン1") && !Contains(text, "D1")
                                       && !Contains(text, "ディビジョン2") && !Contains(text, "D2")
                                       && !Contains(text, "ディビジョン3") && !Contains(text, "D3"))
    ensures d == "div1" <==> text != "" && (Contains(text, "ディビジョン1") || Contains(text, "D1"))
  {
    if text == "" then ""
    else if Contains(text, "ディビジョン1") || Contains(text, "D1") then "div1"
    else if Contains(text, "ディビジョン2") || Contains(text, "D2") then "div2"
    else if Contains(text, "ディビジョン3") || Contains(text, "D3") then "div3"
    else ""
  }

  /** `_is_placeholder_team`: a league-stage or knockout label rather than a team. */
  predicate IsPlaceholderTeam(name: string)
  {
    name != "" && (Contains(name, "リーグ戦") || Contains(name, "準々決勝") || Contains(name, "準決勝") || Contains(name, "決勝"))
  }

  // --------------------------------------------------------- classification

  /** A scraped match with the division `_extract_matches` read near its container ("" when none). */
  datatype DivMatch = DivMatch(m: Match, division: string)

  /** The division of one side before the match-level override: its list, else div1 for a placeholder. */
  function SideDivision(name: string): (d: string)
    ensures d == "" || IsDivision(d)
  {
    var d := GetDivision(name);
    if d == "" && IsPlaceholderTeam(name) then "div1" else d
  }

  /** The home and away divisions after the override and the one-sided copy. */
  function Divisions(x: DivMatch): (string, string)
  {
    var h := SideDivision(x.m.homeTeam);
    var a := SideDivision(x.m.awayTeam);
    if x.division != "" then (x.division, x.division)
    else
      var a1 := if h != "" && a == "" then h else a;
      var h1 := if a1 != "" && h == "" then a1 else h;
      (h1, a1)
  }

  /**
   * A match-level division wins for both sides; otherwise a division known
   * for only one side is copied to the other, so both are known or neither.
   */
  lemma DivisionsSpec(x: DivMatch)
    ensures var (h, a) := Divisions(x);
      var sh := SideDivision(x.m.homeTeam);
      var sa := SideDivision(x.m.awayTeam);
      (x.division != "" ==> h == x.division && a == x.division)
      && (x.division == "" ==>
            (sh != "" ==> h == sh) && (sa != "" ==> a == sa)
            && (sh == "" ==> h == sa && a == sa)
            && (sa == "" ==> h == sh && a == sh))
  {
  }

  /** Where a match goes. */
  datatype Bucket = Div1 | Div2 | Div3 | Unknown | Dropped

  function BucketOf(d: string): Bucket
  {
    if d == "div1" then Div1 else if d == "div2" then Div2 else if d == "div3" then Div3 else Dropped
  }

  /** `jrlo-{div}` */
  function CompetitionOf(d: string): string { "jrlo-" + d }

  /**
   * One step of the loop of src/collectors/domestic/league_one_divisions.py:149-196: the bucket, whether it is a
   * cross-division match, and the match with its competition id set when
   * both divisions are known. When both sides name the same division and
   * it is not one of the three lists (possible only through the match-level
   * value), the match is left unchanged and kept in no list; two different
   * known divisions make a cross-division match whose competition follows
   * the home side, whatever that division is.
   */
  function Classify(x: DivMatch): (r: (Bucket, bool, DivMatch))
  {
    var (h, a) := Divisions(x);
    if h != "" && a != "" && h == a then
      if IsDivision(h) then (BucketOf(h), false, x.(m := x.m.(competitionId := CompetitionOf(h)))) else (Dropped, false, x)
    else if h != "" && a != "" then (BucketOf(h), true, x.(m := x.m.(competitionId := CompetitionOf(h))))
    else (Unknown, false, x)
  }

  /**
   * Without a match-level division, a match is unknown exactly when neither
   * team is in a division list or is a placeholder, and it is a
   * cross-division match exactly when both sides are known and differ; it
   * then follows the home side. Only the competition id can change.
   */
  lemma ClassifySpec(x: DivMatch)
    ensures var (b, cross, y) := Classify(x);
      var sh := SideDivision(x.m.homeTeam);
      var sa := SideDivision(x.m.awayTeam);
      y.division == x.division && y.m.(competitionId := x.m.competitionId) == x.m
      && (x.division == "" ==>
            (b == Unknown <==> sh == "" && sa == "")
            && (cross <==> sh != "" && sa != "" && sh != sa)
            && (sh != "" ==> b == BucketOf(sh) && y.m.competitionId == CompetitionOf(sh)))
      && (x.division != "" ==> (!cross && b != Unknown
            && (IsDivision(x.division) ==> b == BucketOf(x.division) && y.m.competitionId == CompetitionOf(x.division))))
  {
    DivisionsSpec(x);
  }

  /** The four lists of the result and the log-only cross-division list. */
  datatype Lists = Lists(div1: seq<DivMatch>, div2: seq<DivMatch>, div3: seq<DivMatch>, unknown: seq<DivMatch>, cross: seq<DivMatch>)

  function Add(l: Lists, b: Bucket, cross: bool, y: DivMatch): Lists
  {
    var l1 := if cross then l.(cross := l.cross + [y]) else l;
    match b
    case Div1 => l1.(div1 := l1.div1 + [y])
    case Div2 => l1.(div2 := l1.div2 + [y])
    case Div3 => l1.(div3 := l1.div3 + [y])
    case Unknown => l1.(unknown := l1.unknown + [y])
    case Dropped => l1
  }

  /** The whole classification loop, in match order. */
  function ClassifyAll(ms: seq<DivMatch>): Lists
  {
    if |ms| == 0 then Lists([], [], [], [], [])
    else
      var (b, cross, y) := Classify(ms[|ms| - 1]);
      Add(ClassifyAll(ms[..|ms| - 1]), b, cross, y)
  }

  function DroppedCount(ms: seq<DivMatch>): nat
  {
    if |ms| == 0 then 0 else DroppedCount(ms[..|ms| - 1]) + (if Classify(ms[|ms| - 1]).0 == Dropped then 1 else 0)
  }

  /** What the lists rely on: a division list's match carries its competition, and only a kept or dropped match is cross. */
  lemma ClassifyBuckets(x: DivMatch)
    ensures var (b, cross, y) := Classify(x);
      (b == Div1 ==> y.m.competitionId == "jrlo-div1")
      && (b == Div2 ==> y.m.competitionId == "jrlo-div2")
      && (b == Div3 ==> y.m.competitionId == "jrlo-div3")
      && (cross ==> b != Unknown)
  {
  }

  /** Every match lands in exactly one list unless dropped, and the cross list holds no unknown match. */
  lemma {:induction false} ClassifyAllSizes(ms: seq<DivMatch>)
    ensures var l := ClassifyAll(ms);
      |l.div1| + |l.div2| + |l.div3| + |l.unknown| + DroppedCount(ms) == |ms|
      && |l.cross| + |l.unknown| <= |ms|
  {
    if |ms| > 0 {
      ClassifyAllSizes(ms[..|ms| - 1]);
      ClassifyBuckets(ms[|ms| - 1]);
    }
  }

  /** Every match of a division list carries that division's competition id. */
  lemma {:induction false} ClassifyAllCompetitions(ms: seq<DivMatch>)
    ensures var l := ClassifyAll(ms);
      (forall y :: y in l.div1 ==> y.m.competitionId == "jrlo-div1")
      && (forall y :: y in l.div2 ==> y.m.competitionId == "jrlo-div2")
      && (forall y :: y in l.div3 ==> y.m.competitionId == "jrlo-div3")
  {
    if |ms| > 0 {
      ClassifyAllCompetitions(ms[..|ms| - 1]);
      ClassifyBuckets(ms[|ms| - 1]);
    }
  }

  /** The loop of src/collectors/domestic/league_one_divisions.py:149-196. */
  method ClassifyMatches(ms: seq<DivMatch>) returns (l: Lists)
    ensures l == ClassifyAll(ms)
  {
    l := Lists([], [], [], [], []);
    var i := 0;
    while i < |ms|
      invariant 0 <= i <= |ms|
      invariant l == ClassifyAll(ms[..i])
    {
      assert ms[..i + 1][..i] == ms[..i];
      var x := ms[i];
      var (h, a) := Divisions(x);
      if h != "" && a != "" && h == a {
        if h == "div1" {
          l := l.(div1 := l.div1 + [x.(m := x.m.(competitionId := "jrlo-" + h))]);
        } else if h == "div2" {
          l := l.(div2 := l.div2 + [x.(m := x.m.(competitionId := "jrlo-" + h))]);
        } else if h == "div3" {
          l := l.(div3 := l.div3 + [x.(m := x.m.(competitionId := "jrlo-" + h))]);
        }
      } else if h != "" && a != "" {
        var y := x.(m := x.m.(competitionId := "jrlo-" + h));
        l := l.(cross := l.cross + [y]);
        if h == "div1" {
          l := l.(div1 := l.div1 + [y]);
        } else if h == "div2" {
          l := l.(div2 := l.div2 + [y]);
        } else if h == "div3" {
          l := l.(div3 := l.div3 + [y]);
        }
      } else {
        l := l.(unknown := l.unknown + [x]);
      }
      i := i + 1;
    }
    assert ms[..i] == ms;
  }

  // ---------------------------------------------------------------- team ids

  /**
   * The loop of src/collectors/domestic/league_one_divisions.py:199-212 over div1 + div2 + div3: a placeholder side
   * gets "", any other side the id `resolve(catalog, name, competition)`
   * returns, home before away, the catalog threaded through (it is
   * `_resolve_team_id`, which may register teams).
   */
  function AssignIds(c: BC.Catalog, ms: seq<DivMatch>, resolve: (BC.Catalog, string, string) -> (string, BC.Catalog)): (r: (seq<DivMatch>, BC.Catalog))
    ensures |r.0| == |ms|
  {
    if |ms| == 0 then ([], c)
    else
      var (prev, c1) := AssignIds(c, ms[..|ms| - 1], resolve);
      var x := ms[|ms| - 1];
      var comp := x.m.competitionId;
      var (h, c2) := if IsPlaceholderTeam(x.m.homeTeam) then ("", c1) else resolve(c1, x.m.homeTeam, comp);
      var (a, c3) := if IsPlaceholderTeam(x.m.awayTeam) then ("", c2) else resolve(c2, x.m.awayTeam, comp);
      (prev + [x.(m := x.m.(homeTeamId := h, awayTeamId := a))], c3)
  }

  /** Placeholder sides always end with "", and only the two team ids change. */
  lemma {:induction false} AssignIdsSpec(c: BC.Catalog, ms: seq<DivMatch>, resolve: (BC.Catalog, string, string) -> (string, BC.Catalog))
    ensures var (r, _) := AssignIds(c, ms, resolve);
      forall i :: 0 <= i < |ms| ==>
        r[i].division == ms[i].division
        && r[i].m.(homeTeamId := ms[i].m.homeTeamId, awayTeamId := ms[i].m.awayTeamId) == ms[i].m
        && (IsPlaceholderTeam(ms[i].m.homeTeam) ==> r[i].m.homeTeamId == "")
        && (IsPlaceholderTeam(ms[i].m.awayTeam) ==> r[i].m.awayTeamId == "")
  {
    if |ms| > 0 {
      var init := ms[..|ms| - 1];
      AssignIdsSpec(c, init, resolve);
      var r := AssignIds(c, ms, resolve).0;
      assert r[..|init|] == AssignIds(c, init, resolve).0;
      forall i | 0 <= i < |init| ensures ms[i] == init[i] && r[i] == AssignIds(c, init, resolve).0[i] { }
    }
  }

  /** A resolver that never changes the catalog. */
  ghost predicate ReadOnly(resolve: (BC.Catalog, string, string) -> (string, BC.Catalog))
  {
    forall c: BC.Catalog, n: string, k: string :: resolve(c, n, k).1 == c
  }

  /** With a read-only resolver each non-placeholder id is resolved against the starting catalog, and the catalog is unchanged. */
  lemma {:induction false} AssignIdsReadOnly(c: BC.Catalog, ms: seq<DivMatch>, resolve: (BC.Catalog, string, string) -> (string, BC.Catalog))
    requires ReadOnly(resolve)
    ensures var (r, d) := AssignIds(c, ms, resolve);
      d == c
      && forall i :: 0 <= i < |ms| ==>
        (!IsPlaceholderTeam(ms[i].m.homeTeam) ==> r[i].m.homeTeamId == resolve(c, ms[i].m.homeTeam, ms[i].m.competitionId).0)
        && (!IsPlaceholderTeam(ms[i].m.awayTeam) ==> r[i].m.awayTeamId == resolve(c, ms[i].m.awayTeam, ms[i].m.competitionId).0)
  {
    if |ms| > 0 {
      var init := ms[..|ms| - 1];
      AssignIdsReadOnly(c, init, resolve);
      var r := AssignIds(c, ms, resolve).0;
      assert r[..|init|] == AssignIds(c, init, resolve).0;
      forall i | 0 <= i < |init| ensures ms[i] == init[i] && r[i] == AssignIds(c, init, resolve).0[i] { }
    }
  }

  /** The real resolver with updates off is read-only. */
  lemma CollectorResolverReadOnly(cache: BaseNames.NameCache, aliasKey: string -> string)
    ensures ReadOnly((c: BC.Catalog, n: string, k: string) => BC.Resolve(c, false, cache, aliasKey, n, k))
  {
    forall c: BC.Catalog, n: string, k: string ensures BC.Resolve(c, false, cache, aliasKey, n, k).1 == c {
      var base := BaseNames.NormalizeTeamName(n, k, cache, aliasKey);
      BC.ResolveReadOnly(c, n, base, BC.NationalIdFor(base, k), k);
    }
  }

  /** The loop of src/collectors/domestic/league_one_divisions.py:199-212, with the catalog threaded through. */
  method AssignTeamIds(c: BC.Catalog, ms: seq<DivMatch>, resolve: (BC.Catalog, string, string) -> (string, BC.Catalog))
    returns (r: seq<DivMatch>, d: BC.Catalog)
    ensures (r, d) == AssignIds(c, ms, resolve)
  {
    r, d := [], c;
    var i := 0;
    while i < |ms|
      invariant 0 <= i <= |ms|
      invariant (r, d) == AssignIds(c, ms[..i], resolve)
    {
      assert ms[..i + 1][..i] == ms[..i];
      var x := ms[i];
      var comp := x.m.competitionId;
      var h := "";
      var a := "";
      if !IsPlaceholderTeam(x.m.homeTeam) {
        h, d := resolve(d, x.m.homeTeam, comp).0, resolve(d, x.m.homeTeam, comp).1;
      }
      if !IsPlaceholderTeam(x.m.awayTeam) {
        a, d := resolve(d, x.m.awayTeam, comp).0, resolve(d, x.m.awayTeam, comp).1;
      }
      r := r + [x.(m := x.m.(homeTeamId := h, awayTeamId := a))];
      i := i + 1;
    }
    assert ms[..i] == ms;
  }
}
