/**
 * The logo fetcher (`scripts/maintenance/fetch_logos.py`): `slugify`, the
 * in-list update of `update_competition_logo`, the entry merge of
 * `update_team_logos` and `merge_license_entries`. TheSportsDB's answers and
 * the outcome of downloading and saving an image are parameters.
 */
module FetchLogos {
  import opened Text
  import opened Sorting

  // ------------------------------------------------------------ slugify

  /** The characters `[a-z0-9]`. */
  predicate IsSlugChar(c: char) { IsLowerLetter(c) || IsDigit(c) }

  /** The letters and digits of `s`, in order. */
  function SlugChars(s: string): string
  {
    if |s| == 0 then "" else (if IsSlugChar(s[0]) then [s[0]] else "") + SlugChars(s[1..])
  }

  /** Drops a leading run of characters outside `[a-z0-9]`. */
  function DropRun(s: string): (r: string)
    ensures |r| <= |s| && r == s[|s| - |r|..]
    ensures r == [] || IsSlugChar(r[0])
    ensures |s| > 0 && !IsSlugChar(s[0]) ==> |r| < |s|
    ensures SlugChars(r) == SlugChars(s)
  {
    if |s| > 0 && !IsSlugChar(s[0]) then DropRun(s[1..]) else s
  }

  /** `re.sub(r"[^a-z0-9]+", "-", s)`: every maximal run outside `[a-z0-9]` becomes one hyphen. */
  function HyphenateRuns(s: string): string
    decreases |s|
  {
    if |s| == 0 then ""
    else if IsSlugChar(s[0]) then [s[0]] + HyphenateRuns(s[1..])
    else "-" + HyphenateRuns(DropRun(s))
  }

  /** Every character is in `[a-z0-9-]`, and no two hyphens are adjacent. */
  predicate SingleHyphens(s: string)
  {
    (forall i :: 0 <= i < |s| ==> IsSlugChar(s[i]) || s[i] == '-')
    && (forall i :: 0 <= i < |s| - 1 ==> !(s[i] == '-' && s[i + 1] == '-'))
  }

  /** What `slugify` returns: non-empty, single hyphens, and neither end a hyphen. */
  predicate SlugShaped(s: string)
  {
    |s| > 0 && SingleHyphens(s) && s[0] != '-' && s[|s| - 1] != '-'
  }

  lemma {:induction false} HyphenateRunsShape(s: string)
    ensures var r := HyphenateRuns(s);
      SingleHyphens(r) && (|s| > 0 && IsSlugChar(s[0]) ==> |r| > 0 && r[0] == s[0])
    decreases |s|
  {
    if |s| > 0 {
      var t := if IsSlugChar(s[0]) then s[1..] else DropRun(s);
      HyphenateRunsShape(t);
      var c := if IsSlugChar(s[0]) then s[0] else '-';
      ConsSingle(c, HyphenateRuns(t));
    }
  }

  /** A letter, a digit, or a hyphen not followed by one, put in front of single hyphens. */
  lemma ConsSingle(c: char, rt: string)
    requires SingleHyphens(rt) && (IsSlugChar(c) || c == '-') && (c == '-' ==> rt == [] || rt[0] != '-')
    ensures SingleHyphens([c] + rt)
  {
    var r := [c] + rt;
    assert forall k :: 0 < k < |r| ==> r[k] == rt[k - 1];
  }

  lemma {:induction false} HyphenateRunsChars(s: string)
    ensures SlugChars(HyphenateRuns(s)) == SlugChars(s)
    decreases |s|
  {
    if |s| > 0 {
      var t := if IsSlugChar(s[0]) then s[1..] else DropRun(s);
      HyphenateRunsChars(t);
      var h := if IsSlugChar(s[0]) then [s[0]] else "-";
      SlugCharsAppend(h, HyphenateRuns(t));
    }
  }

  /** Drops a leading run of hyphens. */
  function DropHyphens(s: string): (r: string)
    ensures |r| <= |s| && r == s[|s| - |r|..]
    ensures r == [] || r[0] != '-'
    ensures SlugChars(r) == SlugChars(s)
  {
    if |s| > 0 && s[0] == '-' then
      var r := DropHyphens(s[1..]);
      assert SlugChars(s) == SlugChars(s[1..]);
      assert s[1..][|s| - 1 - |r|..] == s[|s| - |r|..];
      r
    else s
  }

  /** `re.sub(r"-+", "-", s)` */
  function CollapseHyphens(s: string): string
    decreases |s|
  {
    if |s| == 0 then ""
    else if s[0] == '-' then "-" + CollapseHyphens(DropHyphens(s[1..]))
    else [s[0]] + CollapseHyphens(s[1..])
  }

  /** Collapsing changes nothing once no two hyphens are adjacent. */
  lemma {:induction false} CollapseSingle(s: string)
    requires forall i :: 0 <= i < |s| - 1 ==> !(s[i] == '-' && s[i + 1] == '-')
    ensures CollapseHyphens(s) == s
    decreases |s|
  {
    if |s| > 0 {
      var t := s[1..];
      assert forall i :: 0 <= i < |t| ==> t[i] == s[i + 1];
      CollapseSingle(t);
      if s[0] == '-' {
        assert DropHyphens(t) == t by {
          if |t| > 0 { assert t[0] == s[1]; }
        }
      }
    }
  }

  /** Drops a trailing run of hyphens, keeping every letter and digit. */
  function DropTrailingHyphens(s: string): (r: string)
    ensures |r| <= |s| && r == s[..|r|]
    ensures r == [] || r[|r| - 1] != '-'
    ensures SlugChars(r) == SlugChars(s)
  {
    if |s| > 0 && s[|s| - 1] == '-' then
      var t := s[..|s| - 1];
      SlugCharsAppend(t, "-");
      assert s == t + "-";
      DropTrailingHyphens(t)
    else s
  }

  /** `s.strip("-")`, keeping every letter and digit. */
  function StripHyphens(s: string): (r: string)
    ensures r == [] || (r[0] != '-' && r[|r| - 1] != '-')
    ensures SlugChars(r) == SlugChars(s)
  {
    DropTrailingHyphens(DropHyphens(s))
  }

  lemma {:induction false} SlugCharsAppend(a: string, b: string)
    ensures SlugChars(a + b) == SlugChars(a) + SlugChars(b)
  {
    if |a| > 0 {
      var h := if IsSlugChar(a[0]) then [a[0]] else "";
      assert (a + b)[0] == a[0] && (a + b)[1..] == a[1..] + b;
      assert SlugChars(a + b) == h + SlugChars(a[1..] + b);
      SlugCharsAppend(a[1..], b);
      assert SlugChars(a) == h + SlugChars(a[1..]);
    } else {
      assert a + b == b;
    }
  }

  /** The text before the `or "unknown"`. */
  function SlugBody(value: string): string
  {
    StripHyphens(CollapseHyphens(HyphenateRuns(Lower(Strip(value)))))
  }

  /** `slugify` */
  function Slugify(value: string): (r: string)
    ensures SlugShaped(r)
    ensures var t := Lower(Strip(value));
      (SlugChars(t) == "" ==> r == "unknown") && (SlugChars(t) != "" ==> SlugChars(r) == SlugChars(t))
  {
    var body := SlugBody(value);
    SlugBodySpec(value);
    if body == "" then "unknown" else body
  }

  /** The body keeps the letters and digits of the lowered, stripped text, in order, with single hyphens between runs. */
  lemma SlugBodySpec(value: string)
    ensures var b, t := SlugBody(value), Lower(Strip(value));
      SlugChars(b) == SlugChars(t) && (b == "" || SlugShaped(b))
  {
    var t := Lower(Strip(value));
    var h := HyphenateRuns(t);
    HyphenateRunsShape(t);
    HyphenateRunsChars(t);
    CollapseSingle(h);
    StripSingle(h);
  }

  /** Stripping the border hyphens leaves single hyphens. */
  lemma StripSingle(h: string)
    requires SingleHyphens(h)
    ensures SingleHyphens(StripHyphens(h))
  {
    var d := DropHyphens(h);
    SuffixSingle(h, |h| - |d|);
    var r := DropTrailingHyphens(d);
    PrefixSingle(d, |r|);
  }

  lemma SuffixSingle(h: string, n: nat)
    requires n <= |h| && SingleHyphens(h)
    ensures SingleHyphens(h[n..])
  {
    var d := h[n..];
    assert forall k :: 0 <= k < |d| ==> d[k] == h[n + k];
  }

  lemma PrefixSingle(h: string, n: nat)
    requires n <= |h| && SingleHyphens(h)
    ensures SingleHyphens(h[..n])
  {
  }

  /** A text that is already a slug is its own slug. */
  lemma SlugifyFixed(s: string)
    requires SlugShaped(s)
    ensures Slugify(s) == s
  {
    assert !IsSpace(s[0]) && !IsSpace(s[|s| - 1]);
    StripOfTrimmed(s);
    assert Lower(s) == s;
    HyphenateSingle(s);
    CollapseSingle(s);
    assert StripHyphens(s) == s;
  }

  lemma {:induction false} HyphenateSingle(s: string)
    requires SingleHyphens(s) && (|s| == 0 || s[0] != '-')
    ensures HyphenateRuns(s) == s
    decreases |s|
  {
    if |s| > 0 {
      if IsSlugChar(s[0]) {
        var t := s[1..];
        assert forall i :: 0 <= i < |t| ==> t[i] == s[i + 1];
        if |t| > 0 && t[0] == '-' {
          var u := t[1..];
          assert forall i :: 0 <= i < |u| ==> u[i] == s[i + 2];
          assert DropRun(t) == u by {
            if |u| > 0 { assert u[0] == s[2] && s[2] != '-'; }
          }
          HyphenateSingle(u);
          assert HyphenateRuns(t) == "-" + u;
          assert t == "-" + u;
        } else {
          HyphenateSingle(t);
        }
      }
    }
  }

  /** `slugify` is idempotent. */
  lemma SlugifyIdempotent(value: string)
    ensures Slugify(Slugify(value)) == Slugify(value)
  {
    SlugifyFixed(Slugify(value));
  }

  // ------------------------------------------------------------ configuration

  /**
   * One `competitions` entry of the configuration: its `id`, whether its
   * logos may be saved into the repository, its license keys ("" when
   * missing or null) and its `team_slug_overrides`.
   */
  datatype CompCfg = CompCfg(id: string, licenseKey: string, saveCompetitionLogo: bool, saveTeamLogos: bool,
    teamLicenseKey: string, slugOverrides: map<string, string>)

  // ------------------------------------------------------------ competition logo

  /** A `competitions.json` entry: the keys the update reads or writes (`None` when absent), and every other key. */
  datatype CompLogo = CompLogo(id: Option<string>, logoUrl: Option<string>, logoRepoPath: Option<string>,
    licenseKey: Option<string>, rest: map<string, string>)

  /** The path the competition logo is saved under, relative to the repository. */
  function CompetitionRepoPath(id: string): string
  {
    "assets/logos/competitions/" + id + ".png"
  }

  /** `repo_path`: set only when saving is allowed, asked for, there is a logo, and the download and save succeed. */
  function CompetitionRepoPathOf(cfg: CompCfg, allowRepoSave: bool, logo: string, saved: bool): string
  {
    if allowRepoSave && cfg.saveCompetitionLogo && logo != "" && saved then CompetitionRepoPath(cfg.id) else ""
  }

  /** The body of the matched competition: logo, then repository path (which clears the logo), then license key. */
  function WithCompetitionLogo(c: CompLogo, logo: string, repoPath: string, licenseKey: string): (r: CompLogo)
    ensures r.id == c.id && r.rest == c.rest
    ensures r.logoUrl == if repoPath != "" then Some("") else if logo != "" then Some(logo) else c.logoUrl
    ensures r.logoRepoPath == if repoPath != "" then Some(repoPath) else c.logoRepoPath
    ensures r.licenseKey == if licenseKey != "" then Some(licenseKey) else c.licenseKey
  {
    var c1 := if logo != "" then c.(logoUrl := Some(logo)) else c;
    var c2 := if repoPath != "" then c1.(logoRepoPath := Some(repoPath), logoUrl := Some("")) else c1;
    if licenseKey != "" then c2.(licenseKey := Some(licenseKey)) else c2
  }

  function HasId(id: string): CompLogo -> bool
  {
    (c: CompLogo) => c.id == Some(id)
  }

  /** The list after the competition loop: only the first entry with the configured id is updated. */
  function CompetitionsWithLogo(comps: seq<CompLogo>, id: string, logo: string, repoPath: string, licenseKey: string): (r: seq<CompLogo>)
    ensures |r| == |comps|
    ensures var k := FirstWhere(comps, HasId(id));
      (forall j :: 0 <= j < |comps| && j != k ==> r[j] == comps[j])
      && (k < |comps| ==> r[k] == WithCompetitionLogo(comps[k], logo, repoPath, licenseKey))
  {
    var k := FirstWhere(comps, HasId(id));
    if k < |comps| then comps[k := WithCompetitionLogo(comps[k], logo, repoPath, licenseKey)] else comps
  }

  /**
   * `update_competition_logo` after its lookup: `leagues` is what
   * TheSportsDB returned and `saved` whether downloading and saving the logo
   * succeed. No league leaves the list alone and returns nothing.
   */
  method UpdateCompetitionLogo(comps: seq<CompLogo>, cfg: CompCfg, leagueLogos: seq<string>, allowRepoSave: bool, saved: bool)
    returns (out: seq<CompLogo>, logo: Option<string>)
    ensures |leagueLogos| == 0 ==> out == comps && logo.None?
    ensures |leagueLogos| > 0 ==> (logo == Some(leagueLogos[0])
      && out == CompetitionsWithLogo(comps, cfg.id, leagueLogos[0],
        CompetitionRepoPathOf(cfg, allowRepoSave, leagueLogos[0], saved), cfg.licenseKey))
  {
    if |leagueLogos| == 0 {
      return comps, None;
    }
    var logoUrl := leagueLogos[0];
    var repoPath := "";
    if allowRepoSave && cfg.saveCompetitionLogo && logoUrl != "" && saved {
      repoPath := CompetitionRepoPath(cfg.id);
    }
    out := comps;
    var i := 0;
    while i < |out|
      invariant 0 <= i <= |out| && out == comps
      invariant forall j :: 0 <= j < i ==> !HasId(cfg.id)(comps[j])
    {
      if out[i].id == Some(cfg.id) {
        var c := out[i];
        if logoUrl != "" {
          c := c.(logoUrl := Some(logoUrl));
        }
        if repoPath != "" {
          c := c.(logoRepoPath := Some(repoPath), logoUrl := Some(""));
        }
        if cfg.licenseKey != "" {
          c := c.(licenseKey := Some(cfg.licenseKey));
        }
        out := out[i := c];
        break;
      }
      i := i + 1;
    }
    logo := Some(logoUrl);
  }

  /** A saved logo always wins over the fetched URL, and no entry but the first with the id changes. */
  lemma CompetitionLogoRules(comps: seq<CompLogo>, cfg: CompCfg, logo: string, allowRepoSave: bool, saved: bool, j: nat)
    requires j < |comps|
    ensures var repoPath := CompetitionRepoPathOf(cfg, allowRepoSave, logo, saved);
      var r := CompetitionsWithLogo(comps, cfg.id, logo, repoPath, cfg.licenseKey);
      (r[j] != comps[j] ==> comps[j].id == Some(cfg.id) && forall i :: 0 <= i < j ==> comps[i].id != Some(cfg.id))
      && (repoPath != "" && r[j] != comps[j] ==> r[j].logoUrl == Some("") && r[j].logoRepoPath == Some(CompetitionRepoPath(cfg.id)))
  {
    var k := FirstWhere(comps, HasId(cfg.id));
    if j == k {
      assert HasId(cfg.id)(comps[j]);
    } else if j < k {
      assert !HasId(cfg.id)(comps[j]);
    }
  }

  // ------------------------------------------------------------ team logos

  /** One team of `search_all_teams`: `strTeam`, `strBadge` and `strLogo` ("" when missing or null). */
  datatype ApiTeam = ApiTeam(name: string, badge: string, logo: string)

  /** A `team_logos.json` entry: the keys the merge reads or writes (`None` when absent), and every other key. */
  datatype LogoEntry = LogoEntry(team: Option<string>, badgeUrl: Option<string>, logoUrl: Option<string>,
    licenseKey: Option<string>, logoRepoPath: Option<string>, rest: map<string, string>)

  /**
   * What one run of `update_team_logos` depends on besides the teams: the
   * configuration, whether team badges are saved into the repository, the
   * keys of the team master, and whether downloading and saving a badge URL
   * succeeds.
   */
  datatype Ctx = Ctx(cfg: CompCfg, saveRepo: bool, master: set<string>, downloads: string -> bool)

  /** `slugify("")` */
  const Unknown := "unknown"

  lemma SlugifyEmpty()
    ensures Slugify("") == Unknown
  {
    assert Lower(Strip("")) == "";
  }

  /** `entry.get("team", slugify(entry.get("team", "")))`: the key of an existing entry. */
  function EntryKey(e: LogoEntry): string
  {
    if e.team.Some? then e.team.value else Unknown
  }

  /** The `existing` dict: each key to the position of the last entry under it. */
  function ExistingIndex(entries: seq<LogoEntry>): (m: map<string, nat>)
    ensures IndexBelow(m, |entries|)
  {
    if |entries| == 0 then map[]
    else
      var n := |entries| - 1;
      ExistingIndex(entries[..n])[EntryKey(entries[n]) := n]
  }

  /** Every key of an entry is in `existing`, at the last entry under it. */
  lemma {:induction false} ExistingIndexSpec(entries: seq<LogoEntry>)
    ensures var m := ExistingIndex(entries);
      (forall key :: key in m ==> (m[key] < |entries| && EntryKey(entries[m[key]]) == key
        && forall i :: m[key] < i < |entries| ==> EntryKey(entries[i]) != key))
      && (forall i :: 0 <= i < |entries| ==> EntryKey(entries[i]) in m)
  {
    if |entries| > 0 {
      var n := |entries| - 1;
      var init := entries[..n];
      ExistingIndexSpec(init);
      ExistingStep(entries, n, ExistingIndex(init));
    }
  }

  lemma ExistingStep(entries: seq<LogoEntry>, n: nat, m0: map<string, nat>)
    requires n == |entries| - 1
    requires forall key :: key in m0 ==> (m0[key] < n && EntryKey(entries[..n][m0[key]]) == key
        && forall i :: m0[key] < i < n ==> EntryKey(entries[..n][i]) != key)
    requires forall i :: 0 <= i < n ==> EntryKey(entries[..n][i]) in m0
    ensures var m := m0[EntryKey(entries[n]) := n];
      (forall key :: key in m ==> (m[key] < |entries| && EntryKey(entries[m[key]]) == key
        && forall i :: m[key] < i < |entries| ==> EntryKey(entries[i]) != key))
      && (forall i :: 0 <= i < |entries| ==> EntryKey(entries[i]) in m)
  {
    assert forall i :: 0 <= i < n ==> entries[..n][i] == entries[i];
  }

  /** `overrides.get(team_name) or slugify(team_name)`, lowered when the lowered slug is a team master key. */
  function SlugFor(cfg: CompCfg, master: set<string>, name: string): string
  {
    var o := if name in cfg.slugOverrides then cfg.slugOverrides[name] else "";
    var slug := if o != "" then o else Slugify(name);
    if Lower(slug) in master then Lower(slug) else slug
  }

  /** A slug is already lower case. */
  lemma LowerSlug(s: string)
    requires SingleHyphens(s)
    ensures Lower(s) == s
  {
  }

  /** Without an override the slug is `slugify(name)`, whatever the team master holds; with one it is the override or its lower-case form. */
  lemma SlugForSpec(cfg: CompCfg, master: set<string>, name: string)
    ensures (name !in cfg.slugOverrides || cfg.slugOverrides[name] == "") ==> SlugFor(cfg, master, name) == Slugify(name)
    ensures name in cfg.slugOverrides && cfg.slugOverrides[name] != "" ==>
      var o := cfg.slugOverrides[name];
      SlugFor(cfg, master, name) == (if Lower(o) in master then Lower(o) else o)
  {
    LowerSlug(Slugify(name));
  }

  /** A new entry `{"team": slug}`. */
  function Fresh(slug: string): LogoEntry
  {
    LogoEntry(Some(slug), None, None, None, None, map[])
  }

  function TeamRepoPath(slug: string): string
  {
    "assets/logos/teams/" + slug + ".png"
  }

  /** The entry after one team: non-empty URLs and license key overwrite, and a saved badge replaces the badge URL. */
  function MergedEntry(e: LogoEntry, t: ApiTeam, ctx: Ctx, slug: string): LogoEntry
  {
    var e1 := if t.badge != "" then e.(badgeUrl := Some(t.badge)) else e;
    var e2 := if t.logo != "" then e1.(logoUrl := Some(t.logo)) else e1;
    var e3 := if ctx.cfg.teamLicenseKey != "" then e2.(licenseKey := Some(ctx.cfg.teamLicenseKey)) else e2;
    if ctx.saveRepo && t.badge != "" && ctx.downloads(t.badge) then e3.(logoRepoPath := Some(TeamRepoPath(slug)), badgeUrl := Some(""))
    else e3
  }

  /** Only non-empty values overwrite; the team key and the other keys stay. */
  lemma MergedEntryRules(e: LogoEntry, t: ApiTeam, ctx: Ctx, slug: string)
    ensures var r, saved := MergedEntry(e, t, ctx, slug), ctx.saveRepo && t.badge != "" && ctx.downloads(t.badge);
      r.team == e.team && r.rest == e.rest
      && (t.badge == "" ==> r.badgeUrl == e.badgeUrl && r.logoRepoPath == e.logoRepoPath)
      && (t.badge != "" ==> r.badgeUrl == Some(if saved then "" else t.badge))
      && (saved ==> r.logoRepoPath == Some(TeamRepoPath(slug)))
      && (!saved ==> r.logoRepoPath == e.logoRepoPath)
      && r.logoUrl == (if t.logo != "" then Some(t.logo) else e.logoUrl)
      && r.licenseKey == (if ctx.cfg.teamLicenseKey != "" then Some(ctx.cfg.teamLicenseKey) else e.licenseKey)
  {
  }

  /**
   * The entries as objects: `objs` holds the existing entries followed by
   * the new ones, and `refs` the object each team appended to
   * `updated_entries`. Two teams found under the same existing key share one
   * object, as the dicts do.
   */
  datatype Pool = Pool(objs: seq<LogoEntry>, refs: seq<nat>)

  predicate PoolOk(p: Pool)
  {
    forall k :: 0 <= k < |p.refs| ==> p.refs[k] < |p.objs|
  }

  predicate IndexBelow(existing: map<string, nat>, n: nat)
  {
    forall key :: key in existing ==> existing[key] < n
  }

  /** One iteration of the team loop. */
  function PoolStep(p: Pool, existing: map<string, nat>, t: ApiTeam, ctx: Ctx): (r: Pool)
    requires IndexBelow(existing, |p.objs|) && PoolOk(p)
    ensures PoolOk(r) && |r.objs| >= |p.objs| && |r.refs| == |p.refs| + 1
  {
    var slug := SlugFor(ctx.cfg, ctx.master, t.name);
    var objs := if slug in existing then p.objs else p.objs + [Fresh(slug)];
    var ref := if slug in existing then existing[slug] else |p.objs|;
    Pool(objs[ref := MergedEntry(objs[ref], t, ctx, slug)], p.refs + [ref])
  }

  /** The team loop. */
  function Fold(init: seq<LogoEntry>, existing: map<string, nat>, teams: seq<ApiTeam>, ctx: Ctx): (p: Pool)
    requires IndexBelow(existing, |init|)
    ensures PoolOk(p) && |p.objs| >= |init| && |p.refs| == |teams|
  {
    if |teams| == 0 then Pool(init, [])
    else PoolStep(Fold(init, existing, teams[..|teams| - 1], ctx), existing, teams[|teams| - 1], ctx)
  }

  /** `updated_entries`: the current state of each appended object. */
  function Gathered(p: Pool): (r: seq<LogoEntry>)
    requires PoolOk(p)
    ensures |r| == |p.refs| && forall k :: 0 <= k < |r| ==> r[k] == p.objs[p.refs[k]]
  {
    seq(|p.refs|, k requires 0 <= k < |p.refs| => p.objs[p.refs[k]])
  }

  function TeamKey(e: LogoEntry): string
  {
    if e.team.Some? then e.team.value else ""
  }

  /** The order of `sorted(..., key=lambda e: e.get("team", ""))`. */
  const ByTeam: (LogoEntry, LogoEntry) -> bool := (a: LogoEntry, b: LogoEntry) => StrLe(TeamKey(a), TeamKey(b))

  lemma ByTeamTotal()
    ensures TotalPreorder(ByTeam)
  {
    forall a: LogoEntry, b: LogoEntry ensures ByTeam(a, b) || ByTeam(b, a) { StrLeTotal(TeamKey(a), TeamKey(b)); }
    forall a: LogoEntry, b: LogoEntry, c: LogoEntry | ByTeam(a, b) && ByTeam(b, c) ensures ByTeam(a, c) {
      StrLeTrans(TeamKey(a), TeamKey(b), TeamKey(c));
    }
  }

  /** The entries `update_team_logos` stores for the competition. */
  function TeamEntries(teamLogos: map<string, seq<LogoEntry>>, teams: seq<ApiTeam>, ctx: Ctx): seq<LogoEntry>
  {
    SortBy(Updated(teamLogos, teams, ctx), ByTeam)
  }

  /** `team_logos` after `update_team_logos`: untouched when no team was found. */
  function TeamLogosAfter(teamLogos: map<string, seq<LogoEntry>>, teams: seq<ApiTeam>, ctx: Ctx): map<string, seq<LogoEntry>>
  {
    if |teams| == 0 then teamLogos else teamLogos[ctx.cfg.id := TeamEntries(teamLogos, teams, ctx)]
  }

  function SlugOf(ctx: Ctx, t: ApiTeam): string
  {
    SlugFor(ctx.cfg, ctx.master, t.name)
  }

  /** Every key of `existing` points at an entry of `init` under that key. */
  predicate IndexedKeys(existing: map<string, nat>, init: seq<LogoEntry>)
  {
    forall key :: key in existing ==> existing[key] < |init| && EntryKey(init[existing[key]]) == key
  }

  /** The existing entries keep their keys. */
  predicate KeysKept(objs: seq<LogoEntry>, init: seq<LogoEntry>)
  {
    |objs| >= |init| && forall j :: 0 <= j < |init| ==> EntryKey(objs[j]) == EntryKey(init[j])
  }

  /** Each team's object is under the team's slug, and is the existing one when the slug is an existing key. */
  predicate RefsKeyed(p: Pool, ts: seq<ApiTeam>, ctx: Ctx, existing: map<string, nat>)
  {
    PoolOk(p) && |p.refs| == |ts|
    && (forall k :: 0 <= k < |ts| ==> EntryKey(p.objs[p.refs[k]]) == SlugOf(ctx, ts[k]))
    && (forall k :: 0 <= k < |ts| && SlugOf(ctx, ts[k]) in existing ==> p.refs[k] == existing[SlugOf(ctx, ts[k])])
  }

  /**
   * After the team loop every appended object sits under its team's slug — a
   * team found in `existing` gets the last existing entry under that key, a
   * new one gets `{"team": slug}` — and the existing entries keep their keys.
   */
  lemma {:induction false} FoldSpec(init: seq<LogoEntry>, teams: seq<ApiTeam>, ctx: Ctx)
    ensures var existing := ExistingIndex(init);
      var p := Fold(init, existing, teams, ctx);
      KeysKept(p.objs, init) && RefsKeyed(p, teams, ctx, existing)
  {
    var existing := ExistingIndex(init);
    ExistingIndexSpec(init);
    if |teams| > 0 {
      var n := |teams| - 1;
      FoldSpec(init, teams[..n], ctx);
      var q := Fold(init, existing, teams[..n], ctx);
      StepSpec(init, existing, q, teams[..n], teams[n], ctx);
      TakeNext(teams, n);
      TakeAll(teams);
    }
  }

  lemma StepSpec(init: seq<LogoEntry>, existing: map<string, nat>, q: Pool, ts: seq<ApiTeam>, t: ApiTeam, ctx: Ctx)
    requires IndexedKeys(existing, init) && KeysKept(q.objs, init) && RefsKeyed(q, ts, ctx, existing)
    ensures IndexBelow(existing, |q.objs|)
    ensures KeysKept(PoolStep(q, existing, t, ctx).objs, init) && RefsKeyed(PoolStep(q, existing, t, ctx), ts + [t], ctx, existing)
  {
    var slug := SlugOf(ctx, t);
    var objs := if slug in existing then q.objs else q.objs + [Fresh(slug)];
    var ref := if slug in existing then existing[slug] else |q.objs|;
    assert EntryKey(objs[ref]) == slug;
    var e := MergedEntry(objs[ref], t, ctx, slug);
    MergedEntryRules(objs[ref], t, ctx, slug);
    var p := PoolStep(q, existing, t, ctx);
    assert p == Pool(objs[ref := e], q.refs + [ref]);
    KeysOfUpdate(q.objs, objs, ref, e);
    RefsStep(q, p, ts, t, ctx, existing, ref);
  }

  lemma KeysOfUpdate(before: seq<LogoEntry>, objs: seq<LogoEntry>, ref: nat, e: LogoEntry)
    requires |objs| >= |before| && ref < |objs| && EntryKey(e) == EntryKey(objs[ref])
    requires forall j :: 0 <= j < |before| ==> objs[j] == before[j]
    ensures |objs[ref := e]| == |objs|
    ensures forall j :: 0 <= j < |objs| ==> EntryKey(objs[ref := e][j]) == EntryKey(objs[j])
    ensures forall j :: 0 <= j < |before| ==> EntryKey(objs[ref := e][j]) == EntryKey(before[j])
  {
  }

  lemma RefsStep(q: Pool, p: Pool, ts: seq<ApiTeam>, t: ApiTeam, ctx: Ctx, existing: map<string, nat>, ref: nat)
    requires RefsKeyed(q, ts, ctx, existing) && |p.objs| >= |q.objs| && p.refs == q.refs + [ref] && ref < |p.objs|
    requires forall j :: 0 <= j < |q.objs| ==> EntryKey(p.objs[j]) == EntryKey(q.objs[j])
    requires EntryKey(p.objs[ref]) == SlugOf(ctx, t)
    requires SlugOf(ctx, t) in existing ==> ref == existing[SlugOf(ctx, t)]
    ensures RefsKeyed(p, ts + [t], ctx, existing)
  {
    var ts' := ts + [t];
    forall k | 0 <= k < |ts'| ensures EntryKey(p.objs[p.refs[k]]) == SlugOf(ctx, ts'[k]) {
      if k < |ts| {
        assert ts'[k] == ts[k] && p.refs[k] == q.refs[k];
      }
    }
    forall k | 0 <= k < |ts'| && SlugOf(ctx, ts'[k]) in existing ensures p.refs[k] == existing[SlugOf(ctx, ts'[k])] {
      if k < |ts| {
        assert ts'[k] == ts[k] && p.refs[k] == q.refs[k];
      }
    }
  }

  /** The updated entries before sorting. */
  function Updated(teamLogos: map<string, seq<LogoEntry>>, teams: seq<ApiTeam>, ctx: Ctx): seq<LogoEntry>
  {
    var init := if ctx.cfg.id in teamLogos then teamLogos[ctx.cfg.id] else [];
    Gathered(Fold(init, ExistingIndex(init), teams, ctx))
  }

  /**
   * Each updated entry is stored under its team's slug, and two teams whose
   * slug is one existing key share one entry.
   */
  lemma UpdatedSpec(teamLogos: map<string, seq<LogoEntry>>, teams: seq<ApiTeam>, ctx: Ctx)
    ensures var g := Updated(teamLogos, teams, ctx);
      var init := if ctx.cfg.id in teamLogos then teamLogos[ctx.cfg.id] else [];
      |g| == |teams|
      && (forall k :: 0 <= k < |teams| ==> EntryKey(g[k]) == SlugOf(ctx, teams[k]))
      && (forall k1, k2 :: (0 <= k1 < |teams| && 0 <= k2 < |teams| && SlugOf(ctx, teams[k1]) == SlugOf(ctx, teams[k2])
        && SlugOf(ctx, teams[k1]) in ExistingIndex(init)) ==> g[k1] == g[k2])
  {
    var init := if ctx.cfg.id in teamLogos then teamLogos[ctx.cfg.id] else [];
    FoldSpec(init, teams, ctx);
  }

  /** `team_logos[comp_id]` is the updated entries sorted by team; no other competition changes; no team found changes nothing. */
  lemma TeamLogosSpec(teamLogos: map<string, seq<LogoEntry>>, teams: seq<ApiTeam>, ctx: Ctx)
    ensures |teams| == 0 ==> TeamLogosAfter(teamLogos, teams, ctx) == teamLogos
    ensures forall c :: c != ctx.cfg.id ==> ((c in TeamLogosAfter(teamLogos, teams, ctx) <==> c in teamLogos)
      && (c in teamLogos ==> TeamLogosAfter(teamLogos, teams, ctx)[c] == teamLogos[c]))
    ensures |teams| > 0 ==> (
      var es := TeamLogosAfter(teamLogos, teams, ctx)[ctx.cfg.id];
      SortedBy(es, ByTeam) && multiset(es) == multiset(Updated(teamLogos, teams, ctx)) && |es| == |teams|)
  {
    if |teams| > 0 {
      var g := Updated(teamLogos, teams, ctx);
      ByTeamTotal();
      SortBySorted(g, ByTeam);
      SortByPerm(g, ByTeam);
    }
  }

  /** The body of the team loop for the entry found or created: each non-empty value is written, then the badge saved. */
  method MergeTeam(e: LogoEntry, t: ApiTeam, ctx: Ctx, slug: string) returns (r: LogoEntry)
    ensures r == MergedEntry(e, t, ctx, slug)
  {
    r := e;
    if t.badge != "" {
      r := r.(badgeUrl := Some(t.badge));
    }
    if t.logo != "" {
      r := r.(logoUrl := Some(t.logo));
    }
    if ctx.cfg.teamLicenseKey != "" {
      r := r.(licenseKey := Some(ctx.cfg.teamLicenseKey));
    }
    if ctx.saveRepo && t.badge != "" && ctx.downloads(t.badge) {
      r := r.(logoRepoPath := Some(TeamRepoPath(slug)), badgeUrl := Some(""));
    }
  }

  /** The `existing` dict comprehension. */
  method BuildExisting(entries: seq<LogoEntry>) returns (m: map<string, nat>)
    ensures m == ExistingIndex(entries)
  {
    m := map[];
    var i := 0;
    while i < |entries|
      invariant 0 <= i <= |entries| && m == ExistingIndex(entries[..i])
    {
      m := m[EntryKey(entries[i]) := i];
      TakeNext(entries, i);
      assert entries[..i + 1][..i] == entries[..i];
      i := i + 1;
    }
    TakeAll(entries);
  }

  lemma FoldNext(init: seq<LogoEntry>, existing: map<string, nat>, teams: seq<ApiTeam>, i: nat, ctx: Ctx)
    requires i < |teams| && IndexBelow(existing, |init|)
    ensures IndexBelow(existing, |Fold(init, existing, teams[..i], ctx).objs|)
    ensures Fold(init, existing, teams[..i + 1], ctx)
      == PoolStep(Fold(init, existing, teams[..i], ctx), existing, teams[i], ctx)
  {
    TakeNext(teams, i);
    assert teams[..i + 1][..i] == teams[..i];
  }

  /** One team: its slug's existing entry, or a new one, takes the team's logos. */
  method AddTeam(objs: seq<LogoEntry>, refs: seq<nat>, existing: map<string, nat>, t: ApiTeam, ctx: Ctx)
      returns (objs2: seq<LogoEntry>, refs2: seq<nat>)
    requires IndexBelow(existing, |objs|) && PoolOk(Pool(objs, refs))
    ensures Pool(objs2, refs2) == PoolStep(Pool(objs, refs), existing, t, ctx)
  {
    var slug := SlugFor(ctx.cfg, ctx.master, t.name);
    objs2 := objs;
    var ref: nat;
    if slug in existing {
      ref := existing[slug];
    } else {
      objs2 := objs2 + [Fresh(slug)];
      ref := |objs2| - 1;
    }
    var e := MergeTeam(objs2[ref], t, ctx, slug);
    objs2 := objs2[ref := e];
    refs2 := refs + [ref];
  }

  /** The team loop, in the order TheSportsDB returned the teams. */
  method TeamLoop(init: seq<LogoEntry>, existing: map<string, nat>, teams: seq<ApiTeam>, ctx: Ctx)
      returns (objs: seq<LogoEntry>, refs: seq<nat>)
    requires existing == ExistingIndex(init)
    ensures Pool(objs, refs) == Fold(init, existing, teams, ctx)
  {
    objs, refs := init, [];
    var i := 0;
    while i < |teams|
      invariant 0 <= i <= |teams| && Pool(objs, refs) == Fold(init, existing, teams[..i], ctx)
    {
      FoldNext(init, existing, teams, i, ctx);
      objs, refs := AddTeam(objs, refs, existing, teams[i], ctx);
      i := i + 1;
    }
    TakeAll(teams);
  }

  /**
   * `update_team_logos` after its search: `teams` is what TheSportsDB
   * returned; the competition's list becomes the updated entries sorted by team.
   */
  method UpdateTeamLogos(teamLogos: map<string, seq<LogoEntry>>, teams: seq<ApiTeam>, ctx: Ctx) returns (r: map<string, seq<LogoEntry>>)
    ensures r == TeamLogosAfter(teamLogos, teams, ctx)
  {
    if |teams| == 0 {
      return teamLogos;
    }
    var init := if ctx.cfg.id in teamLogos then teamLogos[ctx.cfg.id] else [];
    var existing := BuildExisting(init);
    var objs, refs := TeamLoop(init, existing, teams, ctx);
    GatheredIs(teamLogos, teams, ctx, objs, refs);
    r := teamLogos[ctx.cfg.id := SortBy(Gathered(Pool(objs, refs)), ByTeam)];
  }

  /** The entries the team loop leaves are `Updated`'s, sorted in. */
  lemma GatheredIs(teamLogos: map<string, seq<LogoEntry>>, teams: seq<ApiTeam>, ctx: Ctx, objs: seq<LogoEntry>, refs: seq<nat>)
    requires var init := if ctx.cfg.id in teamLogos then teamLogos[ctx.cfg.id] else [];
      Pool(objs, refs) == Fold(init, ExistingIndex(init), teams, ctx)
    requires |teams| > 0
    ensures PoolOk(Pool(objs, refs))
    ensures teamLogos[ctx.cfg.id := SortBy(Gathered(Pool(objs, refs)), ByTeam)] == TeamLogosAfter(teamLogos, teams, ctx)
  {
    assert Gathered(Pool(objs, refs)) == Updated(teamLogos, teams, ctx);
  }

  // ------------------------------------------------------------ licenses

  /** `merge_license_entries`: each configured key is written into the book. */
  method MergeLicenseEntries<V>(book: map<string, V>, entries: map<string, V>) returns (r: map<string, V>)
    ensures forall k :: k in r <==> k in book || k in entries
    ensures forall k :: k in entries ==> r[k] == entries[k]
    ensures forall k :: k in book && k !in entries ==> r[k] == book[k]
  {
    r := book;
    var todo := entries.Keys;
    while todo != {}
      invariant todo <= entries.Keys
      invariant forall k :: k in r <==> k in book || (k in entries && k !in todo)
      invariant forall k :: k in entries && k !in todo ==> r[k] == entries[k]
      invariant forall k :: k in book && k !in entries ==> r[k] == book[k]
      invariant forall k :: k in book && k in todo ==> r[k] == book[k]
      decreases todo
    {
      var key :| key in todo;
      r := r[key := entries[key]];
      todo := todo - {key};
    }
  }
}
