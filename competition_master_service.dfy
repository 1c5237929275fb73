/**
 * The competition master updater (`src/services/competition_master_service.py`):
 * `update_competitions` walks the base competitions and, for each one that is
 * selected and has official sites, merges the metadata of the first site whose
 * page can be fetched (its `og:url`, `og:image` and favicon) and clears the
 * fields the repository fills in later. Fetching a page is the parameter
 * `fetch`: `None` when the request or the parse raises.
 */
module CompetitionMasterService {
  import opened Text
  import opened Sorting
  import CR = CompetitionRepository

  /** What `_fetch_official_meta` returns: the stripped `og:*` contents and the favicon href ("" when absent). */
  datatype Meta = Meta(ogTitle: string, ogImage: string, ogUrl: string, icon: string)

  /**
   * A base competition: its `id` ("" when missing), its `official_sites`
   * ([] when missing or null), its `logo_url` ("" when missing or null), its
   * `teams` and `data_summary` when present, and every other key.
   */
  datatype Comp = Comp(id: string, officialSites: seq<string>, logoUrl: string,
    teams: Option<seq<string>>, dataSummary: Option<CR.Summary>, fields: map<string, string>)

  /** The cleared `data_summary`. */
  const ZeroSummary := CR.Summary(0, [], CR.DateRange("", ""), "")

  /** `only and comp_id not in only`, or no official site: the competition is left as it is. */
  predicate Skipped(c: Comp, only: seq<string>)
  {
    (|only| > 0 && c.id !in only) || |c.officialSites| == 0
  }

  function Fetched(fetch: string -> Option<Meta>): string -> bool
  {
    (site: string) => fetch(site).Some?
  }

  /** `official_sites` after the merge: `og:url` is appended when it is non-empty and new. */
  function MergedSites(sites: seq<string>, m: Meta): seq<string>
  {
    if m.ogUrl != "" && m.ogUrl !in sites then sites + [m.ogUrl] else sites
  }

  /** `logo_url` after the merge: filled when missing, from `og:image` or else the favicon. */
  function MergedLogo(logo: string, m: Meta): string
  {
    if logo != "" then logo
    else if m.ogImage != "" then m.ogImage
    else m.icon
  }

  /** Merging fetched metadata into a competition. */
  function Merged(c: Comp, m: Meta): Comp
  {
    c.(officialSites := MergedSites(c.officialSites, m), logoUrl := MergedLogo(c.logoUrl, m),
      teams := Some([]), dataSummary := Some(ZeroSummary))
  }

  /** One iteration of the competition loop. */
  function Updated(c: Comp, only: seq<string>, fetch: string -> Option<Meta>): Comp
  {
    if Skipped(c, only) then c
    else
      var k := FirstWhere(c.officialSites, Fetched(fetch));
      if k == |c.officialSites| then c else Merged(c, fetch(c.officialSites[k]).value)
  }

  function UpdatedFn(only: seq<string>, fetch: string -> Option<Meta>): Comp -> Comp
  {
    (c: Comp) => Updated(c, only, fetch)
  }

  /** A skipped competition, or one none of whose sites can be fetched, is unchanged. */
  lemma UnchangedWhenSkipped(c: Comp, only: seq<string>, fetch: string -> Option<Meta>)
    ensures Skipped(c, only) ==> Updated(c, only, fetch) == c
    ensures (forall j :: 0 <= j < |c.officialSites| ==> fetch(c.officialSites[j]).None?) ==> Updated(c, only, fetch) == c
  {
    var k := FirstWhere(c.officialSites, Fetched(fetch));
    if k < |c.officialSites| {
      assert Fetched(fetch)(c.officialSites[k]);
    }
  }

  /**
   * A processed competition takes the metadata of its first fetchable site:
   * `og:url` joins the sites once, the logo is filled only when missing
   * (`og:image` before the favicon), `teams` and `data_summary` are cleared,
   * and the id and every other key stay.
   */
  lemma MergeRules(c: Comp, only: seq<string>, fetch: string -> Option<Meta>, k: nat)
    requires !Skipped(c, only) && k < |c.officialSites| && fetch(c.officialSites[k]).Some?
    requires forall j :: 0 <= j < k ==> fetch(c.officialSites[j]).None?
    ensures var r, m := Updated(c, only, fetch), fetch(c.officialSites[k]).value;
      r.id == c.id && r.fields == c.fields
      && r.teams == Some([]) && r.dataSummary == Some(CR.Summary(0, [], CR.DateRange("", ""), ""))
      && (forall u :: u in r.officialSites <==> u in c.officialSites || (u == m.ogUrl && u != ""))
      && r.officialSites[..|c.officialSites|] == c.officialSites
      && |r.officialSites| <= |c.officialSites| + 1
      && (c.logoUrl != "" ==> r.logoUrl == c.logoUrl)
      && (c.logoUrl == "" && m.ogImage != "" ==> r.logoUrl == m.ogImage)
      && (c.logoUrl == "" && m.ogImage == "" ==> r.logoUrl == m.icon)
  {
    var m := fetch(c.officialSites[k]).value;
    SnocPrefix(c.officialSites, m.ogUrl);
  }

  /** Merging twice with the same metadata changes nothing more. */
  lemma MergeIdempotent(c: Comp, m: Meta)
    ensures Merged(Merged(c, m), m) == Merged(c, m)
  {
    var s := MergedSites(c.officialSites, m);
    if m.ogUrl != "" {
      assert m.ogUrl in s;
    }
  }

  /** The candidate loop: the first site whose fetch does not raise, and its metadata. */
  method FetchFirst(sites: seq<string>, fetch: string -> Option<Meta>) returns (meta: Option<Meta>, officialUrl: string)
    ensures var k := FirstWhere(sites, Fetched(fetch));
      (k == |sites| ==> meta.None? && officialUrl == "")
      && (k < |sites| ==> meta == fetch(sites[k]) && officialUrl == sites[k])
  {
    meta, officialUrl := None, "";
    var i := 0;
    while i < |sites|
      invariant 0 <= i <= |sites|
      invariant forall j :: 0 <= j < i ==> fetch(sites[j]).None?
    {
      var got := fetch(sites[i]);
      if got.Some? {
        meta, officialUrl := got, sites[i];
        return;
      }
      i := i + 1;
    }
  }

  /** The body of the competition loop. */
  method UpdateOne(c: Comp, only: seq<string>, fetch: string -> Option<Meta>) returns (r: Comp)
    ensures r == Updated(c, only, fetch)
  {
    r := c;
    if |only| > 0 && c.id !in only {
      return;
    }
    var sites := c.officialSites;
    if |sites| == 0 {
      return;
    }
    var meta, officialUrl := FetchFirst(sites, fetch);
    if meta.None? {
      return;
    }
    var m := meta.value;
    if m.ogUrl != "" && m.ogUrl !in sites {
      sites := sites + [m.ogUrl];
      r := r.(officialSites := sites);
    }
    if r.logoUrl == "" {
      var logo := if m.ogImage != "" then m.ogImage else m.icon;
      if logo != "" {
        r := r.(logoUrl := logo);
      }
    }
    r := r.(teams := Some([]), dataSummary := Some(ZeroSummary));
  }

  /** `update_competitions`: every competition in place, in order; what is written is the updated list. */
  method UpdateCompetitions(comps: seq<Comp>, only: seq<string>, fetch: string -> Option<Meta>) returns (out: seq<Comp>)
    ensures out == Map(comps, UpdatedFn(only, fetch))
  {
    out := comps;
    var i := 0;
    while i < |comps|
      invariant 0 <= i <= |comps| && |out| == |comps|
      invariant out[..i] == Map(comps[..i], UpdatedFn(only, fetch)) && out[i..] == comps[i..]
    {
      var r := UpdateOne(out[i], only, fetch);
      assert out[i] == comps[i];
      UpdateStep(comps, out, i, r, UpdatedFn(only, fetch));
      out := out[i := r];
      i := i + 1;
    }
    TakeAll(comps);
    TakeAll(out);
  }

  lemma UpdateStep(comps: seq<Comp>, out: seq<Comp>, i: nat, r: Comp, f: Comp -> Comp)
    requires i < |comps| == |out| && out[..i] == Map(comps[..i], f) && out[i..] == comps[i..] && r == f(comps[i])
    ensures out[i := r][..i + 1] == Map(comps[..i + 1], f) && out[i := r][i + 1..] == comps[i + 1..]
  {
    SnocMap(comps, i, f);
    assert out[i := r][..i + 1] == out[..i] + [r];
    assert out[i := r][i + 1..] == out[i + 1..];
    assert out[i + 1..] == out[i..][1..];
    assert comps[i + 1..] == comps[i..][1..];
  }

  /** The written list has the length and order of the base list, each entry its own update. */
  lemma UpdatedListSpec(comps: seq<Comp>, only: seq<string>, fetch: string -> Option<Meta>)
    ensures |Map(comps, UpdatedFn(only, fetch))| == |comps|
    ensures forall i :: 0 <= i < |comps| ==> Map(comps, UpdatedFn(only, fetch))[i] == Updated(comps[i], only, fetch)
  {
    MapSpec(comps, UpdatedFn(only, fetch));
  }
}
