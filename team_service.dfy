/**
 * `src/services/team_service.py`: the legacy catalog regeneration. It gives
 * national teams hyphenated ids (`NT-M-ENG`), numbers new clubs from the
 * largest numeric suffix already in the catalog, keeps the ids of known
 * teams, and reports names that differ only by a sponsor.
 */
module TeamService {
  import opened Text
  import opened Sorting
  import opened Affix
  import BN = BaseNames
  import BC = BaseCatalog

  const InternationalCompetitions: map<string, string> :=
    map["m6n" := "M", "w6n" := "W", "u6n" := "U20", "trc" := "M", "ans" := "M", "wr" := "M"]

  /** This module's country table also knows the three-letter codes of the Rugby Championship and other nations. */
  const CountryCodes: map<string, string> := map[
    "ENGLAND" := "ENG", "England" := "ENG", "ENG" := "ENG",
    "FRANCE" := "FRA", "France" := "FRA", "FRA" := "FRA",
    "IRELAND" := "IRE", "Ireland" := "IRE", "IRE" := "IRE",
    "ITALY" := "ITA", "Italy" := "ITA", "ITA" := "ITA",
    "SCOTLAND" := "SCO", "Scotland" := "SCO", "SCO" := "SCO",
    "WALES" := "WAL", "Wales" := "WAL", "WAL" := "WAL",
    "ARGENTINA" := "ARG", "Argentina" := "ARG", "ARG" := "ARG",
    "AUSTRALIA" := "AUS", "Australia" := "AUS", "AUS" := "AUS",
    "NEW ZEALAND" := "NZL", "New Zealand" := "NZL", "NZL" := "NZL",
    "SOUTH AFRICA" := "RSA", "South Africa" := "RSA", "RSA" := "RSA",
    "JAPAN" := "JPN", "Japan" := "JPN", "JPN" := "JPN",
    "FIJI" := "FIJ", "Fiji" := "FIJ", "FIJ" := "FIJ",
    "CHILE" := "CHI", "Chile" := "CHI", "CHI" := "CHI",
    "USA" := "USA"]

  /** The sponsor patterns of `get_base_team_name`, in list order. */
  const SponsorPatterns: seq<Pattern> := [
    Leading("DHL"), Leading("ISUZU"), Leading("GALLAGHER"),
    Trailing("GIO"), Trailing("HBF"), Trailing("FMG"), Trailing("SKY"), Trailing("DHL"),
    Trailing("ISUZU"), Trailing("GALLAGHER"), Trailing("4R"), Suffix(["FOUR", "R"]),
    Trailing("CHURCHILL"), Trailing("MCLEAN"), Trailing("HIF"), Suffix(["HFC", "BANK"])]

  // ------------------------------------------------------------ names

  lemma KeepSubset(s: string)
    ensures forall c :: c in KeepWordOrSpace(s) ==> c in s
  {
    if |s| > 0 {
      KeepSubset(s[1..]);
      assert forall c :: c in s[1..] ==> c in s;
    }
  }

  lemma {:induction false} CollapseSubset(s: string)
    ensures forall c :: c in CollapseSpaces(s) ==> c in s || c == ' '
    decreases |s|
  {
    if |s| > 0 {
      if IsSpace(s[0]) {
        var t := StripLeft(s);
        CollapseSubset(t);
        assert forall c :: c in t ==> c in s;
      } else {
        CollapseSubset(s[1..]);
        assert forall c :: c in s[1..] ==> c in s;
      }
    }
  }

  /**
   * `normalize_team_name`: upper-case, strip, collapse whitespace runs to one
   * space, then drop every character that is neither a word character nor whitespace.
   */
  function NormalizeTeamName(name: string): (r: string)
    ensures name == "" ==> r == ""
    ensures forall i :: 0 <= i < |r| ==> (IsWordChar(r[i]) || r[i] == ' ') && !IsLowerLetter(r[i])
  {
    if name == "" then ""
    else
      var u := Upper(name);
      var t := Strip(u);
      var c := CollapseSpaces(t);
      var r := KeepWordOrSpace(c);
      NormalizedChars(u, t, c, r);
      r
  }

  /** Every kept character is a word character or a space, and upper-casing left no lower-case letter behind. */
  lemma NormalizedChars(u: string, t: string, c: string, r: string)
    requires forall i :: 0 <= i < |u| ==> !IsLowerLetter(u[i])
    requires t == Strip(u) && c == CollapseSpaces(t) && r == KeepWordOrSpace(c)
    ensures forall i :: 0 <= i < |r| ==> (IsWordChar(r[i]) || r[i] == ' ') && !IsLowerLetter(r[i])
  {
    KeepSubset(c);
    CollapseSubset(t);
    CollapseSpacesSpec(t);
    StripSubset(u, t);
    forall i | 0 <= i < |r| ensures (IsWordChar(r[i]) || r[i] == ' ') && !IsLowerLetter(r[i]) {
      var x := r[i];
      assert x in c;
      var j :| 0 <= j < |c| && c[j] == x;
      if x != ' ' {
        assert x in t;
        var k :| 0 <= k < |u| && u[k] == x;
      }
    }
  }

  lemma StripSubset(u: string, t: string)
    requires t == Strip(u)
    ensures forall x :: x in t ==> x in u
  {
    var l := StripLeft(u);
    assert forall x :: x in t ==> x in l;
  }

  /** Names that agree up to ASCII case normalise alike. */
  lemma NormalizeIgnoresCase(a: string, b: string)
    requires Upper(a) == Upper(b)
    ensures NormalizeTeamName(a) == NormalizeTeamName(b)
  {
    assert |a| == |Upper(a)| == |Upper(b)| == |b|;
  }

  /** `extract_national_team_variant_suffix`: A, XV, Barbarians, Dev, or "" when there is none. */
  function VariantSuffix(name: string): (r: string)
    ensures r in {"", "A", "XV", "Barbarians", "Dev"}
    ensures r != "" <==> BN.ExtractVariantSuffix(name).Some?
  {
    match BN.ExtractVariantSuffix(name)
    case None => ""
    case Some(v) => v
  }

  /** The exact key first, then the upper-cased one. */
  function CountryCode(base: string): (code: string)
    ensures code != "" <==> (base in CountryCodes || Upper(base) in CountryCodes)
  {
    if base in CountryCodes then CountryCodes[base]
    else if Upper(base) in CountryCodes then CountryCodes[Upper(base)]
    else ""
  }

  /** `NT-{cat}-{code}` or `NT-{cat}-{code}-{variant}`. */
  function FormatNationalId(cat: string, code: string, variant: string): string
  {
    if variant != "" then "NT-" + cat + "-" + code + "-" + variant else "NT-" + cat + "-" + code
  }

  /** `generate_national_team_id` */
  function GenerateNationalTeamId(name: string, comp: string): string
  {
    if name == "" || comp !in InternationalCompetitions then ""
    else
      var cat := InternationalCompetitions[comp];
      var variant := VariantSuffix(name);
      var code := CountryCode(Strip(BN.StripVariant(name)));
      if code == "" then "" else FormatNationalId(cat, code, variant)
  }

  /** The id is empty exactly for an empty name, a club competition or an unknown country. */
  lemma NationalIdEmpty(name: string, comp: string)
    ensures GenerateNationalTeamId(name, comp) == ""
        <==> name == "" || comp !in InternationalCompetitions || CountryCode(Strip(BN.StripVariant(name))) == ""
  {
  }

  /** A national id here is built from the competition's category, the country code and the variant. */
  lemma NationalIdShape(name: string, comp: string)
    requires GenerateNationalTeamId(name, comp) != ""
    ensures comp in InternationalCompetitions && name != ""
    ensures var code := CountryCode(Strip(BN.StripVariant(name)));
      code != "" && code in CountryCodes.Values
      && GenerateNationalTeamId(name, comp) == FormatNationalId(InternationalCompetitions[comp], code, VariantSuffix(name))
  {
  }

  /**
   * The collectors join the parts of a national id with `_`, this module
   * with `-`: whenever both schemes give an id for a name, the ids differ.
   */
  lemma NationalIdsDiverge(name: string, comp: string)
    requires GenerateNationalTeamId(name, comp) != "" && BN.GenerateNationalTeamId(name, comp) != ""
    ensures GenerateNationalTeamId(name, comp)[..3] == "NT-"
    ensures BN.GenerateNationalTeamId(name, comp)[..3] == "NT_"
    ensures GenerateNationalTeamId(name, comp) != BN.GenerateNationalTeamId(name, comp)
  {
    var cat := InternationalCompetitions[comp];
    var code := CountryCode(Strip(BN.StripVariant(name)));
    SeparatorsDiffer(cat, code, VariantSuffix(name));
    var variant := BN.ExtractVariantSuffix(name);
    var bcode := BN.CountryCodeOf(BN.NationalBase(name));
    BaseSeparators(BN.InternationalCompetitions[comp], bcode, variant);
  }

  lemma SeparatorsDiffer(cat: string, code: string, v: string)
    ensures FormatNationalId(cat, code, v)[..3] == "NT-"
  {
  }

  lemma BaseSeparators(cat: string, code: string, variant: Option<string>)
    ensures BN.FormatNationalId(cat, code, variant)[..3] == "NT_"
  {
  }

  /** `get_base_team_name`: every sponsor pattern in list order, unconditionally, then strip. */
  function GetBaseTeamName(name: string): (r: string)
    ensures |r| <= |name|
  {
    Strip(RemoveEach(SponsorPatterns, name))
  }

  /** A name no sponsor pattern matches is only stripped. */
  lemma GetBaseTeamNameUnmatched(name: string)
    requires forall k :: 0 <= k < |SponsorPatterns| ==> !Matches(SponsorPatterns[k], name)
    ensures GetBaseTeamName(name) == Strip(name)
  {
    RemoveEachUnmatched(SponsorPatterns, name);
  }

  /** The base name is already stripped. */
  lemma GetBaseTeamNameStripped(name: string)
    ensures Strip(GetBaseTeamName(name)) == GetBaseTeamName(name)
  {
    StripIdempotent(RemoveEach(SponsorPatterns, name));
  }

  const Placeholders: seq<string> := ["リーグ戦", "準々決勝", "準決勝", "決勝"]

  /** `is_placeholder_team`: the name contains a fixture-stage word. */
  predicate IsPlaceholderTeam(name: string)
  {
    name != "" && exists k :: 0 <= k < |Placeholders| && Contains(name, Placeholders[k])
  }

  lemma ContainsWithin(s: string, big: string, small: string, off: nat)
    requires off + |small| <= |big| && big[off..off + |small|] == small
    requires Contains(s, big)
    ensures Contains(s, small)
  {
    var i :| 0 <= i <= |s| && OccursAt(s, i, big);
    var w := s[i..i + |big|];
    assert w == big;
    assert w[off..off + |small|] == small;
    assert forall k :: off <= k < off + |small| ==> w[k] == s[i + k];
    assert s[i + off..i + off + |small|] == w[off..off + |small|];
    assert OccursAt(s, i + off, small);
  }

  /** Both quarter- and semi-final words end in the final's, so two words decide placeholders. */
  lemma IsPlaceholderTeamSpec(name: string)
    ensures IsPlaceholderTeam(name) <==> Contains(name, "決勝") || Contains(name, "リーグ戦")
  {
    if Contains(name, "準々決勝") { ContainsWithin(name, "準々決勝", "決勝", 2); }
    if Contains(name, "準決勝") { ContainsWithin(name, "準決勝", "決勝", 1); }
    if Contains(name, "決勝") { assert Contains(name, Placeholders[3]); }
    if Contains(name, "リーグ戦") { assert Contains(name, Placeholders[0]); }
  }

  // ------------------------------------------------------------ detect_duplicates

  /** The grouping key: the normalised base name. */
  function BaseKey(name: string): string
  {
    NormalizeTeamName(GetBaseTeamName(name))
  }

  function KeysOf(names: seq<string>, key: string -> string): (r: seq<string>)
    ensures |r| == |names| && forall i :: 0 <= i < |names| ==> r[i] == key(names[i])
  {
    seq(|names|, i requires 0 <= i < |names| => key(names[i]))
  }

  /** The non-empty keys in first-appearance order (the defaultdict's key order). */
  function GroupKeys(names: seq<string>, key: string -> string): (ks: seq<string>)
    ensures Distinct(ks)
    ensures forall k :: k in ks <==> k != "" && k in KeysOf(names, key)
  {
    if |names| == 0 then []
    else
      var init := names[..|names| - 1];
      var ks := GroupKeys(init, key);
      var k := key(names[|names| - 1]);
      assert KeysOf(names, key) == KeysOf(init, key) + [k];
      if k == "" || k in ks then ks
      else
        assert forall i :: 0 <= i < |ks| ==> (ks + [k])[i] == ks[i];
        ks + [k]
  }

  /** The names with key `k`, in input order. */
  function Members(names: seq<string>, key: string -> string, k: string): (m: seq<string>)
    ensures forall x :: x in m ==> x in names && key(x) == k
    ensures forall x :: x in names && key(x) == k ==> x in m
  {
    if |names| == 0 then []
    else
      var init := names[..|names| - 1];
      var last := names[|names| - 1];
      assert forall x :: x in names ==> x in init || x == last;
      if key(last) == k then Members(init, key, k) + [last] else Members(init, key, k)
  }

  lemma {:induction false} MembersAbsent(names: seq<string>, key: string -> string, k: string)
    requires k !in KeysOf(names, key)
    ensures Members(names, key, k) == []
  {
    if |names| > 0 {
      var init := names[..|names| - 1];
      assert KeysOf(names, key) == KeysOf(init, key) + [key(names[|names| - 1])];
      MembersAbsent(init, key, k);
    }
  }

  /** Two positions with the same key give a group of at least two. */
  lemma {:induction false} MembersTwo(names: seq<string>, key: string -> string, k: string, i: nat, j: nat)
    requires i < j < |names| && key(names[i]) == k && key(names[j]) == k
    ensures |Members(names, key, k)| >= 2
  {
    var init := names[..|names| - 1];
    if j < |names| - 1 {
      assert init[i] == names[i] && init[j] == names[j];
      MembersTwo(init, key, k, i, j);
    } else {
      assert names[i] == init[i];
      assert names[i] in init;
      assert names[i] in Members(init, key, k);
    }
  }

  function Suggestion(first: string): string
  {
    "統合推奨: " + first + " を代表とする"
  }

  datatype Duplicate = Duplicate(competitionId: string, baseName: string, variations: seq<string>, suggestion: string)

  /** The report entries of one competition, for the keys in order. */
  function DuplicatesFor(comp: string, names: seq<string>, key: string -> string, keys: seq<string>): seq<Duplicate>
  {
    if |keys| == 0 then []
    else
      var prev := DuplicatesFor(comp, names, key, keys[..|keys| - 1]);
      var k := keys[|keys| - 1];
      var m := Members(names, key, k);
      if |m| > 1 then prev + [Duplicate(comp, k, m, Suggestion(m[0]))] else prev
  }

  /** The report over the competitions in dict order, for a grouping key. */
  function DetectWith(items: seq<(string, seq<string>)>, key: string -> string): seq<Duplicate>
  {
    if |items| == 0 then []
    else
      var last := items[|items| - 1];
      DetectWith(items[..|items| - 1], key) + DuplicatesFor(last.0, last.1, key, GroupKeys(last.1, key))
  }

  /** `detect_duplicates(teams_by_comp)` */
  function DetectDuplicates(items: seq<(string, seq<string>)>): seq<Duplicate>
  {
    DetectWith(items, BaseKey)
  }

  /** A well-formed report entry for `names` of `comp`. */
  predicate EntryOf(d: Duplicate, comp: string, names: seq<string>, key: string -> string)
  {
    d.competitionId == comp && d.baseName != "" && |d.variations| >= 2
    && d.variations == Members(names, key, d.baseName) && d.suggestion == Suggestion(d.variations[0])
  }

  /** Each entry of a competition is its group for one key of `keys`, and every group of two or more has an entry. */
  lemma {:induction false} DuplicatesForSpec(comp: string, names: seq<string>, key: string -> string, keys: seq<string>)
    requires forall k :: k in keys ==> k != ""
    ensures var ds := DuplicatesFor(comp, names, key, keys);
      (forall d :: d in ds ==> EntryOf(d, comp, names, key) && d.baseName in keys)
      && (forall k :: k in keys && |Members(names, key, k)| > 1 ==> exists d :: d in ds && d.baseName == k)
  {
    if |keys| > 0 {
      var init := keys[..|keys| - 1];
      assert forall k :: k in init ==> k in keys;
      DuplicatesForSpec(comp, names, key, init);
      assert forall k :: k in keys ==> k in init || k == keys[|keys| - 1];
      var k := keys[|keys| - 1];
      var prev := DuplicatesFor(comp, names, key, init);
      var ds := DuplicatesFor(comp, names, key, keys);
      forall d | d in ds ensures EntryOf(d, comp, names, key) && d.baseName in keys {
        if d !in prev {
          assert k in keys;
          assert d == Duplicate(comp, k, Members(names, key, k), Suggestion(Members(names, key, k)[0]));
        }
      }
    }
  }

  /** Distinct keys give one entry per base name. */
  lemma {:induction false} DuplicatesForDistinct(comp: string, names: seq<string>, key: string -> string, keys: seq<string>)
    requires Distinct(keys)
    ensures var ds := DuplicatesFor(comp, names, key, keys);
      (forall i, j :: 0 <= i < j < |ds| ==> ds[i].baseName != ds[j].baseName)
      && forall d :: d in ds ==> d.baseName in keys
  {
    if |keys| > 0 {
      var init := keys[..|keys| - 1];
      var k := keys[|keys| - 1];
      DuplicatesForDistinct(comp, names, key, init);
      assert k !in init;
      var prev := DuplicatesFor(comp, names, key, init);
      var ds := DuplicatesFor(comp, names, key, keys);
      assert forall d :: d in prev ==> d.baseName in init;
      forall i, j | 0 <= i < j < |ds| ensures ds[i].baseName != ds[j].baseName {
        if j >= |prev| {
          assert ds[i] == prev[i];
          assert ds[i] in prev;
        }
      }
      assert forall d :: d in ds ==> d in prev || d.baseName == k;
    }
  }

  /** Within one competition the report names each base name once. */
  lemma DuplicatesUnique(comp: string, names: seq<string>, key: string -> string)
    ensures var ds := DuplicatesFor(comp, names, key, GroupKeys(names, key));
      forall i, j :: 0 <= i < j < |ds| ==> ds[i].baseName != ds[j].baseName
  {
    DuplicatesForDistinct(comp, names, key, GroupKeys(names, key));
  }

  /**
   * Every entry names a competition of the input, a non-empty base name and
   * at least two variations that share it, in input order, with the first
   * variation as the suggestion.
   */
  lemma {:induction false} DetectSound(items: seq<(string, seq<string>)>, key: string -> string)
    ensures forall d :: d in DetectWith(items, key) ==> exists t :: 0 <= t < |items| && EntryOf(d, items[t].0, items[t].1, key)
  {
    if |items| > 0 {
      var init := items[..|items| - 1];
      var last := items[|items| - 1];
      DetectSound(init, key);
      DuplicatesForSpec(last.0, last.1, key, GroupKeys(last.1, key));
      forall d | d in DetectWith(items, key)
        ensures exists t :: 0 <= t < |items| && EntryOf(d, items[t].0, items[t].1, key)
      {
        if d in DetectWith(init, key) {
          var t :| 0 <= t < |init| && EntryOf(d, init[t].0, init[t].1, key);
          assert items[t] == init[t];
        } else {
          assert EntryOf(d, items[|items| - 1].0, items[|items| - 1].1, key);
        }
      }
    }
  }

  /** Two names of one competition with the same non-empty key are reported together. */
  lemma {:induction false} DetectComplete(items: seq<(string, seq<string>)>, key: string -> string, t: nat, i: nat, j: nat)
    requires t < |items| && i < j < |items[t].1|
    requires key(items[t].1[i]) == key(items[t].1[j]) != ""
    ensures exists d :: (d in DetectWith(items, key) && d.competitionId == items[t].0
                         && d.baseName == key(items[t].1[i]) && items[t].1[i] in d.variations && items[t].1[j] in d.variations)
  {
    var init := items[..|items| - 1];
    if t < |items| - 1 {
      assert items[t] == init[t];
      DetectComplete(init, key, t, i, j);
      var d :| d in DetectWith(init, key) && d.competitionId == init[t].0
        && d.baseName == key(init[t].1[i]) && init[t].1[i] in d.variations && init[t].1[j] in d.variations;
      assert d in DetectWith(items, key);
    } else {
      var names := items[t].1;
      var k := key(names[i]);
      MembersTwo(names, key, k, i, j);
      assert KeysOf(names, key)[i] == k;
      DuplicatesForSpec(items[t].0, names, key, GroupKeys(names, key));
      var d :| d in DuplicatesFor(items[t].0, names, key, GroupKeys(names, key)) && d.baseName == k;
      assert EntryOf(d, items[t].0, names, key);
      assert d in DetectWith(items, key);
    }
  }

  lemma DetectDuplicatesSpec(items: seq<(string, seq<string>)>)
    ensures forall d :: d in DetectDuplicates(items) ==> exists t :: 0 <= t < |items| && EntryOf(d, items[t].0, items[t].1, BaseKey)
    ensures forall t, i, j :: 0 <= t < |items| && 0 <= i < j < |items[t].1| && BaseKey(items[t].1[i]) == BaseKey(items[t].1[j]) != "" ==>
      exists d :: d in DetectDuplicates(items) && d.competitionId == items[t].0 && items[t].1[i] in d.variations && items[t].1[j] in d.variations
  {
    DetectSound(items, BaseKey);
    forall t, i, j | 0 <= t < |items| && 0 <= i < j < |items[t].1| && BaseKey(items[t].1[i]) == BaseKey(items[t].1[j]) != ""
      ensures exists d :: d in DetectDuplicates(items) && d.competitionId == items[t].0 && items[t].1[i] in d.variations && items[t].1[j] in d.variations
    {
      DetectComplete(items, BaseKey, t, i, j);
    }
  }

  /** `base_to_teams`: the keys in order and the names under each. */
  method GroupNames(names: seq<string>, key: string -> string) returns (keys: seq<string>, groups: map<string, seq<string>>)
    ensures keys == GroupKeys(names, key)
    ensures forall k :: k in groups <==> k in keys
    ensures forall k :: k in groups ==> groups[k] == Members(names, key, k)
  {
    keys := [];
    groups := map[];
    var i := 0;
    while i < |names|
      invariant 0 <= i <= |names|
      invariant keys == GroupKeys(names[..i], key)
      invariant forall k :: k in groups <==> k in keys
      invariant forall k :: k in groups ==> groups[k] == Members(names[..i], key, k)
    {
      assert names[..i + 1][..i] == names[..i];
      var baseName := key(names[i]);
      if baseName != "" {
        if baseName !in groups {
          keys := keys + [baseName];
          groups := groups[baseName := []];
          MembersAbsent(names[..i], key, baseName);
        }
        groups := groups[baseName := groups[baseName] + [names[i]]];
      }
      i := i + 1;
    }
    assert names[..i] == names;
  }

  /** The inner loop of `detect_duplicates`: one entry per group of two or more, in key order. */
  method EmitDuplicates(comp: string, names: seq<string>, key: string -> string, keys: seq<string>, groups: map<string, seq<string>>)
    returns (ds: seq<Duplicate>)
    requires forall k :: k in keys ==> k in groups && groups[k] == Members(names, key, k)
    ensures ds == DuplicatesFor(comp, names, key, keys)
  {
    ds := [];
    var j := 0;
    while j < |keys|
      invariant 0 <= j <= |keys|
      invariant ds == DuplicatesFor(comp, names, key, keys[..j])
    {
      assert keys[..j + 1][..j] == keys[..j];
      var group := groups[keys[j]];
      if |group| > 1 {
        ds := ds + [Duplicate(comp, keys[j], group, Suggestion(group[0]))];
      }
      j := j + 1;
    }
    assert keys[..j] == keys;
  }

  /** `detect_duplicates` */
  method DetectDuplicatesLoop(items: seq<(string, seq<string>)>) returns (duplicates: seq<Duplicate>)
    ensures duplicates == DetectDuplicates(items)
  {
    duplicates := [];
    var t := 0;
    while t < |items|
      invariant 0 <= t <= |items|
      invariant duplicates == DetectWith(items[..t], BaseKey)
    {
      assert items[..t + 1][..t] == items[..t];
      var comp := items[t].0;
      var names := items[t].1;
      var keys, groups := GroupNames(names, BaseKey);
      var ds := EmitDuplicates(comp, names, BaseKey, keys, groups);
      duplicates := duplicates + ds;
      t := t + 1;
    }
    assert items[..t] == items;
  }
}
