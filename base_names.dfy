/**
 * Team-name normalisation and national-team ids of the base collector
 * (`BaseScraper` in src/collectors/base.py): the competition tables, the
 * national-variant patterns, `_generate_national_team_id` and
 * `_normalize_team_name` with its alias tables, dynamic sponsor detection
 * against the cached base names, and the static sponsor fallback.
 */
module BaseNames {
  import opened Text
  import opened Affix

  /** INTERNATIONAL_COMPETITIONS: competition id -> category. */
  const InternationalCompetitions: map<string, string> :=
    map["m6n" := "M", "w6n" := "W", "u6n" := "U20", "trc" := "M", "ans" := "M", "wr" := "M"]

  /** The same keys in dict order (`list(INTERNATIONAL_COMPETITIONS)`). */
  const InternationalOrder: seq<string> := ["m6n", "w6n", "u6n", "trc", "ans", "wr"]

  const CountryCodes: map<string, string> := map[
    "ENGLAND" := "ENG", "England" := "ENG", "ENG" := "ENG",
    "FRANCE" := "FRA", "France" := "FRA", "FRA" := "FRA",
    "IRELAND" := "IRE", "Ireland" := "IRE", "IRE" := "IRE",
    "ITALY" := "ITA", "Italy" := "ITA", "ITA" := "ITA",
    "SCOTLAND" := "SCO", "Scotland" := "SCO", "SCO" := "SCO",
    "WALES" := "WAL", "Wales" := "WAL", "WAL" := "WAL",
    "ARGENTINA" := "ARG", "Argentina" := "ARG",
    "AUSTRALIA" := "AUS", "Australia" := "AUS",
    "NEW ZEALAND" := "NZL", "New Zealand" := "NZL",
    "SOUTH AFRICA" := "RSA", "South Africa" := "RSA",
    "JAPAN" := "JPN", "Japan" := "JPN",
    "FIJI" := "FIJ", "Fiji" := "FIJ",
    "USA" := "USA",
    "CHILE" := "CHI", "Chile" := "CHI"]

  /** SPONSOR_PATTERNS, in list order. */
  const SponsorPatterns: seq<Pattern> := [
    Leading("DHL"), Leading("ISUZU"), Leading("GALLAGHER"), Leading("Hollywoodbets"), Leading("Vodacom"),
    Trailing("GIO"), Trailing("HBF"), Trailing("FMG"), Trailing("SKY"), Trailing("DHL"),
    Trailing("ISUZU"), Trailing("GALLAGHER"), Trailing("4R"), Suffix(["FOUR", "R"]),
    Trailing("CHURCHILL"), Trailing("MCLEAN"), Trailing("HIF"), Suffix(["HFC", "BANK"])]

  /** COMPETITION_TEAM_ALIASES: per competition, (raw name, official name) in dict order. */
  const CompetitionTeamAliases: map<string, seq<(string, string)>> := map[
    "epcr-champions" := [
      ("Bayonne", "Aviron Bayonnais"), ("Bordeaux-Begles", "Union Bordeaux Bègles"),
      ("Clermont Auvergne", "ASM Clermont Auvergne"), ("La Rochelle", "Stade Rochelais"),
      ("Pau", "Section Paloise"), ("Toulon", "RC Toulon"), ("Toulouse", "Stade Toulousain"),
      ("Stade Francais Paris", "Stade Français Paris")],
    "epcr-challenge" := [
      ("Lyon O.U.", "Lyon Olympique Universitaire"), ("Montauban", "US Montauban"),
      ("Montpellier", "Montpellier Hérault Rugby"), ("Perpignan", "USAP"),
      ("Stade Francais Paris", "Stade Français Paris")],
    "jrlo-div1" := [
      ("埼玉ワイルドナイツ", "埼玉パナソニックワイルドナイツ"), ("東京サンゴリアス", "東京サントリーサンゴリアス")],
    "jrlo-div3" := [("スカイアクティブズ広島", "マツダスカイアクティブズ広島")]]

  /** The Super Rugby Pacific spellings keyed by upper-cased name. */
  const SrpAliases: map<string, string> := map[
    "BLUES" := "Blues", "BRUMBIES" := "Brumbies", "CHIEFS" := "Chiefs", "CRUSADERS" := "Crusaders",
    "FIJIAN DRUA" := "Fijian Drua", "FORCE" := "Western Force", "HIGHLANDERS" := "Highlanders",
    "HURRICANES" := "Hurricanes", "MOANA PASIFIKA" := "Moana Pasifika", "REDS" := "Queensland Reds",
    "WARATAHS" := "NSW Waratahs"]

  // ---------------------------------------------------------------- variants

  /** `_is_national_team_variant`: A, XV, Barbarians, Women, U20 or Development at the end. */
  predicate IsNationalTeamVariant(name: string)
  {
    Matches(Trailing("A"), name) || Matches(Trailing("XV"), name) || Matches(Trailing("Barbarians"), name)
    || Matches(Trailing("Women"), name) || Matches(Trailing("U20"), name) || Matches(Trailing("Development"), name)
  }

  /** `_extract_national_team_variant_suffix`: the first of A, XV, Barbarians, Development ("Dev"). */
  function ExtractVariantSuffix(name: string): (r: Option<string>)
    ensures r.Some? ==> r.value in {"A", "XV", "Barbarians", "Dev"}
    ensures r.Some? ==> IsNationalTeamVariant(name)
  {
    if Matches(Trailing("A"), name) then Some("A")
    else if Matches(Trailing("XV"), name) then Some("XV")
    else if Matches(Trailing("Barbarians"), name) then Some("Barbarians")
    else if Matches(Trailing("Development"), name) then Some("Dev")
    else None
  }

  /** `re.sub(r'\s+(A|XV|Barbarians|Development)$', '', name, flags=re.IGNORECASE)` */
  function StripVariant(name: string): string
  {
    if Matches(Trailing("A"), name) then Remove(Trailing("A"), name)
    else if Matches(Trailing("XV"), name) then Remove(Trailing("XV"), name)
    else if Matches(Trailing("Barbarians"), name) then Remove(Trailing("Barbarians"), name)
    else Remove(Trailing("Development"), name)
  }

  /** `COUNTRY_CODES.get(base.upper())`, then `COUNTRY_CODES.get(base)`; "" when neither is a key. */
  function CountryCodeOf(base: string): (code: string)
    ensures code != "" <==> (Upper(base) in CountryCodes || base in CountryCodes)
    ensures code != "" ==> code in CountryCodes.Values
  {
    if Upper(base) in CountryCodes then CountryCodes[Upper(base)]
    else if base in CountryCodes then CountryCodes[base]
    else ""
  }

  /** `_generate_national_team_id`: `NT_{cat}_{code}` or `NT_{cat}_{code}_{variant}`. */
  function GenerateNationalTeamId(name: string, comp: string): string
  {
    if comp !in InternationalCompetitions then "" else
    var cat := InternationalCompetitions[comp];
    var variant := ExtractVariantSuffix(name);
    var base := if variant.Some? then Strip(StripVariant(name)) else name;
    var code := CountryCodeOf(base);
    if code == "" then "" else FormatNationalId(cat, code, variant)
  }

  /** `f"NT_{cat}_{code}"`, with `_{variant}` appended when there is one. */
  function FormatNationalId(cat: string, code: string, variant: Option<string>): string
  {
    if variant.Some? then "NT_" + cat + "_" + code + "_" + variant.value else "NT_" + cat + "_" + code
  }

  /** The country key the id generator looks up. */
  function NationalBase(name: string): string
  {
    if ExtractVariantSuffix(name).Some? then Strip(StripVariant(name)) else name
  }

  lemma NationalIdOutsideInternational(name: string, comp: string)
    requires comp !in InternationalCompetitions
    ensures GenerateNationalTeamId(name, comp) == ""
  {
  }

  lemma NationalIdUnknownCountry(name: string, comp: string)
    requires Upper(NationalBase(name)) !in CountryCodes && NationalBase(name) !in CountryCodes
    ensures GenerateNationalTeamId(name, comp) == ""
  {
  }

  /** A national id is `NT_{cat}_{code}` or `NT_{cat}_{code}_{v}` for the competition's category and the base's code. */
  lemma NationalIdShape(name: string, comp: string)
    requires comp in InternationalCompetitions
    requires Upper(NationalBase(name)) in CountryCodes || NationalBase(name) in CountryCodes
    ensures var id := GenerateNationalTeamId(name, comp);
      var cat := InternationalCompetitions[comp];
      var code := CountryCodeOf(NationalBase(name));
      match ExtractVariantSuffix(name)
      case None => id == "NT_" + cat + "_" + code
      case Some(v) => id == "NT_" + cat + "_" + code + "_" + v
  {
  }

  /** The parts of a national id, recovered by splitting on `_`. */
  lemma NationalIdParts(name: string, comp: string)
    requires comp in InternationalCompetitions
    requires Upper(NationalBase(name)) in CountryCodes || NationalBase(name) in CountryCodes
    ensures var cat := InternationalCompetitions[comp];
      var code := CountryCodeOf(NationalBase(name));
      SplitOn(GenerateNationalTeamId(name, comp), '_')
        == ["NT", cat, code] + (match ExtractVariantSuffix(name) case None => [] case Some(v) => [v])
  {
    var variant := ExtractVariantSuffix(name);
    NoUnderscoreInTables(comp, NationalBase(name));
    if variant.Some? { VariantNoUnderscore(variant.value); }
    FormatParts(InternationalCompetitions[comp], CountryCodeOf(NationalBase(name)), variant);
  }

  lemma FormatParts(cat: string, code: string, variant: Option<string>)
    requires '_' !in cat && '_' !in code && (variant.Some? ==> '_' !in variant.value)
    ensures SplitOn(FormatNationalId(cat, code, variant), '_')
        == ["NT", cat, code] + (match variant case None => [] case Some(v) => [v])
  {
    if variant.Some? {
      SplitFour("NT", cat, code, variant.value, '_');
      FourParts(cat, code, variant.value);
      assert ["NT", cat, code] + [variant.value] == ["NT", cat, code, variant.value];
    } else {
      SplitThree("NT", cat, code, '_');
      assert "NT_" + cat + "_" + code == "NT" + ['_'] + cat + ['_'] + code;
      assert ["NT", cat, code] + [] == ["NT", cat, code];
    }
  }

  lemma FourParts(cat: string, code: string, v: string)
    ensures "NT_" + cat + "_" + code + "_" + v == "NT" + ['_'] + cat + ['_'] + code + ['_'] + v
  {
    assert "NT_" == "NT" + ['_'];
    assert "_" == ['_'];
  }

  lemma VariantNoUnderscore(v: string)
    requires v in {"A", "XV", "Barbarians", "Dev"}
    ensures '_' !in v
  {
  }

  lemma NoUnderscoreInTables(comp: string, base: string)
    requires comp in InternationalCompetitions
    ensures '_' !in InternationalCompetitions[comp]
    ensures '_' !in CountryCodeOf(base)
  {
    CodeNoUnderscore(CountryCodeOf(base));
  }

  lemma CodeNoUnderscore(code: string)
    requires code == "" || code in CountryCodes.Values
    ensures '_' !in code
  {
    if code != "" {
      var k :| k in CountryCodes && CountryCodes[k] == code;
    }
  }

  lemma SplitThree(a: string, b: string, d: string, c: char)
    requires c !in a && c !in b && c !in d
    ensures SplitOn(a + [c] + b + [c] + d, c) == [a, b, d]
  {
    assert a + [c] + b + [c] + d == a + [c] + (b + [c] + d);
    SplitOnHead(a, b + [c] + d, c);
    SplitOnHead(b, d, c);
    SplitOnAbsent(d, c);
  }

  lemma SplitFour(a: string, b: string, d: string, e: string, c: char)
    requires c !in a && c !in b && c !in d && c !in e
    ensures SplitOn(a + [c] + b + [c] + d + [c] + e, c) == [a, b, d, e]
  {
    assert a + [c] + b + [c] + d + [c] + e == a + [c] + (b + [c] + d + [c] + e);
    SplitOnHead(a, b + [c] + d + [c] + e, c);
    SplitThree(b, d, e, c);
  }

  // ----------------------------------------------------------- normalisation

  /**
   * `_base_team_names`: for each competition (in first-appearance order) the
   * stripped names and short names of its catalog teams. `names[c]` lists a
   * competition's set in some order; Python iterates the set in hash order.
   */
  datatype NameCache = NameCache(comps: seq<string>, names: map<string, seq<string>>)

  function BasesOf(cache: NameCache, comp: string): seq<string>
  {
    if comp in cache.names then cache.names[comp] else []
  }

  /** `aliases.get(key)`: the entry whose raw name is the key itself. */
  function AliasDirect(aliases: seq<(string, string)>, key: string): (r: Option<string>)
    ensures r.Some? ==> exists k :: 0 <= k < |aliases| && aliases[k] == (key, r.value)
  {
    if |aliases| == 0 then None
    else if aliases[0].0 == key then Some(aliases[0].1)
    else
      var r := AliasDirect(aliases[1..], key);
      if r.Some? then assert exists k :: 0 <= k < |aliases[1..]| && aliases[1..][k] == (key, r.value); r
      else r
  }

  /** The first entry whose normalised raw name equals the normalised key. */
  function AliasScan(aliases: seq<(string, string)>, key: string, aliasKey: string -> string): (r: Option<string>)
    ensures r.Some? ==> exists k :: 0 <= k < |aliases| && aliasKey(aliases[k].0) == key && aliases[k].1 == r.value
    ensures r.None? ==> forall k :: 0 <= k < |aliases| ==> aliasKey(aliases[k].0) != key
  {
    if |aliases| == 0 then None
    else if aliasKey(aliases[0].0) == key then Some(aliases[0].1)
    else
      var r := AliasScan(aliases[1..], key, aliasKey);
      assert forall k :: 0 < k < |aliases| ==> aliases[k] == aliases[1..][k - 1];
      r
  }

  /** The competition alias the name maps to, if any (direct key first, then the scan). */
  function AliasHit(name: string, comp: string, aliasKey: string -> string): Option<string>
  {
    if comp != "" && comp in CompetitionTeamAliases && |CompetitionTeamAliases[comp]| > 0 then
      var aliases := CompetitionTeamAliases[comp];
      var key := aliasKey(name);
      var direct := AliasDirect(aliases, key);
      if direct.Some? then direct else AliasScan(aliases, key, aliasKey)
    else None
  }

  /** `re.match(r'^[A-Z0-9\s]+$', x, re.IGNORECASE)` */
  predicate SponsorWord(x: string)
  {
    |x| > 0 && forall i :: 0 <= i < |x| ==> IsAlnum(x[i]) || IsSpace(x[i])
  }

  /** The three dynamic tests of a cached base name against a (stripped) team name. */
  predicate MatchesBase(name: string, b: string)
  {
    Upper(name) == Upper(b)
    || (StartsWith(Upper(name), Upper(b) + " ") && SponsorWord(Strip(name[|b|..])))
    || (EndsWith(Upper(name), " " + Upper(b)) && SponsorWord(Strip(name[..|name| - (|b| + 1)])))
  }

  /** The first base name, in iteration order, that passes a dynamic test. */
  function FirstBaseMatch(name: string, bases: seq<string>): Option<string>
  {
    if |bases| == 0 then None
    else if MatchesBase(name, bases[0]) then Some(bases[0])
    else FirstBaseMatch(name, bases[1..])
  }

  /** The dynamic search over the competitions in scope, in order. */
  function DynamicMatch(name: string, comps: seq<string>, cache: NameCache): Option<string>
  {
    if |comps| == 0 then None
    else
      var m := FirstBaseMatch(name, BasesOf(cache, comps[0]));
      if m.Some? then m else DynamicMatch(name, comps[1..], cache)
  }

  /** `search_comps`: every international competition, the competition itself, or every cached one. */
  function SearchComps(comp: string, cache: NameCache): seq<string>
  {
    if comp == "" then cache.comps
    else if comp in InternationalCompetitions then InternationalOrder
    else [comp]
  }

  /** Some cached base name equals `x` up to case. */
  predicate KnownBase(x: string, bases: seq<string>)
  {
    exists k :: 0 <= k < |bases| && Upper(x) == Upper(bases[k])
  }

  /** One sponsor pattern of the fallback: its result is kept only when it names a known base. */
  function StaticStep(name: string, p: Pattern, bases: seq<string>): string
  {
    KeepCandidate(name, Strip(Remove(p, name)), bases)
  }

  /** The stripped candidate replaces the name when it is non-empty, new, and a known base. */
  function KeepCandidate(name: string, candidate: string, bases: seq<string>): string
  {
    if candidate != "" && candidate != name && KnownBase(candidate, bases) then candidate else name
  }

  lemma KeepCandidateSpec(name: string, candidate: string, bases: seq<string>)
    requires Trimmed(candidate)
    ensures var r := KeepCandidate(name, candidate, bases); r == name || (r != "" && KnownBase(r, bases))
    ensures Trimmed(name) ==> Trimmed(KeepCandidate(name, candidate, bases))
  {
  }

  /** One step returns its input or a non-empty known base, and keeps a trimmed name trimmed. */
  lemma StaticStepSpec(name: string, p: Pattern, bases: seq<string>)
    ensures var r := StaticStep(name, p, bases); r == name || (r != "" && KnownBase(r, bases))
    ensures Trimmed(name) ==> Trimmed(StaticStep(name, p, bases))
  {
    KeepCandidateSpec(name, Strip(Remove(p, name)), bases);
  }

  /** The static fallback over the sponsor patterns in list order. */
  function StaticFallback(name: string, patterns: seq<Pattern>, bases: seq<string>): string
    decreases |patterns|
  {
    if |patterns| == 0 then name else StaticFallback(StaticStep(name, patterns[0], bases), patterns[1..], bases)
  }

  /** The alias table, the Super Rugby spellings and the kept national variants, in that order. */
  function FixedRule(n: string, comp: string, aliasKey: string -> string): Option<string>
  {
    var alias := AliasHit(n, comp, aliasKey);
    if alias.Some? then alias
    else if comp == "srp" && Upper(n) in SrpAliases then Some(SrpAliases[Upper(n)])
    else if comp in InternationalCompetitions && IsNationalTeamVariant(n) then Some(n)
    else None
  }

  /** The base names the static fallback accepts: those of the competition itself. */
  function FallbackBases(comp: string, cache: NameCache): seq<string>
  {
    if comp == "" then [] else BasesOf(cache, comp)
  }

  /** Dynamic detection, then the static fallback. */
  function Detect(n: string, comp: string, cache: NameCache): string
  {
    var dynamic := DynamicMatch(n, SearchComps(comp, cache), cache);
    if dynamic.Some? then dynamic.value
    else Strip(StaticFallback(n, SponsorPatterns, FallbackBases(comp, cache)))
  }

  /** `_normalize_team_name(team_name, competition_id)`; "" stands for a missing competition. */
  function NormalizeTeamName(name: string, comp: string, cache: NameCache, aliasKey: string -> string): string
  {
    if name == "" then "" else
    var n := Strip(name);
    var fixed := FixedRule(n, comp, aliasKey);
    if fixed.Some? then fixed.value else Detect(n, comp, cache)
  }

  // ------------------------------------------------------------------ lemmas

  lemma NormalizeEmpty(comp: string, cache: NameCache, aliasKey: string -> string)
    ensures NormalizeTeamName("", comp, cache, aliasKey) == ""
  {
  }

  /** A competition alias hit wins over every other rule. */
  lemma NormalizeAliasFirst(name: string, comp: string, cache: NameCache, aliasKey: string -> string)
    requires name != "" && AliasHit(Strip(name), comp, aliasKey).Some?
    ensures NormalizeTeamName(name, comp, cache, aliasKey) == AliasHit(Strip(name), comp, aliasKey).value
  {
  }

  /** Every alias hit is an official name of that competition's table. */
  lemma AliasHitOfficial(name: string, comp: string, aliasKey: string -> string)
    requires AliasHit(name, comp, aliasKey).Some?
    ensures comp in CompetitionTeamAliases
    ensures exists k :: (0 <= k < |CompetitionTeamAliases[comp]|
      && CompetitionTeamAliases[comp][k].1 == AliasHit(name, comp, aliasKey).value)
  {
  }

  lemma InternationalHasNoAliases(comp: string, n: string, aliasKey: string -> string)
    requires comp in InternationalCompetitions
    ensures AliasHit(n, comp, aliasKey).None? && comp != "srp"
  {
    assert comp !in CompetitionTeamAliases;
  }

  /** In an international competition a variant-suffixed name is kept as it is (trimmed). */
  lemma NormalizeKeepsVariant(name: string, comp: string, cache: NameCache, aliasKey: string -> string)
    requires name != "" && comp in InternationalCompetitions && IsNationalTeamVariant(Strip(name))
    ensures NormalizeTeamName(name, comp, cache, aliasKey) == Strip(name)
  {
    InternationalHasNoAliases(comp, Strip(name), aliasKey);
  }

  lemma {:induction false} FirstBaseMatchSound(name: string, bases: seq<string>)
    requires FirstBaseMatch(name, bases).Some?
    ensures FirstBaseMatch(name, bases).value in bases
    ensures MatchesBase(name, FirstBaseMatch(name, bases).value)
  {
    if !MatchesBase(name, bases[0]) { FirstBaseMatchSound(name, bases[1..]); }
  }

  lemma {:induction false} FirstBaseMatchComplete(name: string, bases: seq<string>, b: string)
    requires b in bases && MatchesBase(name, b)
    ensures FirstBaseMatch(name, bases).Some?
  {
    if bases[0] != b && !MatchesBase(name, bases[0]) { FirstBaseMatchComplete(name, bases[1..], b); }
  }

  /** A dynamic hit is a cached base name of a competition in scope that passes a test. */
  lemma {:induction false} DynamicMatchSound(name: string, comps: seq<string>, cache: NameCache)
    requires DynamicMatch(name, comps, cache).Some?
    ensures exists c :: c in comps && DynamicMatch(name, comps, cache).value in BasesOf(cache, c)
    ensures MatchesBase(name, DynamicMatch(name, comps, cache).value)
  {
    var m := FirstBaseMatch(name, BasesOf(cache, comps[0]));
    if m.Some? {
      FirstBaseMatchSound(name, BasesOf(cache, comps[0]));
    } else {
      DynamicMatchSound(name, comps[1..], cache);
      var c :| c in comps[1..] && DynamicMatch(name, comps[1..], cache).value in BasesOf(cache, c);
      assert c in comps;
    }
  }

  /** Whenever some base name in scope passes a test, the dynamic search finds one. */
  lemma {:induction false} DynamicMatchComplete(name: string, comps: seq<string>, cache: NameCache, c: string, b: string)
    requires c in comps && b in BasesOf(cache, c) && MatchesBase(name, b)
    ensures DynamicMatch(name, comps, cache).Some?
  {
    if comps[0] == c {
      FirstBaseMatchComplete(name, BasesOf(cache, c), b);
    } else if FirstBaseMatch(name, BasesOf(cache, comps[0])).None? {
      DynamicMatchComplete(name, comps[1..], cache, c, b);
    }
  }

  /** The static fallback returns its input or a non-empty name equal to a known base up to case. */
  lemma {:induction false} StaticFallbackSpec(name: string, patterns: seq<Pattern>, bases: seq<string>)
    ensures var r := StaticFallback(name, patterns, bases);
      r == name || (r != "" && KnownBase(r, bases))
    ensures Trimmed(name) ==> Trimmed(StaticFallback(name, patterns, bases))
    decreases |patterns|
  {
    if |patterns| > 0 {
      var next := StaticStep(name, patterns[0], bases);
      StaticStepSpec(name, patterns[0], bases);
      StaticFallbackSpec(next, patterns[1..], bases);
    }
  }

  /** With no known base names the static fallback changes nothing. */
  lemma {:induction false} StaticFallbackNoBases(name: string, patterns: seq<Pattern>)
    ensures StaticFallback(name, patterns, []) == name
    decreases |patterns|
  {
    if |patterns| > 0 {
      assert StaticStep(name, patterns[0], []) == name;
      StaticFallbackNoBases(name, patterns[1..]);
    }
  }

  /**
   * Detection on a trimmed name, when some cached base name of a
   * competition in scope passes a dynamic test: the result is such a base
   * name and passes the test.
   */
  lemma DetectFound(n: string, comp: string, cache: NameCache, c: string, b: string)
    requires c in SearchComps(comp, cache) && b in BasesOf(cache, c) && MatchesBase(n, b)
    ensures var r := Detect(n, comp, cache);
      (exists c' :: c' in SearchComps(comp, cache) && r in BasesOf(cache, c')) && MatchesBase(n, r)
  {
    DynamicMatchComplete(n, SearchComps(comp, cache), cache, c, b);
    DynamicMatchSound(n, SearchComps(comp, cache), cache);
  }

  /**
   * Detection on a trimmed name when no cached base name in scope passes a
   * dynamic test: the name itself or a sponsor-stripped candidate equal to
   * a known base of the competition up to case.
   */
  lemma DetectFallback(n: string, comp: string, cache: NameCache)
    requires forall c, b :: c in SearchComps(comp, cache) && b in BasesOf(cache, c) ==> !MatchesBase(n, b)
    requires Strip(n) == n
    ensures var r := Detect(n, comp, cache);
      r == n || KnownBase(r, FallbackBases(comp, cache))
  {
    if DynamicMatch(n, SearchComps(comp, cache), cache).Some? {
      DynamicMatchSound(n, SearchComps(comp, cache), cache);
    }
    assert Trimmed(n);
    TrimmedFallback(n, SponsorPatterns, FallbackBases(comp, cache));
  }

  /** The stripped static fallback of a trimmed name is the name or a known base. */
  lemma TrimmedFallback(n: string, patterns: seq<Pattern>, bases: seq<string>)
    requires Trimmed(n)
    ensures var r := Strip(StaticFallback(n, patterns, bases));
      r == n || KnownBase(r, bases)
  {
    StaticFallbackSpec(n, patterns, bases);
    StripOfTrimmed(StaticFallback(n, patterns, bases));
  }

  /** A fixed rule that applies to the trimmed name decides the normalised name. */
  lemma NormalizeFixed(name: string, comp: string, cache: NameCache, aliasKey: string -> string, v: string)
    requires name != "" && FixedRule(Strip(name), comp, aliasKey) == Some(v)
    ensures NormalizeTeamName(name, comp, cache, aliasKey) == v
  {
  }

  /** When no fixed rule applies, the normalised name is what detection yields on the trimmed name. */
  lemma NormalizeDetects(name: string, comp: string, cache: NameCache, aliasKey: string -> string)
    requires name != ""
    requires AliasHit(Strip(name), comp, aliasKey).None?
    requires !(comp == "srp" && Upper(Strip(name)) in SrpAliases)
    requires !(comp in InternationalCompetitions && IsNationalTeamVariant(Strip(name)))
    ensures NormalizeTeamName(name, comp, cache, aliasKey) == Detect(Strip(name), comp, cache)
  {
    assert FixedRule(Strip(name), comp, aliasKey).None?;
    StripIdempotent(name);
  }
}
