# rugby_scraper — a Dafny model of its team and match identity logic

rugby_scraper collects rugby fixtures from official sources and writes them as
JSON match files. The sources are League One, Super Rugby Pacific, the Six
Nations, the EPCR cups, RugbyViz feeds and World Rugby. Alongside the matches
it keeps a team master (`teams.json`) and competition metadata.

This project models the logic that decides **who is who** and **which match is
which**, and proves properties of it:

- **Team names and ids** (`BaseNames`, `BaseCatalog`). Team names are
  normalised through alias tables, dynamic sponsor stripping against cached
  base names, and a static sponsor fallback. National ids look like
  `NT_M_ENG`. Club ids look like `<comp>_<n>`. `_resolve_team_id` works
  against the in-memory team catalog, and every change to the catalog is gated
  by `_update_team_master`. The official-logo pass is modelled too.
- **Match identity** (`BaseMatches`). This covers round numbers,
  `assign_match_ids` (numbering each competition, season and round in kickoff
  order), and the parsing of `UTC`, `±HH:MM` and `UTC±HH:MM` offsets (the
  `time-numoffset` form of section 5.6 of RFC 3339).
- **Catalog regeneration and duplicate analysis** (`TeamService`,
  `TeamServiceMaster`, `TeamValidator`, `TeamMasterService`).
  - The legacy generator numbers clubs from the largest suffix in use, and
    writes national ids with hyphens (`NT-M-ENG`).
  - The validator groups sponsor variants and makes merge plans.
  - The master updater merges scraped team lists with the existing catalog.
- **Passes that fill in empty ids** (`EnrichMatches`, `EnrichTeamIds`,
  `TeamIdBackfill`).
- **Source-specific parsers**:
  - League One dates and division classification (`LeagueOne`,
    `LeagueOneDivisions`);
  - the Super Rugby draw-PDF line machine (`SuperRugby`);
  - EPCR pages (`Epcr`);
  - RugbyViz feeds (`RugbyViz`);
  - the World Rugby filter and pages (`WorldRugby`);
  - Six Nations link times (`SixNations`).
- **Metadata scripts**:
  - competition summaries (`CompetitionRepository`, `GenerateCompetitions`);
  - competition-site merges (`CompetitionMasterService`);
  - logo fetching and validation (`FetchLogos`, `ValidateLogos`);
  - the season migration of old match files (`Migrate`);
  - the static team-master build (`GenerateTeamsMaster`).

The modules `Text`, `Sorting` and `Affix` write out the Python built-ins these
rely on: `str.strip` and `str.split`, `sorted`, and the anchored `re.sub`
patterns.

Each file is modelled in the style of its source:

- **Pure helpers** become functions with lemmas.
- **Loops and objects that update their fields** become methods and classes.
  Examples are the collector and its `_team_master`, and the scrapers with
  their cached config.
- **Each method is proved equal to a specification function**, and the
  properties are proved about that function.

Network calls, the clock and the library pieces become function parameters:
NFKC, SHA-1, `dateutil`, `ZoneInfo`, `urlparse` and `_normalize_alias_key`.
The file system is a value: a map of files, or a log of actions.

To check the proofs, give every file to Dafny at once:

    dafny verify *.dfy

## Model

| member | source | states |
|---|---|---|
| BaseNames.ExtractVariantSuffix | src/collectors/base.py:270-291 | the suffix is one of A, XV, Barbarians or Dev, and a name only has one if the variant test accepts it |
| BaseNames.CountryCodeOf | src/collectors/base.py:332-339 | a code is found exactly when the upper-cased or the exact base name is a key of COUNTRY_CODES, and it is then one of the table's codes |
| BaseNames.NationalIdOutsideInternational | src/collectors/base.py:316-318 | the national id is "" for a competition outside INTERNATIONAL_COMPETITIONS |
| BaseNames.NationalIdUnknownCountry | src/collectors/base.py:332-339 | the national id is "" when the variant-stripped name is a key neither upper-cased nor as it is |
| BaseNames.NationalIdShape | src/collectors/base.py:320-345 | with a known country the id is `NT_{cat}_{code}`, or `NT_{cat}_{code}_{v}` for a variant v |
| BaseNames.NationalIdParts | src/collectors/base.py:341-345 | splitting the id on `_` gives back "NT", the category, the code and the variant, so the id determines them |
| BaseNames.AliasDirect | src/collectors/base.py:378-379 | a direct alias hit is the official name of an entry whose raw name is the key |
| BaseNames.AliasScan | src/collectors/base.py:380-384 | the scan returns the official name of an entry whose normalised raw name equals the key, and finds nothing only when no entry does |
| BaseNames.NormalizeEmpty | src/collectors/base.py:369-370 | the empty name normalises to "" |
| BaseNames.NormalizeAliasFirst | src/collectors/base.py:372-386 | a competition alias hit on the trimmed name is the result, before every other rule |
| BaseNames.AliasHitOfficial | src/collectors/base.py:374-386 | every alias hit is an official name listed in that competition's alias table |
| BaseNames.InternationalHasNoAliases | src/collectors/base.py:24-31 | no international competition has an alias table or is "srp", so neither alias rule fires there |
| BaseNames.NormalizeKeepsVariant | src/collectors/base.py:407-410 | in an international competition a variant-suffixed name is returned trimmed and otherwise unchanged |
| BaseNames.FirstBaseMatchSound | src/collectors/base.py:431-448 | a hit of the base-name scan is one of the scanned names and passes one of the three tests |
| BaseNames.FirstBaseMatchComplete | src/collectors/base.py:431-448 | when some scanned base name passes a test, the scan finds a hit |
| BaseNames.DynamicMatchSound | src/collectors/base.py:412-448 | a dynamic hit is a cached base name of a competition in scope and passes a test |
| BaseNames.DynamicMatchComplete | src/collectors/base.py:412-448 | when some cached base name in scope passes a test, dynamic detection finds a hit |
| BaseNames.DetectFound | src/collectors/base.py:412-448 | when some base name in scope passes a test, the result is a base name in scope that passes a test |
| BaseNames.DetectFallback | src/collectors/base.py:450-460 | when no base name in scope passes a test, the result is the trimmed name, or a candidate equal up to case to a known base name of the competition |
| BaseNames.StaticFallbackSpec | src/collectors/base.py:450-460 | the static fallback returns its input or a non-empty candidate equal up to case to a known base name, and keeps a trimmed name trimmed |
| BaseNames.StaticFallbackNoBases | src/collectors/base.py:455-459 | with no known base names the static fallback changes nothing |
| BaseNames.TrimmedFallback | src/collectors/base.py:450-460 | the stripped fallback of a trimmed name is the name or a known base name |
| BaseNames.NormalizeFixed | src/collectors/base.py:369-410 | when one of the fixed rules (alias, SRP spelling, kept variant) applies to the trimmed name, it decides the result |
| BaseNames.NormalizeDetects | src/collectors/base.py:412-460 | when no fixed rule applies, the result is what dynamic detection and the static fallback give for the trimmed name |
| BaseCatalog.PutNew | src/collectors/base.py:489-501 | adding a record under a new id appends exactly that id and keeps every other record |
| BaseCatalog.RegisterNationalSpec | src/collectors/base.py:474-501 | registration succeeds exactly when updates are on and the id is non-empty and new; it then appends one record named after the team (name and short name), and otherwise changes nothing |
| BaseCatalog.RegisterClubSpec | src/collectors/base.py:664-699 | registration succeeds exactly when updates are on and the id is non-empty and new; the new record keeps the raw name and a short name that is a prefix of at most 20 characters, and otherwise nothing changes |
| BaseCatalog.CompAbbr | src/collectors/base.py:528-540 | every entry of the abbreviation map maps a competition to itself, so the abbreviation is the competition id |
| BaseCatalog.CountComp | src/collectors/base.py:542-546 | the count of records of a competition is at most the number of records |
| BaseCatalog.CountCompPut | src/collectors/base.py:543-549 | adding one record of a competition raises its count by one, so the next club id of that competition changes |
| BaseCatalog.FindTeam | src/collectors/base.py:755-762 | the scan returns a record in scope whose short name (upper) or name (lower) matches, and nothing only when no record in scope matches |
| BaseCatalog.ResolveReadOnly | src/collectors/base.py:741-770 | with updates off resolution never changes the catalog and returns only "" or ids already in it |
| BaseCatalog.ResolveExtends | src/collectors/base.py:717-784 | resolution appends at most one record and keeps every existing one |
| BaseCatalog.ResolveTeam | src/collectors/base.py:717-784 | resolution keeps the catalog well formed, appends at most one record, returns "" or an id of the new catalog, and with updates off changes nothing |
| BaseCatalog.ResolveNationalIdempotent | src/collectors/base.py:741-751 | resolving a national name a second time returns the same id and changes nothing more |
| BaseCatalog.ResolveClubIdempotent | src/collectors/base.py:755-769 | a domestic club whose name is already in normal form resolves to the same id on a second call, with no second registration |
| BaseCatalog.ClubFoundAfterRegistration | src/collectors/base.py:755-769 | a club just registered under its normal-form name is what the next in-competition scan finds |
| BaseCatalog.ResolveNewClub | src/collectors/base.py:764-769 | an unknown domestic name gets `{comp}_{count+1}`; that id is returned even when another record holds it, and then the catalog is unchanged; otherwise the new record keeps the raw name |
| BaseCatalog.NormalizeWithoutBases | src/collectors/base.py:412-460 | with an empty base-name cache, a domestic competition without aliases normalises a name to its trimmed self |
| BaseCatalog.ResolveClubCollision | src/collectors/base.py:543-551 | in a catalog whose only "premier" record holds id premier_2, resolving a new premier team returns premier_2 and registers nothing |
| BaseCatalog.ResolveAliasRegistersAgain | src/collectors/base.py:764-769 | the raw name "REDS" is stored while lookups compare "Queensland Reds", so two resolutions register srp_1 and then srp_2, both named "REDS" |
| BaseCatalog.NormalizeReds | src/collectors/base.py:389-405 | "REDS" in Super Rugby normalises to "Queensland Reds" |
| BaseCatalog.ShouldReplaceLogoSpec | src/collectors/base.py:169-176 | a URL is replaceable exactly when it is empty or contains "thesportsdb.com" in lower case, which already covers the r2 test |
| BaseCatalog.OfferedLogos | src/collectors/base.py:189-192 | whenever a logo is offered, a badge is offered too |
| BaseCatalog.WithLogosSpec | src/collectors/base.py:199-204 | each offered URL replaces the record's own only when that is replaceable, and nothing else changes |
| BaseCatalog.SameNamePassSpec | src/collectors/base.py:206-219 | the same-name pass updates exactly the other records whose stripped, lower-cased name or short name is the entry's, each once, and keeps every key |
| BaseCatalog.PointUpdateSpec | src/collectors/base.py:195-204 | only the resolved record is updated, and only when the id is non-empty and known |
| BaseCatalog.LogoStepSpec | src/collectors/base.py:186-219 | one entry keeps the keys and changes records only in replaceable URLs; the resolved team and every other same-name team receive the offered logo and badge where theirs are replaceable |
| BaseCatalog.ApplyAllSpec | src/collectors/base.py:186-219 | the whole pass keeps every team and its order and changes records only in replaceable URLs |
| BaseCatalog.ApplyLogoResolved | src/collectors/base.py:189-204 | for one entry with a name and logo data, the team it resolves to gets the offered logo_url and badge_url (the logo when no badge is given) where its own are replaceable |
| BaseCatalog.ApplyLogosResolved | src/collectors/base.py:178-219 | with updates on, each entry's resolved team gets the offered URLs in the same way, in the catalog after that entry |
| BaseCatalog.ApplyLogosSpec | src/collectors/base.py:178-183 | with updates off, or with no entries, the catalog is unchanged; otherwise only replaceable URLs change |
| BaseCatalog.CacheMembership | src/collectors/base.py:224-247 | a name is cached under a competition exactly when some record of that competition has it as its stripped name or short name |
| BaseCatalog.CacheCompetitions | src/collectors/base.py:233-240 | the cache has each non-empty competition of a record once, and no other |
| BaseCatalog.AddRecordNames | src/collectors/base.py:234-245 | one record adds its stripped name and short name under its competition |
| BaseCatalog.BuildBaseTeamNamesCache | src/collectors/base.py:224-247 | the loop builds the cache that the fold over the records in dict order defines |
| BaseCatalog.BuildMatchSpecProps | src/collectors/base.py:1006-1038 | `build_match` adds at most the two teams it resolves; with updates off it changes nothing and every id it resolves is a catalog key; the round is the digit run of the round name and the match id stays as given |
| BaseCatalog.IdOrResolveProps | src/collectors/base.py:1012-1015 | a given id is kept with the catalog untouched; otherwise the name is resolved |
| BaseCatalog.SavedName | src/collectors/base.py:887-899 | a saved record has both team names normalised for the collector's competition and every other field unchanged |
| BaseCatalog.SavedNames | src/collectors/base.py:887-899 | the saved list has one record per input record, in order |
| BaseCatalog.Collector.constructor | src/collectors/base.py:109-119 | the collector holds the catalog, the flag and the base-name cache built from the catalog |
| BaseCatalog.Collector.RegisterNationalTeam | src/collectors/base.py:474-501 | the method changes the catalog as `RegisterNational` says and returns whether it registered |
| BaseCatalog.Collector.RegisterClubTeam | src/collectors/base.py:664-699 | the method changes the catalog as `RegisterClub` says and returns whether it registered |
| BaseCatalog.Collector.FindInScope | src/collectors/base.py:756-762 | the loop returns what `FindTeam` specifies |
| BaseCatalog.Collector.ResolveTeamId | src/collectors/base.py:717-784 | the method returns the id and leaves the catalog that `Resolve` specifies |
| BaseCatalog.Collector.ApplyOfficialTeamLogos | src/collectors/base.py:178-222 | the loop leaves the catalog that `ApplyLogos` specifies |
| BaseCatalog.Collector.ApplyOfficialTeamLogo | src/collectors/base.py:187-219 | one entry leaves the catalog that `ApplyLogo` specifies |
| BaseCatalog.Collector.SameNameLogos | src/collectors/base.py:207-219 | the inner loop keeps the ids and leaves the records that `SameNamePass` specifies |
| BaseCatalog.Collector.BuildMatch | src/collectors/base.py:965-1038 | the method returns the match and leaves the catalog that `BuildMatchSpec` specifies |
| BaseCatalog.Collector.NormalizeForSave | src/collectors/base.py:886-899 | the loop returns the records that `SavedNames` specifies |
| BaseMatches.LeadingDigits | src/collectors/base.py:800-801 | the leading digit run is a prefix of the string, all digits, and maximal |
| BaseMatches.FirstDigit | src/collectors/base.py:800 | the position is that of the first digit, or the length when there is none |
| BaseMatches.ExtractRoundSpec | src/collectors/base.py:786-801 | the round number is the maximal digit run at the first digit, and is "" exactly when there is no digit |
| BaseMatches.ExtractRoundOfLabel | src/collectors/base.py:786-801 | "Round N" gives the decimal digits of N |
| BaseMatches.MatchIdEmpty | src/collectors/base.py:818-819 | the id is "" exactly when the competition or the season is empty |
| BaseMatches.MatchIdSequence | src/collectors/base.py:821-828 | the last `-`-separated piece of a non-empty id parses back to the sequence number |
| BaseMatches.MatchIdInjective | src/collectors/base.py:821-828 | within one (competition, season, round), different sequence numbers give different ids |
| BaseMatches.Keys | src/collectors/base.py:849-856 | the group keys are distinct, and a key is listed exactly when its group is non-empty |
| BaseMatches.ConcatIsLabelled | src/collectors/base.py:858-869 | numbering group by group gives the same matches as the reference labelling, in which each match is numbered by the same-key matches before it plus one |
| BaseMatches.AssignedSpec | src/collectors/base.py:830-872 | the result is the input sorted by kickoff_utc, each match carrying the id built from its key and its position among the same-key matches of the sorted batch |
| BaseMatches.EarliestFirst | src/collectors/base.py:872 | the first match returned has the earliest kickoff_utc of the batch |
| BaseMatches.NumberingOrder | src/collectors/base.py:845 | the numbered batch is a permutation of the input, sorted by kickoff, with equal kickoffs in input order |
| BaseMatches.NumbersWithinGroup | src/collectors/base.py:860-868 | within a group the numbers grow strictly in batch order and stay within 1 and the group size |
| BaseMatches.AssignMatchIds | src/collectors/base.py:830-872 | the method returns what `Assigned` specifies |
| BaseMatches.GroupByKey | src/collectors/base.py:848-856 | the grouping loop gives the keys in first-appearance order, and each key's members in order |
| BaseMatches.NumberGroup | src/collectors/base.py:861-869 | one group's members are appended in order, numbered from 1 |
| BaseMatches.NumberGroups | src/collectors/base.py:859-869 | the numbering loop gives each group in key order, numbered from 1 |
| BaseMatches.ParseTimezoneOffset | src/collectors/base.py:909-928 | an accepted offset is strictly within one day |
| BaseMatches.ParseSignedOffset | src/collectors/base.py:916-927 | an accepted signed offset is strictly within one day |
| BaseMatches.ParseFormattedOffset | src/collectors/base.py:909-928 | a `±HH:MM` offset under a day, with or without the "UTC" prefix, parses back to its minutes |
| BaseMatches.ParseSignedBothWays | src/collectors/base.py:914-915 | a signed offset parses the same with and without the "UTC" prefix |
| BaseMatches.TimezoneLabel | src/collectors/base.py:947-963 | for a naive time the label is the hint when it names a zone or parses as an offset, and "UTC" otherwise |
| TeamService.NormalizeTeamName | src/services/team_service.py:83-91 | an empty name normalises to ""; every kept character is a word character or a space and none is a lower-case letter |
| TeamService.NormalizedChars | src/services/team_service.py:88-90 | after upper-casing, stripping, collapsing whitespace and dropping symbols only word characters and spaces remain, none of them lower-case |
| TeamService.NormalizeIgnoresCase | src/services/team_service.py:88 | two names equal up to case normalise to the same key |
| TeamService.VariantSuffix | src/services/team_service.py:94-111 | the suffix is "", A, XV, Barbarians or Dev, and it is non-empty exactly when the collectors' variant test finds one |
| TeamService.CountryCode | src/services/team_service.py:131-134 | a code is found exactly when the exact name or its upper-cased form is a key of COUNTRY_CODES |
| TeamService.NationalIdEmpty | src/services/team_service.py:120-137 | the national id is "" exactly for an empty name, a competition outside INTERNATIONAL_COMPETITIONS, or a variant-stripped name with no country code |
| TeamService.NationalIdShape | src/services/team_service.py:124-143 | a non-empty id is `NT-{category}-{code}` with the variant appended after a `-` when there is one, and the code is one of the table's codes |
| TeamService.NationalIdsDiverge | src/services/team_service.py:140-143 | where this module and the collectors both give a national id for a name, this one starts `NT-`, the collectors' one `NT_`, so they never agree |
| TeamService.GetBaseTeamName | src/services/team_service.py:146-174 | removing sponsor words never lengthens the name |
| TeamService.GetBaseTeamNameUnmatched | src/services/team_service.py:170-174 | a name that no sponsor pattern matches is only stripped |
| TeamService.GetBaseTeamNameStripped | src/services/team_service.py:174 | the base name carries no leading or trailing whitespace |
| TeamService.IsPlaceholderTeamSpec | src/services/team_service.py:177-186 | a name is a placeholder exactly when it contains 決勝 or リーグ戦 (the quarter- and semi-final words both end in 決勝) |
| TeamService.GroupKeys | src/services/team_service.py:312-317 | the group keys are distinct and are exactly the non-empty keys of the names |
| TeamService.Members | src/services/team_service.py:314-317 | a group holds exactly the names whose key is that group's key |
| TeamService.MembersTwo | src/services/team_service.py:320-321 | two names with the same key make a group of at least two |
| TeamService.DuplicatesForSpec | src/services/team_service.py:320-327 | each entry of a competition is the group of one of its keys, and every key with two or more names has an entry |
| TeamService.DuplicatesForDistinct | src/services/team_service.py:320-327 | distinct keys give entries with distinct base names |
| TeamService.DuplicatesUnique | src/services/team_service.py:310-327 | within one competition each base name is reported once |
| TeamService.DetectSound | src/services/team_service.py:306-329 | every entry names a competition of the input, a non-empty base name, two or more variations sharing it in input order, and the first variation as the suggestion |
| TeamService.DetectComplete | src/services/team_service.py:306-329 | two names of one competition with the same non-empty key are reported together under that key |
| TeamService.DetectDuplicatesSpec | src/services/team_service.py:306-329 | with the real key (normalised base name), the report is both sound and complete as above |
| TeamService.GroupNames | src/services/team_service.py:312-317 | the loop builds exactly the keys in first-appearance order and, under each, the names with that key |
| TeamService.EmitDuplicates | src/services/team_service.py:320-327 | the loop emits exactly the entries of the groups with two or more names, in key order |
| TeamService.DetectDuplicatesLoop | src/services/team_service.py:306-329 | the nested loops return exactly the report the specification function gives |
| TeamServiceMaster.IndexWith | src/services/team_service.py:336-346 | the index maps each (competition, normalised name) of an indexed record, and each of their ids, to what the last such record in dict order gives |
| TeamServiceMaster.IndexAddSpec | src/services/team_service.py:339-346 | adding one more existing record keeps the index correct for the records seen so far |
| TeamServiceMaster.IndexExisting | src/services/team_service.py:336-346 | the index built from `existing_teams` is consistent: every id it names is one of its records |
| TeamServiceMaster.LastUnderscore | src/services/team_service.py:351-352 | `rsplit("_", 1)` splits at the last underscore: no underscore follows it |
| TeamServiceMaster.MaxIds | src/services/team_service.py:349-357 | each prefix's counter is at least the number of every existing `{prefix}_{n}` id |
| TeamServiceMaster.MaxIdsStep | src/services/team_service.py:350-357 | the counter map over one more id is the previous one updated with that id |
| TeamServiceMaster.RaiseMax | src/services/team_service.py:355 | the counter for the prefix becomes at least n and never drops, and no other prefix changes |
| TeamServiceMaster.ClubNumberOfClubId | src/services/team_service.py:352-437 | a minted club id `{comp}_{n}` reads back as prefix comp and number n |
| TeamServiceMaster.ClubIdFresh | src/services/team_service.py:436-437 | a club number above the existing maximum for its prefix gives an id no existing record has |
| TeamServiceMaster.WithOfficial | src/services/team_service.py:382-428 | a kept record changes only its logos; they change only when the official logo is non-empty, to that logo and to the badge that falls back to it |
| TeamServiceMaster.StepInv | src/services/team_service.py:368-457 | one name's step keeps the invariant: every stored record is a kept existing record or a minted one, and the counters stay above every minted number |
| TeamServiceMaster.NationalStepInv | src/services/team_service.py:370-411 | an international name keeps the indexed record of its national id, mints a fresh national record, or is skipped |
| TeamServiceMaster.KeptStepInv | src/services/team_service.py:416-432 | a domestic name indexed under its normalised form keeps that record's id |
| TeamServiceMaster.MintStepInv | src/services/team_service.py:434-457 | a domestic name not indexed gets a new club id one above its competition's counter |
| TeamServiceMaster.GenerateKeepsOrMints | src/services/team_service.py:332-459 | every record of the regenerated catalog is an existing record under the same id with at most its logos changed, or a new team under its national id or a club id the existing catalog never used |
| TeamServiceMaster.GenerateKeepsKnown | src/services/team_service.py:379-432 | a name matched by national id or by (competition, normalised name) keeps the matched id, and its record is the existing one with at most its logos changed |
| TeamServiceMaster.StepCount | src/services/team_service.py:373-457 | one name adds one to exactly one of the two counters, or is skipped |
| TeamServiceMaster.GenerateCounts | src/services/team_service.py:359-459 | added plus preserved plus the skipped international names equals the number of input names |
| TeamServiceMaster.StepGrow | src/services/team_service.py:389-445 | a step only adds ids to the new catalog, and a matched name's id is among them afterwards |
| TeamServiceMaster.BuildIndex | src/services/team_service.py:336-346 | the indexing loop builds exactly the index the specification function gives |
| TeamServiceMaster.MaxIdsLoop | src/services/team_service.py:349-357 | the counting loop, with its `ValueError` skip, builds exactly the counter map of the specification function |
| TeamServiceMaster.ProcessName | src/services/team_service.py:368-457 | the body of the name loop makes exactly the step of the specification function on the catalog, the counters and the two tallies |
| TeamServiceMaster.ProcessNamesLoop | src/services/team_service.py:366-457 | the loop over one competition's names gives exactly the fold of the step over those names |
| TeamServiceMaster.GenerateTeamMasterLoop | src/services/team_service.py:332-459 | `generate_team_master` returns exactly the catalog and the two counts of the specification function |
| TeamValidator.GetBaseTeamNamePrefix | src/validators/team_validator.py:31-53 | the base name is the stripped form of a leading part of the name (the patterns here are trailing only), and a name no pattern matches is only stripped |
| TeamValidator.Entries | src/validators/team_validator.py:66-76 | only teams with a non-empty competition and a non-empty name are analysed, each with the base name its key gives |
| TeamValidator.AnalyzeSound | src/validators/team_validator.py:62-95 | every reported competition has at least one group, and every group lists, in dict order, all the analysed teams of its competition sharing its base name: at least two, the count, the first id as primary and the other ids as merge candidates |
| TeamValidator.AnalyzeComplete | src/validators/team_validator.py:62-95 | every (competition, base name) shared by two or more analysed teams is reported; each competition appears once and each base name once within it |
| TeamValidator.AnalyzeOverComplete | src/validators/team_validator.py:79-93 | the extraction over the grouped entries reports every shared base name, with distinct competitions and distinct base names |
| TeamValidator.CompDupsComplete | src/validators/team_validator.py:80-90 | over distinct base names, each base with two or more teams has exactly one group and every group's base is one of them |
| TeamValidator.NonEmptyOverSpec | src/validators/team_validator.py:92-93 | a competition is kept exactly when it has groups, once, with its own groups |
| TeamValidator.SummaryBound | src/validators/team_validator.py:186-216 | the redundant teams plus the groups never exceed the total, so `teams_after_merge` is at least the number of groups and never negative |
| TeamValidator.GroupByComp | src/validators/team_validator.py:64-76 | the loop fills `by_comp` with exactly the competitions, base names and team lists, in insertion order, of the analysed entries |
| TeamValidator.EmitAll | src/validators/team_validator.py:79-95 | the extraction loop returns exactly the specification's report |
| TeamValidator.AnalyzeDuplicatesLoop | src/validators/team_validator.py:62-95 | `analyze_duplicates_in_teams` returns exactly the report of the specification function |
| TeamValidator.OccurrencesOfEmpty | src/validators/team_validator.py:117-120 | an empty home or away name is never counted |
| TeamValidator.Bump | src/validators/team_validator.py:118-120 | one increment adds one to exactly that competition's count of that name |
| TeamValidator.Counted | src/validators/team_validator.py:113-116 | the matches a file counts are its leading dictionaries, one for one, up to the first element on which `match.get` raises |
| TeamValidator.CountedStopsAtOther | src/validators/team_validator.py:113-123 | a list with a non-dictionary element counts exactly the matches before it: their counts stay, since the `except` is outside the loop |
| TeamValidator.CountedAllDicts | src/validators/team_validator.py:113-120 | a list of dictionaries only is counted whole |
| TeamValidator.CountMatch | src/validators/team_validator.py:117-120 | one match adds one to its competition's count of its home team and one to that of its away team, each only when non-empty |
| TeamValidator.CountMatches | src/validators/team_validator.py:113-123 | the loop over one file's elements adds to each of the competition's names its uses among the matches read before the first non-dictionary element |
| TeamValidator.CountFiles | src/validators/team_validator.py:108-123 | the loop over one directory's files adds each file's counted uses; a file that cannot be read, parsed or iterated adds nothing, and one that raises part-way keeps what it added |
| TeamValidator.AnalyzeMatchDataUsage | src/validators/team_validator.py:98-125 | every count is the number of uses of that name among the counted matches of that directory's files, non-directories skipped |
| TeamValidator.PlanSorted | src/validators/team_validator.py:137-146 | the plan's teams are the group's teams stably sorted by usage, highest first, the primary's usage is at least every target's, and no team is lost or added |
| TeamValidator.PlanStable | src/validators/team_validator.py:142 | teams of equal usage keep their group order |
| TeamValidator.PlanUsage | src/validators/team_validator.py:137-139 | every usage count is the stats entry for that competition and name, 0 when absent |
| TeamValidator.PlanNames | src/validators/team_validator.py:164-167 | `name_mappings` maps exactly the group's names, the primary's included, to the primary's name |
| TeamValidator.PlanOfReportedGroup | src/validators/team_validator.py:145-146 | a reported group's plan has count-1 merge targets, at least one |
| TeamValidator.UsageCounts | src/validators/team_validator.py:137-139 | the loop attaches to each team of the group its usage count |
| TeamValidator.GroupPlan | src/validators/team_validator.py:134-168 | one group's plan is exactly the specification's plan |
| TeamValidator.PlansLoop | src/validators/team_validator.py:133-168 | the groups of one competition give their plans in order |
| TeamValidator.GenerateMergePlanLoop | src/validators/team_validator.py:128-170 | `generate_merge_plan` returns exactly the specification's plans |
| TeamValidator.AnalysisFeedsPlan | src/validators/team_validator.py:184-208 | every group the analysis reports is non-empty, so the merge plan can always be generated from it |
| TeamMasterService.MapRecords | src/services/team_master_service.py:500-535 | a pass over `merged_teams.values()` changes records only: the keys and their order stay, and each record is the pass applied to it |
| TeamMasterService.UpdateEach | src/services/team_master_service.py:500-535 | the in-place loop over the records ends in exactly the mapped catalog |
| TeamMasterService.SrpAliased | src/services/team_master_service.py:429-437 | only SRP records whose upper-cased stripped name has an alias change: the name becomes the alias, the short name too when it was blank, and nothing else changes |
| TeamMasterService.JrloShortened | src/services/team_master_service.py:499-515 | only the short name can change, and only for a JRLO team the short-names page names, whose current short name is blank, a placeholder or its official name; it becomes the NFKC of the page's short name |
| TeamMasterService.CanonicalShortNames | src/services/team_master_service.py:410-414 | the map holds exactly the teams of the pre-update catalog with a non-blank stripped short name, mapped to it |
| TeamMasterService.Restored | src/services/team_master_service.py:518-535 | only the short name can change; it becomes the canonical one unless that is missing, a placeholder, or a JRLO target that differs after NFKC |
| TeamMasterService.FallbackNames | src/services/team_master_service.py:455-472 | the fallback holds exactly the non-blank names of the existing teams of that competition |
| TeamMasterService.CollectedSpec | src/services/team_master_service.py:452-480 | a non-empty scrape is kept with its logos; an empty or failed one becomes the sorted distinct existing names of the competition, and a failed one has no logos |
| TeamMasterService.CollectAll | src/services/team_master_service.py:449-480 | one team list per selected source, in order |
| TeamMasterService.CollectLoop | src/services/team_master_service.py:449-480 | the competition loop fills `teams_by_comp` and `logos_by_comp` exactly as the specification function does |
| TeamMasterService.JrloShortNames | src/services/team_master_service.py:439-448 | a non-empty short-name map was fetched from the first JRLO source with a short-names page |
| TeamMasterService.FindJrloShortNames | src/services/team_master_service.py:439-448 | the loop with `break` gives exactly that map, and an empty one when the fetch fails |
| TeamMasterService.Overlay | src/services/team_master_service.py:495 | `{**preserved, **new_teams}` has the keys of both sides, the new records where the new side has the key and the preserved ones elsewhere |
| TeamMasterService.OverlayWellFormed | src/services/team_master_service.py:495 | the overlay is a well-formed catalog whose first keys are the preserved side's, in order |
| TeamMasterService.Untouched | src/services/team_master_service.py:490-494 | `preserved` holds exactly the existing teams whose competition is not in `only`, unchanged |
| TeamMasterService.Keep | src/services/team_master_service.py:490-494 | the kept ids are exactly the existing ids outside `only`, and stay distinct |
| TeamMasterService.MergedSpec | src/services/team_master_service.py:489-497 | without `only` the result is the regenerated catalog; with it, exactly the regenerated teams plus the existing teams of other competitions, regenerated records winning |
| TeamMasterService.Selected | src/services/team_master_service.py:403-405 | the processed sources are exactly those in `only`, or all when `only` is empty |
| TeamMasterService.ShortNamePassesLoop | src/services/team_master_service.py:499-535 | the two loops give exactly the two passes of the specification |
| TeamMasterService.ShortNamePassesOnly | src/services/team_master_service.py:499-535 | after the merge only short names change; a usable canonical short name that no JRLO target overrides is restored, a missing or placeholder one changes nothing, and the JRLO pass changes only JRLO teams the page names |
| TeamMasterService.RestoreUsesPrevious | src/services/team_master_service.py:410-535 | the restored short name is the stripped short name the team had before the update |
| TeamMasterService.UpdateTeamMasterLoop | src/services/team_master_service.py:402-538 | `update_team_master` writes exactly the catalog of the specification function |
| TeamMasterService.Before | src/services/team_master_service.py:265 | `split("&quot;")[0]` is a prefix of the URL |
| TeamMasterService.LogosOfSound | src/services/team_master_service.py:261-279 | every recorded team comes from some scanned URL, stored as both logo and badge, and the teams found are exactly the keys of the logos |
| TeamMasterService.UrcLogoSpec | src/services/team_master_service.py:261-277 | a recorded URL contains wp-content/uploads, ends in an image extension after the quote cut, is a prefix of the page URL, and its file-name stem maps to the team |
| TeamMasterService.ScanLogos | src/services/team_master_service.py:261-277 | the URL loop gives exactly the specification's logos and the teams in first-found order |
| TeamMasterService.ExtractUrcClubs | src/services/team_master_service.py:261-280 | the names are exactly the keys of the logos, sorted and without repeats |
| EnrichMatches.ComputeMatchId | scripts/enrich_matches.py:38-41 | the id is the competition, the lower-cased kickoff, home and away joined by `-`, then `-` and the first ten hex digits of the SHA-1 of the raw parts joined by a vertical bar |
| EnrichMatches.EnrichMatchSpec | scripts/enrich_matches.py:49-72 | only the four id fields can change, each only when empty: the competition becomes the file stem, a team id the lower-cased name when that is a key of teams.json, the match id computed from the stem when the kickoff and both teams are known; `changed` is set exactly when the match changed |
| EnrichMatches.EnrichIdempotent | scripts/enrich_matches.py:49-72 | enriching an enriched match changes nothing and reports no change |
| EnrichMatches.MapStepSpec | scripts/enrich_matches.py:49-72 | the loop works match for match, and `changed` is set exactly when some match changed |
| EnrichMatches.EnrichAllSpec | scripts/enrich_matches.py:44-72 | the file's matches after the loop are the enriched matches, and `changed` holds exactly when one of them changed |
| EnrichMatches.EnrichFile | scripts/enrich_matches.py:44-79 | `enrich_file` gives those matches and writes the file exactly when something changed and it is not a dry run |
| EnrichMatches.EnrichMain | scripts/enrich_matches.py:82-94 | an empty teams.json stops the run; otherwise every file is enriched in sorted order and written exactly as above |
| EnrichTeamIds.FindFirst | scripts/enrich_team_ids.py:30-36 | the scan returns the first key, in dict order, whose record is in the competition and matches upper-cased short name or lower-cased name, and None when none does |
| EnrichTeamIds.ResolveTeamIdSpec | scripts/enrich_team_ids.py:24-38 | the id is "" for an empty name or when no record of the competition matches, and otherwise the first matching key in dict order |
| EnrichTeamIds.ResolveTeamIdSound | scripts/enrich_team_ids.py:24-38 | a non-empty id is a key of teams.json whose record belongs to the competition |
| EnrichTeamIds.ResolveTeamIdLoop | scripts/enrich_team_ids.py:24-38 | the loop with its early returns gives exactly the resolved id |
| EnrichTeamIds.FillMatchSpec | scripts/enrich_team_ids.py:49-66 | only an empty team id is filled, with the id resolved in the match's own competition; nothing else changes; the count is the number of ids that changed |
| EnrichTeamIds.FillMatchIdempotent | scripts/enrich_team_ids.py:49-66 | a second pass fills nothing and counts nothing |
| EnrichTeamIds.FillAll | scripts/enrich_team_ids.py:48-66 | the matches after the loop are the filled matches, one for one |
| EnrichTeamIds.FillAllCount | scripts/enrich_team_ids.py:48-66 | `updated_count` is exactly the number of team ids that differ after the pass |
| EnrichTeamIds.FillOne | scripts/enrich_team_ids.py:50-66 | the loop body fills one match and counts as the specification does |
| EnrichTeamIds.EnrichMatchesInFile | scripts/enrich_team_ids.py:40-74 | an empty list gives 0; otherwise the filled matches and their count, and the file is written back exactly when the count is positive |
| EnrichTeamIds.FileTotalChanged | scripts/enrich_team_ids.py:86-98 | the counts summed over the files of a directory are the number of team ids that changed in them |
| EnrichTeamIds.EnrichMain | scripts/enrich_team_ids.py:86-105 | `total_updated` is the sum over the directories and their files in sorted order |
| TeamIdBackfill.ReadOnlyResolverSpec | src/services/team_id_backfill.py:18-35 | a resolver created with `update_team_master=False` never changes the catalog, and a non-empty id it gives is a key of it |
| TeamIdBackfill.BackfillMatchSpec | src/services/team_id_backfill.py:55-68 | only the two team ids change; with `force` or an empty id, the id becomes the one resolved in the directory's competition, even when that is ""; the count is the number of non-empty recomputed ids |
| TeamIdBackfill.BackfillMatchIdempotent | src/services/team_id_backfill.py:55-68 | without `force`, a second pass changes nothing and counts nothing |
| TeamIdBackfill.ForceClears | src/services/team_id_backfill.py:58-61 | with `force`, a set id whose team no longer resolves is cleared and not counted |
| TeamIdBackfill.BackfillItems | src/services/team_id_backfill.py:51-68 | each dict item is backfilled and every other item is kept as it is |
| TeamIdBackfill.BackfillFile | src/services/team_id_backfill.py:40-74 | a file is rewritten exactly when it decoded to a list and some recomputed id is non-empty |
| TeamIdBackfill.BackfillItem | src/services/team_id_backfill.py:52-68 | one item's step, and `changed` is set exactly when the count grows |
| TeamIdBackfill.BackfillItemsLoop | src/services/team_id_backfill.py:50-68 | the loop over a list file gives the specification's items and count, and `changed` exactly when the count is positive |
| TeamIdBackfill.BackfillSkips | src/services/team_id_backfill.py:24-29 | a directory outside `only`, or not a directory, contributes nothing |
| TeamIdBackfill.WrittenBound | src/services/team_id_backfill.py:60-74 | every written file counted at least one id, so a directory writes no more files than ids |
| TeamIdBackfill.BackfillBound | src/services/team_id_backfill.py:36-76 | `updated_files` never exceeds `total_updates` |
| TeamIdBackfill.BackfillDirLoop | src/services/team_id_backfill.py:39-74 | the files of one directory, unreadable and non-list ones skipped, give the specification's written files and count |
| TeamIdBackfill.BackfillOneFile | src/services/team_id_backfill.py:40-74 | the body of the file loop is one step of the specification |
| TeamIdBackfill.BackfillTeamIds | src/services/team_id_backfill.py:34-76 | `backfill_team_ids` gives the specification's written files and `total_updates`, and `updated_files` is the number written, at most `total_updates` |
| LeagueOne.ScrapeYear | src/scraper/league_one.py:17-19 | the scraped season is the one opened by the latest December not after the current date: the previous year before December, the current year in December |
| LeagueOne.ScrapeYearCases | src/scraper/league_one.py:19 | January to November read last year's season, December this year's |
| LeagueOne.ScrapeUrl | src/scraper/league_one.py:21 | the URL is the calendar URL with `?year=` and a number that reads back as the scrape year |
| LeagueOne.SplitThree | src/scraper/league_one.py:144 | `"a b c".split()` gives the three words when none holds whitespace |
| LeagueOne.Format02 | src/scraper/league_one.py:161 | `{month:02}` pads a non-negative month to two digits |
| LeagueOne.FormatDateString | src/scraper/league_one.py:142-164 | fewer than three words give None, and every result ends in `:00` |
| LeagueOne.FormatDateRoundTrip | src/scraper/league_one.py:142-164 | the page's `M.D weekday HH:MM` reads back as year-MM-D HH:MM:00, with month and day as written and a December date in the year before the clock's |
| LeagueOne.DatePart | src/scraper/league_one.py:145-149 | `"M.D".split(".")` gives the month and the day digits |
| LeagueOne.Cleaned | src/scraper/league_one.py:131-133 | the kept texts are exactly the stripped link texts that are non-empty and not "／" |
| LeagueOne.BroadcastersSpec | src/scraper/league_one.py:129-136 | the broadcasters are the kept texts, each once, in order of first appearance |
| LeagueOne.GetBroadcasters | src/scraper/league_one.py:122-140 | no broadcast element gives [], otherwise exactly the deduplicated kept texts |
| LeagueOne.ExtractAll | src/scraper/league_one.py:45-87 | no more rows than containers |
| LeagueOne.ExtractAllSpec | src/scraper/league_one.py:51-85 | one row per container that has date, venue and two teams and a readable date, and every row comes from such a container |
| LeagueOne.ExtractOne | src/scraper/league_one.py:52-85 | one container adds its row exactly when it yields one |
| LeagueOne.ExtractMatches | src/scraper/league_one.py:45-87 | the container loop gives exactly the specification's rows |
| LeagueOneDivisions.SaveSeason | src/collectors/domestic/league_one_divisions.py:122-255 | the output season is the year after the scrape year, so the current date lies between that season's opening December and the next |
| LeagueOneDivisions.GetDivision | src/collectors/domestic/league_one_divisions.py:49-65 | the division is the first list holding the name: div1 exactly for Division 1 teams, div2 for Division 2 teams not in Division 1, "" for names in no list |
| LeagueOneDivisions.InferDivisionFromText | src/collectors/domestic/league_one_divisions.py:67-76 | "" exactly for empty text or text with none of the six labels; div1 exactly when a Division 1 label occurs |
| LeagueOneDivisions.SideDivision | src/collectors/domestic/league_one_divisions.py:155-161 | a side's division is a division or "" |
| LeagueOneDivisions.DivisionsSpec | src/collectors/domestic/league_one_divisions.py:153-171 | a match-level division wins for both sides; otherwise a side's own division is kept and a division known for one side only is copied to the other |
| LeagueOneDivisions.ClassifySpec | src/collectors/domestic/league_one_divisions.py:149-196 | with no match-level division a match is unknown exactly when neither side has a division, it is cross-division exactly when both are known and differ, and it then follows the home side; only the competition id changes |
| LeagueOneDivisions.ClassifyBuckets | src/collectors/domestic/league_one_divisions.py:174-193 | a division list's match carries that division's competition id, and a cross-division match is never unknown |
| LeagueOneDivisions.ClassifyAllSizes | src/collectors/domestic/league_one_divisions.py:149-196 | every match is in exactly one of the division lists and the unknown list unless it is dropped, and cross plus unknown never exceed the matches |
| LeagueOneDivisions.ClassifyAllCompetitions | src/collectors/domestic/league_one_divisions.py:174-193 | every match of a division list carries that division's competition id |
| LeagueOneDivisions.ClassifyMatches | src/collectors/domestic/league_one_divisions.py:149-196 | the classification loop gives exactly the specification's lists |
| LeagueOneDivisions.AssignIds | src/collectors/domestic/league_one_divisions.py:199-212 | one result per match |
| LeagueOneDivisions.AssignIdsSpec | src/collectors/domestic/league_one_divisions.py:199-212 | placeholder sides end with "", and only the two team ids change |
| LeagueOneDivisions.AssignIdsReadOnly | src/collectors/domestic/league_one_divisions.py:199-212 | with a read-only resolver each other side gets the id resolved against the starting catalog in its match's competition, and the catalog is unchanged |
| LeagueOneDivisions.CollectorResolverReadOnly | src/collectors/base.py:717-784 | the collectors' resolver with updates off is read-only |
| LeagueOneDivisions.AssignTeamIds | src/collectors/domestic/league_one_divisions.py:199-212 | the loop with the catalog threaded through gives exactly the specification's matches and catalog |
| SuperRugby.MonthNumber | src/scraper/super_rugby.py:170-174 | `%b` accepts exactly an English month abbreviation in any case and gives its number 1-12 |
| SuperRugby.DayNumber | src/scraper/super_rugby.py:170-174 | `%d` accepts exactly one or two digits worth 1-31 and gives their value |
| SuperRugby.ParseDate | src/scraper/super_rugby.py:170-174 | the date parses exactly when day and month parse, the year has four digits and the day exists in that month; it is then that date |
| SuperRugby.YearDigits | src/scraper/super_rugby.py:170-172 | `str(year)` is four digits exactly for the years 1000-9999 |
| SuperRugby.ParseClock | src/scraper/super_rugby.py:176-179 | a parsed `%H:%M` time has hours 0-23 and minutes 0-59 |
| SuperRugby.ParseClockOfValues | src/scraper/super_rugby.py:176-198 | a local time `h:mm` or `hh:mm` reads back as those hours and minutes |
| SuperRugby.WrapOffset | src/scraper/super_rugby.py:181-185 | a difference under a day becomes an offset in [-720, 840] minutes equal to it modulo a day, and one already in range is kept |
| SuperRugby.TimezoneName | src/scraper/super_rugby.py:187-191 | the name starts with UTC and the sign of the offset |
| SuperRugby.TimezoneNameReadsBack | src/scraper/super_rugby.py:187-191 | the collectors' `_parse_timezone_offset` reads every such name of an offset under a day back as that offset |
| SuperRugby.TimeIndices | src/scraper/super_rugby.py:114 | the time indices are exactly the positions of `h:mm`/`hh:mm` tokens, increasing |
| SuperRugby.VsSplitPair | src/scraper/super_rugby.py:136-139 | `HOME VS AWAY` splits into exactly the two sides when neither holds a VS/vs token |
| SuperRugby.VsSplitNone | src/scraper/super_rugby.py:137-139 | a team text with no VS/vs token stays one piece, so the line is not a fixture |
| SuperRugby.StripChar | src/scraper/super_rugby.py:149 | `strip(",")` leaves no comma at either end |
| SuperRugby.FindIndex | src/scraper/super_rugby.py:148-158 | the first position whose token passes the test, or None when none does |
| SuperRugby.FirstIndex | src/scraper/super_rugby.py:148-158 | the loops with `break` give exactly that first position |
| SuperRugby.VenueStart | src/scraper/super_rugby.py:146-165 | the venue starts at the first venue keyword or mixed-case token, whichever comes first, and no earlier token is either |
| SuperRugby.ParseMatchLine | src/scraper/super_rugby.py:103-207 | without a year there is no match; a parsed match has the year set and is well formed |
| SuperRugby.ParseTokens | src/scraper/super_rugby.py:107-139 | fewer than two time tokens give no match, and a parsed one is well formed |
| SuperRugby.ParseKickoff | src/scraper/super_rugby.py:170-200 | an invalid date gives no match; a parsed one has a kickoff on a real date of the year with an offset its timezone name spells, and the given teams and venue |
| SuperRugby.YearOf | src/scraper/super_rugby.py:50-52 | a draw year has at most four digits |
| SuperRugby.ZFill2 | src/scraper/super_rugby.py:61-62 | a round line zero-fills to exactly two digits |
| SuperRugby.Relabel | src/scraper/super_rugby.py:63-66 | exactly the pending records get `Round NN` as their round, the others are unchanged |
| SuperRugby.ParseMatchLineSound | src/scraper/super_rugby.py:103-207 | `_parse_match_line` only ever gives well-formed answers, so the draw's invariant can rely on it |
| SuperRugby.RoundOfLabel | src/collectors/base.py:786-801 | the round number extracted from `Round NN` is NN |
| SuperRugby.BuiltRound | src/scraper/super_rugby.py:78-95 | a record built in round NN has round name `Round NN` and round NN; one built before any round has both empty; competition 205 and the draw's season |
| SuperRugby.StepKeeps | src/scraper/super_rugby.py:44-99 | every line keeps the draw's invariant |
| SuperRugby.ParsePdfSpec | src/scraper/super_rugby.py:31-101 | every record of a draw has competition 205, the draw year's season, a kickoff on a real date of that year with an offset in [-12:00, +14:00] its timezone name spells, and round fields that say whether it waited for its round |
| SuperRugby.NoYearNoRecord | src/scraper/super_rugby.py:49-105 | before the year line no line adds a record |
| SuperRugby.SkippedLines | src/scraper/super_rugby.py:46-59 | blank, header and bye lines change nothing |
| SuperRugby.YearFixedOnce | src/scraper/super_rugby.py:49-53 | the first year line sets the year and no later line changes it |
| SuperRugby.RoundLineSpec | src/scraper/super_rugby.py:61-67 | a round line zero-pads the round, rewrites every pending record's round to `Round NN`, empties the pending list and adds no record |
| SuperRugby.PendingRule | src/scraper/super_rugby.py:69-99 | a line that adds a record marks it pending exactly when it began with `ROUND ` and no round line came before |
| SuperRugby.RelabelLoop | src/scraper/super_rugby.py:64-65 | the relabelling loop gives exactly the relabelled records |
| SuperRugby.FeedLine | src/scraper/super_rugby.py:44-99 | one iteration of the line loop is one step of the specification, or stops when the parser raises |
| SuperRugby.AddLine | src/scraper/super_rugby.py:69-99 | a line that may be a fixture adds exactly the specification's record and pending index |
| SuperRugby.FeedPage | src/scraper/super_rugby.py:38-99 | the loop over one page's lines is the specification's pass over them |
| SuperRugby.ParsePdfWith | src/scraper/super_rugby.py:31-101 | the page loop with any line parser gives exactly the specification's records |
| SuperRugby.ParsePdfLoop | src/scraper/super_rugby.py:31-101 | `_parse_pdf` gives exactly the specification's records |
| RugbyViz.MakeConfig | src/collectors/european/rugbyviz.py:27-58 | the config keeps the raw season as `season_id` and cuts `season` to its first four characters; the provider is never empty and is the page's one when it has one; the credentials are passed on unchanged |
| RugbyViz.SeasonParamIsRaw | src/collectors/european/rugbyviz.py:82 | the feed is always asked for the raw season id, even when the config season was cut to a year |
| RugbyViz.NonEmptyNames | src/collectors/european/rugbyviz.py:137-139 | the kept names are exactly the non-empty ones among the entries, and nothing is dropped when none is empty |
| RugbyViz.BroadcastersOf | src/collectors/european/rugbyviz.py:137-139 | a non-empty `broadcasters` list is kept as it is; an empty one is replaced by exactly the named `icBroadcasters` entries |
| RugbyViz.RoundNameOf | src/collectors/european/rugbyviz.py:141-145 | `Round ` followed by the rendered round when the round is truthy, else the rendered title when that is truthy, else "" |
| RugbyViz.RoundNumberOfFeed | src/collectors/european/rugbyviz.py:141-145 | a positive round number comes back as the record's round digits; with neither round nor title the round is ""; with only a title string it is that title's digits |
| RugbyViz.MatchSeason | src/collectors/european/rugbyviz.py:148-156 | the match season is never empty: the first four characters of the date, else the config season, else the current year |
| RugbyViz.FileSeason | src/collectors/european/rugbyviz.py:108-121 | the file season is never empty: the config season when there is one, else the year of the first kickoff, else the current year |
| RugbyViz.ResolveEmpty | src/collectors/european/rugbyviz.py:158-163 | an empty team name resolves to "" and leaves the catalog as it was |
| RugbyViz.NormalizeShape | src/collectors/european/rugbyviz.py:158-180 | the record is the one `build_match` makes from the match's fields and the two resolved ids, each resolution seeing the catalog the previous one left |
| RugbyViz.IdForSpec | src/collectors/european/rugbyviz.py:158-163 | a side gets no id exactly when its name is empty; the catalog stays well formed and only grows, and with updates off it is unchanged and any id found is one of its keys |
| RugbyViz.NormalizeSpec | src/collectors/european/rugbyviz.py:133-180 | the record carries the slug as competition, the match season, the round digits, the `UTC` zone hint, the broadcasters with their fallback and no match url; a named home side gets exactly the id `_resolve_team_id` gives |
| RugbyViz.NormalizeAll | src/collectors/european/rugbyviz.py:102 | one record per feed match |
| RugbyViz.NormalizeAllStep | src/collectors/european/rugbyviz.py:102 | normalising one more match appends exactly that match's record, made against the catalog the earlier matches left |
| RugbyViz.NormalizeAllSpec | src/collectors/european/rugbyviz.py:102 | every record satisfies the one-match specification for its own feed match, and the catalog only grows (and is unchanged with updates off) |
| RugbyViz.AllMatches | src/collectors/european/rugbyviz.py:88-100 | with at most one page the matches are the first page's; otherwise they are the earlier pages followed by the last page |
| RugbyViz.CollectPages | src/collectors/european/rugbyviz.py:88-100 | the page loop collects exactly the first page followed by pages 1 to `totalPages - 1` in order |
| RugbyViz.ScrapeSpecProps | src/collectors/european/rugbyviz.py:67-131 | `scrape` stops exactly when the api key is missing; otherwise it gives one record per feed match and saves a file exactly when there are matches, named by the config season when there is one, else after the earliest UTC kickoff |
| RugbyViz.ScrapeCatalog | src/collectors/european/rugbyviz.py:67-131 | the catalog stays well formed and only grows, and with `update_team_master` off it is unchanged |
| RugbyViz.ScrapeSpecCatalog | src/collectors/european/rugbyviz.py:70-106 | without an api key the catalog is untouched; otherwise it is the one normalising the feed matches leaves |
| RugbyViz.RugbyVizScraper.constructor | src/collectors/european/rugbyviz.py:7-25 | the scraper starts with its competition id and slug, its collector and no cached config |
| RugbyViz.RugbyVizScraper.FetchConfig | src/collectors/european/rugbyviz.py:27-58 | a cached config is returned unchanged; otherwise the config built from the page is returned and cached |
| RugbyViz.RugbyVizScraper.NormalizeMatch | src/collectors/european/rugbyviz.py:133-180 | the record returned and the collector's new catalog are those of the one-match specification applied to the old catalog |
| RugbyViz.RugbyVizScraper.NormalizeEach | src/collectors/european/rugbyviz.py:102 | the records and the new catalog are those of normalising every feed match in order from the old catalog |
| RugbyViz.RugbyVizScraper.Scrape | src/collectors/european/rugbyviz.py:67-131 | no result and no file without an api key; otherwise the records, the file and the new catalog are those of the scrape specification over the collected pages |
| SixNations.AnyStartsWith | src/scraper/six_nations.py:113 | holds exactly when some class in the list starts with the prefix |
| SixNations.ClassHasPrefixFalsy | src/scraper/six_nations.py:109-110 | a missing attribute, an empty string and an empty list never have a class with the prefix |
| SixNations.ClassHasPrefixSpec | src/scraper/six_nations.py:108-113 | the test holds exactly when one of the attribute's classes (its whitespace-separated words, for a string) starts with the prefix |
| SixNations.ClassTextAsList | src/scraper/six_nations.py:111-112 | a class string and the list of its whitespace-separated words give the same answer |
| SixNations.InferTimezoneSpec | src/scraper/six_nations.py:281-287 | the zone is one of Paris, Rome and London; Paris exactly for `FRA`/`FRANCE` and Rome exactly for `ITA`/`ITALY`, after stripping and upper-casing |
| SixNations.InferTimezoneCase | src/scraper/six_nations.py:282 | the zone does not depend on the case of the home team's name |
| SixNations.InferTimezoneOfKey | src/scraper/six_nations.py:282 | the zone of the stripped, upper-cased key is the zone of the name itself |
| SixNations.UpperKey | src/scraper/six_nations.py:282 | stripping and upper-casing a name already stripped and upper-cased changes nothing |
| SixNations.LowerStrip | src/scraper/six_nations.py:282 | the key of a lower-cased name is the key of the name |
| SixNations.FirstRunFrom | src/scraper/six_nations.py:250-251 | `re.search` of `DDMMYYYY-HHMM` from a position finds the leftmost run at or after it, and none exactly when there is no run there |
| SixNations.ExtractSpec | src/scraper/six_nations.py:241-268 | a time is found exactly when the url has a run whose leftmost occurrence is a real date and time, and it is that run's time in the given zone; an invalid leftmost run gives `None` without trying a later one |
| SixNations.Stamp | src/scraper/six_nations.py:243-245 | the `DDMMYYYY-HHMM` stamp of a time is 13 characters long |
| SixNations.StampPieces | src/scraper/six_nations.py:250-262 | a stamp laid into a url is a run at that position and reads back as the stamped time |
| SixNations.ExtractOfStamp | src/scraper/six_nations.py:241-268 | round trip: a link with no digit before the stamp gives back exactly the stamped time |
| SixNations.KickoffSpec | src/scraper/six_nations.py:194-209 | every kickoff found is in the home team's zone; a time read from the link wins and the display text is then never read; a kickoff without one from the link needs a date header, a non-blank time text and a successful parse of the two |
| Epcr.MatchesUrl | src/collectors/european/epcr.py:11-15 | the page opened is the site's `/<competition type>/matches` page |
| Epcr.MonthTable | src/collectors/european/epcr.py:176 | each of the twelve English month abbreviations maps to its position in the year, 1-12 |
| Epcr.MonthIndex | src/collectors/european/epcr.py:176 | the k-th abbreviation is known and gives back k |
| Epcr.MonthNumber | src/collectors/european/epcr.py:176 | a month parses exactly when its lower-cased form is one of the twelve abbreviations, and then gives that abbreviation's number 1-12 |
| Epcr.DateParts | src/collectors/european/epcr.py:166 | splitting at the first `, ` separates the weekday from the rest |
| Epcr.DateTimeParts | src/collectors/european/epcr.py:167 | splitting at ` - ` separates the date from the time |
| Epcr.FormatDateOf | src/collectors/european/epcr.py:164-181 | from its three splits the result is `{year}-{MM}-{day} {HH:MM}:00`, with the month number padded and the day as split (not padded), exactly when the month parses, else `None` |
| Epcr.FormatDateShape | src/collectors/european/epcr.py:164-181 | a date line built from a weekday, day, month, year and time reads back as the ISO-like string exactly when the month is known, else `None` |
| Epcr.FormatDateRoundTrip | src/collectors/european/epcr.py:164-181 | round trip: a date line with the month written in any case of its abbreviation gives that month's padded number |
| Epcr.FormatDateNoComma | src/collectors/european/epcr.py:166-181 | a string without `, ` has no second part and gives `None` |
| Epcr.PutLookup | src/collectors/european/epcr.py:61-63 | after `d[k] = v` the key maps to v and every other key keeps its value |
| Epcr.PutUnique | src/collectors/european/epcr.py:61-63 | assignment keeps the dictionary's keys unique |
| Epcr.LastUrl | src/collectors/european/epcr.py:56-63 | the url remembered for a name is never empty |
| Epcr.RecordedSpec | src/collectors/european/epcr.py:56-63 | logos are recorded only under a non-empty name with a non-empty url; the keys are unique and each name maps to the last url seen for it |
| Epcr.RecordedSnoc | src/collectors/european/epcr.py:60-63 | one more sighting is one more guarded assignment |
| Epcr.FixtureInfo | src/collectors/european/epcr.py:65-73 | the url is the match page exactly when the fixture has an id and "" otherwise; the teams and venue are the names of their objects, the date and broadcasters the fixture's own |
| Epcr.FixtureInfosSpec | src/collectors/european/epcr.py:54-79 | one match dictionary per fixture, in order, each that fixture's own |
| Epcr.SplitWords | src/collectors/european/epcr.py:126-127 | every piece of `split()` is a non-empty run without whitespace |
| Epcr.JoinSplit | src/collectors/european/epcr.py:126-127 | words joined by single spaces split back into the same words |
| Epcr.TrimLabelSpec | src/collectors/european/epcr.py:123-127 | the trimmed label's words are the label's words without the last one |
| Epcr.Broadcasters | src/collectors/european/epcr.py:153 | one stripped broadcaster per `/`-separated piece, none of them containing `/` |
| Epcr.RowStep | src/collectors/european/epcr.py:139-154 | a row's date, venue and broadcaster elements each overwrite their key (the date formatted, the broadcasters split); url and teams are untouched |
| Epcr.ApplyRowsDate | src/collectors/european/epcr.py:139-154 | the rows touch only date, venue and broadcasters; a changed date comes from some row's date element, and without one the date is unchanged |
| Epcr.GameInfo | src/collectors/european/epcr.py:108-157 | the url is the site plus the link's href when there is a link; the teams are both set from the two labels or both absent; without the inner container there is no date, venue or broadcasters |
| Epcr.SubBackslashSIdentity | src/collectors/european/epcr.py:86 | as written, the pattern `\\s+` needs a backslash: a name without one is left exactly as it is, whitespace runs included |
| Epcr.NormalizeName | src/collectors/european/epcr.py:86 | as intended, the normalised name is stripped, lower-cased and single-spaced |
| Epcr.FindFrom | src/collectors/european/epcr.py:92-100 | a logo found is the source of a matching image; no logo means every matching image has no source |
| Epcr.FindLogoAsWritten | src/collectors/european/epcr.py:88-100 | an empty team name finds nothing; a logo found is the source of an image whose alt matches under the as-written normalisation |
| Epcr.FindLogo | src/collectors/european/epcr.py:88-100 | the same under the intended normalisation |
| Epcr.LyonAsWritten | src/collectors/european/epcr.py:86 | as written, "Lyon  OU" keeps its doubled space and "Lyon OU" its single one |
| Epcr.LyonIntended | src/collectors/european/epcr.py:86 | as intended, both normalise to "lyon ou" |
| Epcr.LyonApart | src/collectors/european/epcr.py:96 | neither "lyon  ou" nor "lyon ou" lies in the other |
| Epcr.FindLogoFinding | src/collectors/european/epcr.py:86-99 | an image with alt "Lyon  OU" is missed for the label "Lyon OU" as written and found as intended |
| Epcr.HtmlInfos | src/collectors/european/epcr.py:106-157 | the fallback keeps only the non-empty match dictionaries |
| Epcr.NuxtFirst | src/collectors/european/epcr.py:49-79 | a non-empty fixtures list decides the matches and the logos: the cards are never read |
| Epcr.HtmlSnoc | src/collectors/european/epcr.py:106-157 | one more card appends its sightings and, when it is non-empty, its match dictionary |
| Epcr.CardsStep | src/collectors/european/epcr.py:108-157 | one turn of the card loop keeps the matches and the logos on their specifications |
| Epcr.FixturesStep | src/collectors/european/epcr.py:55-74 | one turn of the fixtures loop keeps the matches and the logos on their specifications |
| Epcr.RecordedPair | src/collectors/european/epcr.py:60-63 | a fixture's two sightings are recorded one after the other, home first |
| Epcr.BuildAll | src/collectors/european/epcr.py:219-234 | one record per match dictionary |
| Epcr.BuildAllStep | src/collectors/european/epcr.py:219-234 | building one more dictionary appends its record, made against the catalog the earlier ones left |
| Epcr.UtcHint | src/collectors/european/epcr.py:226 | the "UTC" hint is always the record's zone label, whatever the kickoff parses to |
| Epcr.BuildSpec | src/collectors/european/epcr.py:220-232 | one record carries its dictionary's fields and the catalog stays well formed and only grows |
| Epcr.BuildAllSpec | src/collectors/european/epcr.py:219-234 | one record per dictionary, each with that dictionary's fields; the catalog only grows, and is unchanged with updates off |
| Epcr.ScrapeFromProps | src/collectors/european/epcr.py:214-244 | with no match nothing is saved; otherwise `<competition>/<current year>` is saved with one record per match dictionary, and the catalog only grows |
| Epcr.ScrapeRecords | src/collectors/european/epcr.py:219-238 | each built record carries its dictionary's fields and the "UTC" zone, and `assign_match_ids` leaves them sorted by kickoff, none lost |
| Epcr.EpcrScraper.ChampionsCup | src/collectors/european/epcr.py:206-209 | the Champions Cup scraper uses the type `champions-cup` and the id `epcr-champions` |
| Epcr.EpcrScraper.ChallengeCup | src/collectors/european/epcr.py:246-249 | the Challenge Cup scraper uses the type `challenge-cup` and the id `epcr-challenge` |
| Epcr.EpcrScraper.ReadFixture | src/collectors/european/epcr.py:55-74 | one fixture gives its match dictionary and the logos after its home and away sightings |
| Epcr.EpcrScraper.FromFixtures | src/collectors/european/epcr.py:54-79 | the fixtures loop gives exactly the fixtures' match dictionaries and the logos recorded from their sightings |
| Epcr.EpcrScraper.ReadRows | src/collectors/european/epcr.py:139-154 | the row loop gives the dictionary with every row applied in order |
| Epcr.EpcrScraper.PutFound | src/collectors/european/epcr.py:132-137 | the logo found by the as-written lookup is recorded under the team when it is non-empty |
| Epcr.EpcrScraper.ReadCard | src/collectors/european/epcr.py:108-157 | one card gives its match dictionary and the logos after its labels' sightings |
| Epcr.EpcrScraper.FromCards | src/collectors/european/epcr.py:106-160 | the card loop gives exactly the non-empty match dictionaries and the logos recorded from the cards' sightings |
| Epcr.EpcrScraper.ExtractMatches | src/collectors/european/epcr.py:36-162 | the matches are the fixtures' when there are any, else the cards'; the logos recorded go to the collector's catalog |
| Epcr.EpcrScraper.BuildMatches | src/collectors/european/epcr.py:219-234 | the records and the new catalog are those of building every match dictionary in order |
| Epcr.EpcrScraper.Scrape | src/collectors/european/epcr.py:183-244 | the result, the file and the new catalog are those of the scrape specification over the page |
| WorldRugby.MonthsOfYear | src/collectors/international/world_rugby.py:56-57 | the month lengths of the calendar `timedelta` steps through add up to the year's length |
| WorldRugby.NextDay | src/collectors/international/world_rugby.py:56-57 | the day after a date other than the last is a date |
| WorldRugby.PrevDay | src/collectors/international/world_rugby.py:56-57 | the day before a date other than the first is a date |
| WorldRugby.NextDayOrdinal | src/collectors/international/world_rugby.py:56-57 | the next day's ordinal is one more |
| WorldRugby.PrevDayOrdinal | src/collectors/international/world_rugby.py:56-57 | the previous day's ordinal is one less |
| WorldRugby.AddDays | src/collectors/international/world_rugby.py:56-57 | a date plus some days, when it exists, is a date |
| WorldRugby.AddDaysSpec | src/collectors/international/world_rugby.py:56-57 | adding n days moves the ordinal by exactly n, and overflows exactly when the result leaves years 1 to 9999 |
| WorldRugby.OrdinalBounds | src/collectors/international/world_rugby.py:56-57 | every date's ordinal lies between the first date's and the last date's |
| WorldRugby.Iso | src/collectors/international/world_rugby.py:58 | `%Y-%m-%d` is ten characters with dashes at 4 and 7, whose digit groups read back as the year, month and day |
| WorldRugby.DateWindow | src/collectors/international/world_rugby.py:54-58 | both ends of the window, when it exists, are dates |
| WorldRugby.DateWindowSpec | src/collectors/international/world_rugby.py:15-58 | the window opens 30 days before today and closes 450 days after, spanning 480 days; it exists exactly when both ends are dates |
| WorldRugby.AnySearch | src/collectors/international/world_rugby.py:154-157 | holds exactly when some pattern is found in the text, ignoring case |
| WorldRugby.IsTargetSpec | src/collectors/international/world_rugby.py:150-157 | a competition is kept exactly when it is a non-empty string that no exclude pattern and some include pattern finds |
| WorldRugby.ExcludeWins | src/collectors/international/world_rugby.py:154-155 | an exclude pattern that matches wins over every include pattern |
| WorldRugby.IsTargetCase | src/collectors/international/world_rugby.py:154-157 | the filter ignores letter case |
| WorldRugby.IncludeMonotone | src/collectors/international/world_rugby.py:157 | more include patterns keep at least the same competitions |
| WorldRugby.CompetitionScrapersNarrower | src/collectors/international/world_rugby.py:170-185 | the Rugby Championship and Autumn Nations Series scrapers keep a subset of what the internationals scraper keeps |
| WorldRugby.SplitTeamsSpec | src/collectors/international/world_rugby.py:100-148 | the home side is the first entry and the away side the second; a missing side has no name and later entries are ignored |
| WorldRugby.OffsetNameRoundTrip | src/collectors/international/world_rugby.py:127-141 | for an offset of whole minutes within a day, the zone name reads back through `_parse_timezone_offset` as that offset |
| WorldRugby.OffsetNameIsFormat | src/collectors/international/world_rugby.py:137-140 | the zone name is `UTC` followed by the sign and the padded hours and minutes of the offset |
| WorldRugby.NormalizeAllSnoc | src/collectors/international/world_rugby.py:83-125 | the loop over one more match is the earlier loop followed by one step |
| WorldRugby.Targets | src/collectors/international/world_rugby.py:85-88 | every match kept is of a target competition |
| WorldRugby.FilterFirst | src/collectors/international/world_rugby.py:85-88 | a skipped match leaves no record and resolves no team, so filtering first changes nothing |
| WorldRugby.WriIsClub | src/collectors/international/world_rugby.py:102-103 | "wri" is not a national-team competition |
| WorldRugby.ClubResolve | src/collectors/base.py:717-784 | in such a competition the team is resolved as a club, with no national id tried |
| WorldRugby.ResolveEmpty | src/collectors/international/world_rugby.py:102-103 | an empty name resolves to "" and leaves the catalog as it was |
| WorldRugby.IdForSpec | src/collectors/international/world_rugby.py:102-103 | a side gets no id exactly when its name is empty; the catalog stays well formed and only grows, and with updates off it is unchanged and any id found is one of its keys |
| WorldRugby.NormalizeShape | src/collectors/international/world_rugby.py:95-124 | the record of a kept match is the one `build_match` makes from its fields and the two resolved ids, each resolution seeing the catalog the previous one left |
| WorldRugby.MatchOfFields | src/collectors/international/world_rugby.py:104-123 | the record carries the fields of its match |
| WorldRugby.NormalizeSpec | src/collectors/international/world_rugby.py:83-125 | one API match gives a record exactly when its competition is a target, with "wri", the current year, the event phase's round digits, the offset zone name, the match url and no broadcasters |
| WorldRugby.NormalizeAllSpec | src/collectors/international/world_rugby.py:83-125 | every record carries the fields of its own kept match; the catalog only grows, and is unchanged with updates off |
| WorldRugby.NormalizeAllStep | src/collectors/international/world_rugby.py:85-124 | one more match extends the loop by exactly one step |
| WorldRugby.NormalizeAllAppend | src/collectors/international/world_rugby.py:72-79 | normalising two lists one after the other is normalising their concatenation |
| WorldRugby.LaterPagesStep | src/collectors/international/world_rugby.py:74-79 | one more page appends that page's content |
| WorldRugby.PageStep | src/collectors/international/world_rugby.py:74-79 | normalising one more page on its own, from where the earlier pages left the catalog, extends the whole result |
| WorldRugby.ScrapeFromProps | src/collectors/international/world_rugby.py:35-49 | once the pages are in, `wri/<year>` is saved exactly when some match is of a target competition, with one record per such match; the catalog only grows |
| WorldRugby.FinishProps | src/collectors/international/world_rugby.py:41-49 | one record per normalised record, saved under `wri/<year>` exactly when there is at least one |
| WorldRugby.ScrapeSpecProps | src/collectors/international/world_rugby.py:35-58 | `scrape` returns `None` exactly when the date window overflows, and then saves nothing and changes nothing; otherwise it is the scrape of the window's pages |
| WorldRugby.WorldRugbyScraper.constructor | src/collectors/international/world_rugby.py:8-33 | the internationals scraper starts with its seven include and six exclude patterns |
| WorldRugby.WorldRugbyScraper.WithPatterns | src/collectors/international/world_rugby.py:160-185 | a competition scraper keeps the exclude patterns and replaces the include patterns by its own |
| WorldRugby.WorldRugbyScraper.IsTarget | src/collectors/international/world_rugby.py:150-157 | the method answers as the competition filter over the scraper's patterns |
| WorldRugby.WorldRugbyScraper.NormalizeMatch | src/collectors/international/world_rugby.py:85-124 | the result and the new catalog are those of the one-match specification on the old catalog |
| WorldRugby.WorldRugbyScraper.NormalizeMatches | src/collectors/international/world_rugby.py:83-125 | the records and the new catalog are those of normalising every match in order |
| WorldRugby.WorldRugbyScraper.FetchMatches | src/collectors/international/world_rugby.py:60-81 | page 0 and every later page announced, in order, each normalised from where the previous left the catalog |
| WorldRugby.WorldRugbyScraper.Scrape | src/collectors/international/world_rugby.py:35-52 | the result, the file and the new catalog are those of the scrape specification for today's window |
| CompetitionRepository.LoadMatches | src/repositories/competition_repository.py:535-542 | `[]` exactly for a missing file, undecodable JSON or a decoded empty list; a decoded non-list stays a non-list; otherwise the decoded value |
| CompetitionRepository.CollectAppend | src/repositories/competition_repository.py:570-589 | collecting over two lists is collecting over each, in order |
| CompetitionRepository.CollectMember | src/repositories/competition_repository.py:576-589 | a value is collected exactly when one element contributes it |
| CompetitionRepository.ParseDatetime | src/repositories/competition_repository.py:545-551 | an empty value parses to nothing |
| CompetitionRepository.Later | src/repositories/competition_repository.py:593 | the new last-updated time is the larger of the old one and the mtime, and one of them |
| CompetitionRepository.LatestSpec | src/repositories/competition_repository.py:561-593 | the running maximum over no mtime is nothing, else it is one of them and at least every one |
| CompetitionRepository.WithEntriesAppend | src/repositories/competition_repository.py:576-589 | the entry loop over two lists is the loop over the first, continued over the second |
| CompetitionRepository.WithFilesClosed | src/repositories/competition_repository.py:570-593 | the file loop, file by file, equals its closed form |
| CompetitionRepository.WithFilesAppend | src/repositories/competition_repository.py:563-593 | the file loop over two lists is the loop over the first, continued over the second |
| CompetitionRepository.CoverageOf | src/repositories/competition_repository.py:603-613 | the coverage always has a non-empty provider list; a missing or empty coverage becomes the default with the global providers; otherwise its regions and other keys are kept and only a missing or empty provider list is replaced by the global one |
| CompetitionRepository.DateRangeSpec | src/repositories/competition_repository.py:595-622 | no parsed kickoff gives the empty range; otherwise the ends are the ISO forms of the earliest and the latest kickoff |
| CompetitionRepository.SortedEnds | src/repositories/competition_repository.py:597-600 | a sorted list of kickoffs starts with its least and ends with its greatest |
| CompetitionRepository.StartClosed | src/repositories/competition_repository.py:557-593 | the loop state holds the collected teams, seasons and kickoffs of every dict entry, the count of every list element and the newest mtime |
| CompetitionRepository.SummaryTeams | src/repositories/competition_repository.py:579-618 | `teams` is strictly increasing and holds exactly the truthy home and away names of the dict entries |
| CompetitionRepository.TeamsSorted | src/repositories/competition_repository.py:618 | sorting the collected teams gives a strictly increasing list of exactly the truthy names |
| CompetitionRepository.SeasonsSorted | src/repositories/competition_repository.py:621 | sorting the collected seasons gives a strictly increasing list of exactly the truthy seasons |
| CompetitionRepository.TeamsMember | src/repositories/competition_repository.py:579-582 | a team is collected exactly when it is the truthy home or away name of a dict entry |
| CompetitionRepository.SeasonsMember | src/repositories/competition_repository.py:583-584 | a season is collected exactly when it is the truthy season of a dict entry |
| CompetitionRepository.SummarySeasons | src/repositories/competition_repository.py:583-621 | `seasons` is strictly increasing and holds exactly the truthy seasons of the dict entries |
| CompetitionRepository.SummaryCount | src/repositories/competition_repository.py:572-620 | `match_count` counts every element of every list file, dicts or not; other files add nothing |
| CompetitionRepository.SummaryDates | src/repositories/competition_repository.py:586-622 | the range spans the earliest and the latest parsed kickoff, or is empty when none parses |
| CompetitionRepository.SummaryLastUpdated | src/repositories/competition_repository.py:591-623 | `last_updated` is the ISO form of the newest mtime of an existing file, or "" when there is none |
| CompetitionRepository.AddEntry | src/repositories/competition_repository.py:576-589 | one dict entry adds its truthy names and season and its parsed kickoff, and nothing else |
| CompetitionRepository.EntriesStep | src/repositories/competition_repository.py:576-589 | one more entry extends the entry loop by that entry's contribution |
| CompetitionRepository.AddEntries | src/repositories/competition_repository.py:576-589 | the entry loop ends in the state its specification gives |
| CompetitionRepository.AddFile | src/repositories/competition_repository.py:570-593 | one path adds its entries when it holds a list, and its mtime when it exists |
| CompetitionRepository.AddFiles | src/repositories/competition_repository.py:570-593 | the file loop ends in the state its specification gives |
| CompetitionRepository.PathsStep | src/repositories/competition_repository.py:563-568 | one more data path continues the file loop over that path's files |
| CompetitionRepository.AddPaths | src/repositories/competition_repository.py:563-593 | the data-path loop goes through the `*.json` files of a directory in sorted order, or the path itself |
| CompetitionRepository.Assemble | src/repositories/competition_repository.py:595-625 | the entry holds the base, the coverage, the sorted teams and a summary of the count, the sorted seasons, the range and the last update |
| CompetitionRepository.Summarise | src/repositories/competition_repository.py:556-626 | the loop body builds exactly that competition's entry |
| CompetitionRepository.BuiltSpec | src/repositories/competition_repository.py:554-628 | one entry per base competition, in the same order, each that competition's own |
| CompetitionRepository.BuildCompetitions | src/repositories/competition_repository.py:554-628 | the competition loop returns the list of every competition's entry |
| CompetitionRepository.BuiltKeepsBase | src/repositories/competition_repository.py:603-616 | each entry keeps its base's fields, and a base whose coverage lists no analysis provider gets the global ones |
| GenerateCompetitions.LegacyFilesAgree | src/metadata/generate_competitions.py:247-249 | when no data path names a directory, the generator reads the same files as the repository |
| GenerateCompetitions.LegacyAgrees | src/metadata/generate_competitions.py:238-297 | every generated entry keeps its base and has the empty coverage; when no data path is a directory its teams and summary are the repository's |
| GenerateCompetitions.LegacyBuiltSpec | src/metadata/generate_competitions.py:238-297 | one entry per base competition, in order, each that competition's own |
| GenerateCompetitions.LegacyStep | src/metadata/generate_competitions.py:247-271 | one more data path continues the loop with that path loaded as one file |
| GenerateCompetitions.LegacyPaths | src/metadata/generate_competitions.py:247-271 | the data-path loop loads each path as one file, in order |
| GenerateCompetitions.LegacyBuild | src/metadata/generate_competitions.py:238-297 | the competition loop returns the list of every competition's entry |
| CompetitionMasterService.UnchangedWhenSkipped | src/services/competition_master_service.py:63-83 | a competition outside `only`, without sites, or none of whose sites can be fetched is left unchanged |
| CompetitionMasterService.MergeRules | src/services/competition_master_service.py:85-104 | a processed competition takes the metadata of its first fetchable site: `og:url` joins the sites once, at the end; the logo is filled only when missing, `og:image` before the favicon; `teams` and `data_summary` are cleared; the id and every other key stay |
| CompetitionMasterService.MergeIdempotent | src/services/competition_master_service.py:85-104 | merging twice with the same metadata changes nothing more |
| CompetitionMasterService.FetchFirst | src/services/competition_master_service.py:72-80 | the metadata and url are those of the first site whose fetch does not raise, or none when every fetch raises |
| CompetitionMasterService.UpdateOne | src/services/competition_master_service.py:64-104 | the loop body gives exactly the updated competition |
| CompetitionMasterService.UpdateCompetitions | src/services/competition_master_service.py:56-107 | what is written is the list of every competition's update, in order |
| CompetitionMasterService.UpdateStep | src/services/competition_master_service.py:63 | updating entry i in place extends the updated prefix by it and leaves the rest as it was |
| CompetitionMasterService.UpdatedListSpec | src/services/competition_master_service.py:63-107 | the written list has the base list's length and order, each entry its own update |
| FetchLogos.DropRun | scripts/maintenance/fetch_logos.py:62 | dropping a leading run of non-slug characters leaves a suffix that starts with a slug character, shorter when there was such a run, with the same letters and digits |
| FetchLogos.HyphenateRunsShape | scripts/maintenance/fetch_logos.py:62 | replacing each run of other characters by one hyphen leaves no two hyphens adjacent and keeps a leading letter or digit |
| FetchLogos.HyphenateRunsChars | scripts/maintenance/fetch_logos.py:62 | the replacement keeps every letter and digit, in order |
| FetchLogos.DropHyphens | scripts/maintenance/fetch_logos.py:63 | dropping leading hyphens leaves a suffix with no leading hyphen and the same letters and digits |
| FetchLogos.CollapseSingle | scripts/maintenance/fetch_logos.py:63 | collapsing hyphen runs changes nothing once no two hyphens are adjacent |
| FetchLogos.DropTrailingHyphens | scripts/maintenance/fetch_logos.py:63 | dropping trailing hyphens leaves a prefix with no trailing hyphen and the same letters and digits |
| FetchLogos.StripHyphens | scripts/maintenance/fetch_logos.py:63 | `strip("-")` leaves no hyphen at either end and keeps every letter and digit |
| FetchLogos.Slugify | scripts/maintenance/fetch_logos.py:60-64 | the slug holds only a-z, 0-9 and single hyphens, with none at either end; it is "unknown" when the lowered, stripped text has no letter or digit, and otherwise has exactly that text's letters and digits in order |
| FetchLogos.SlugBodySpec | scripts/maintenance/fetch_logos.py:61-63 | before the fallback, the slug keeps the letters and digits of the lowered, stripped text with single hyphens between runs |
| FetchLogos.SlugifyFixed | scripts/maintenance/fetch_logos.py:60-64 | a text that is already a slug is its own slug |
| FetchLogos.SlugifyIdempotent | scripts/maintenance/fetch_logos.py:60-64 | `slugify` is idempotent |
| FetchLogos.SlugifyEmpty | scripts/maintenance/fetch_logos.py:64 | the empty name's slug is "unknown" |
| FetchLogos.WithCompetitionLogo | scripts/maintenance/fetch_logos.py:136-142 | the matched competition takes the logo when there is one, then the repository path, which clears the logo, then the license key; its id and other keys stay |
| FetchLogos.CompetitionsWithLogo | scripts/maintenance/fetch_logos.py:133-145 | the list keeps its length, and only the first entry with the configured id is updated |
| FetchLogos.UpdateCompetitionLogo | scripts/maintenance/fetch_logos.py:103-147 | no league leaves the list alone and returns nothing; otherwise the first league's logo is returned and the first matching competition takes it, with the repository path when saving succeeded |
| FetchLogos.CompetitionLogoRules | scripts/maintenance/fetch_logos.py:122-143 | an entry that changes is the first with the id; when a logo was saved to the repository that entry's logo is cleared and its repository path set |
| FetchLogos.ExistingIndex | scripts/maintenance/fetch_logos.py:166-169 | every index of the `existing` dict is an index of the entry list |
| FetchLogos.ExistingIndexSpec | scripts/maintenance/fetch_logos.py:166-169 | every entry's key is in `existing`, which maps it to the last entry under that key |
| FetchLogos.LowerSlug | scripts/maintenance/fetch_logos.py:179 | a slug is already lower case |
| FetchLogos.SlugForSpec | scripts/maintenance/fetch_logos.py:177-183 | without an override the slug is `slugify(name)`, whatever the team master holds; with one it is the override, or its lower-case form when that is a team master key |
| FetchLogos.MergedEntryRules | scripts/maintenance/fetch_logos.py:187-206 | badge, logo and license key are written only when non-empty; a saved badge clears `badge_url` and sets the repository path; the team key and other keys stay |
| FetchLogos.PoolStep | scripts/maintenance/fetch_logos.py:176-208 | one team appends exactly one reference and keeps every reference valid |
| FetchLogos.Fold | scripts/maintenance/fetch_logos.py:175-208 | the team loop appends one reference per team |
| FetchLogos.Gathered | scripts/maintenance/fetch_logos.py:175-208 | `updated_entries` holds the current state of each appended object, one per team |
| FetchLogos.FoldSpec | scripts/maintenance/fetch_logos.py:166-208 | after the loop each appended object sits under its team's slug, the last existing entry under it or a new `{"team": slug}`, and the existing entries keep their keys |
| FetchLogos.UpdatedSpec | scripts/maintenance/fetch_logos.py:166-208 | one updated entry per team, each under its team's slug; teams whose slug is one existing key share one entry |
| FetchLogos.TeamLogosSpec | scripts/maintenance/fetch_logos.py:150-210 | no team found changes nothing; otherwise `team_logos[comp_id]` holds the updated entries sorted by team, as a permutation; no other competition changes |
| FetchLogos.MergeTeam | scripts/maintenance/fetch_logos.py:187-206 | the loop body leaves the entry its merge specification gives |
| FetchLogos.BuildExisting | scripts/maintenance/fetch_logos.py:166-169 | the comprehension builds exactly the `existing` index |
| FetchLogos.AddTeam | scripts/maintenance/fetch_logos.py:176-208 | one team's turn gives the pool of its specification |
| FetchLogos.TeamLoop | scripts/maintenance/fetch_logos.py:175-208 | the team loop gives the pool of its specification, in the order the teams came |
| FetchLogos.UpdateTeamLogos | scripts/maintenance/fetch_logos.py:150-210 | the new `team_logos` is the one its specification gives |
| FetchLogos.GatheredIs | scripts/maintenance/fetch_logos.py:208-210 | the entries the loop leaves, sorted in, give the specified `team_logos` |
| FetchLogos.MergeLicenseEntries | scripts/maintenance/fetch_logos.py:213-215 | the book gains every configured key with its configured value; every other key keeps its value |
| ValidateLogos.MembersSpec | scripts/validate_official_logos.py:54-59 | a competition's members are exactly the teams naming it |
| ValidateLogos.ByCompSpec | scripts/validate_official_logos.py:54-59 | each competition's group holds exactly its teams in file order; teams without a competition are in no group; a competition is a key exactly when some team names it |
| ValidateLogos.GroupByComp | scripts/validate_official_logos.py:54-59 | the grouping loop builds exactly that grouping |
| ValidateLogos.TeamErrorRules | scripts/validate_official_logos.py:70-79 | a team adds at most one error; a missing logo is one error whatever its domain; a present one is an error exactly when the allowed set is non-empty and lacks its domain |
| ValidateLogos.CompErrorsZero | scripts/validate_official_logos.py:63-79 | a competition adds no error exactly when its count matches and every team passes |
| ValidateLogos.ErrorsZeroIff | scripts/validate_official_logos.py:61-79 | the counter stays zero exactly when every check passes |
| ValidateLogos.OnlyExpectedCount | scripts/validate_official_logos.py:63-64 | only the groups of expected competitions count |
| ValidateLogos.UncheckedTeamIgnored | scripts/validate_official_logos.py:56-64 | a team without a competition, or of one not in the table, changes no error |
| ValidateLogos.LogoErrors | scripts/validate_official_logos.py:70-79 | the team loop counts the errors of its teams, skipping the domain check of a missing logo |
| ValidateLogos.CountErrors | scripts/validate_official_logos.py:61-79 | the loop over the expected competitions counts exactly the specified errors |
| ValidateLogos.CheckOfficialLogos | scripts/validate_official_logos.py:46-86 | `main` returns exactly the specified exit code |
| ValidateLogos.ExitCodeSpec | scripts/validate_official_logos.py:46-86 | the exit code is 0 or 1, and 0 exactly when the file exists and every expected competition passes |
| Migrate.BySeasonKeys | scripts/migrate_to_new_structure.py:78-83 | each season is listed once, and a season is a key exactly when some match of the file has it |
| Migrate.BySeasonLists | scripts/migrate_to_new_structure.py:78-83 | each season's list holds that season's matches, relabelled, in file order |
| Migrate.TotalUpdate | scripts/migrate_to_new_structure.py:83 | appending to one season's list changes the total by exactly the change in that list |
| Migrate.BySeasonTotal | scripts/migrate_to_new_structure.py:78-83 | the season lists hold every match of the old file exactly once in total |
| Migrate.BySeasonLabels | scripts/migrate_to_new_structure.py:80-83 | every migrated match carries the new competition id and sits in its own season's list |
| Migrate.GroupBySeason | scripts/migrate_to_new_structure.py:78-83 | the grouping loop builds exactly that grouping |
| Migrate.WriteLogSpec | scripts/migrate_to_new_structure.py:89-94 | one write per season, in key order, each of that season's matches |
| Migrate.FileActsSpec | scripts/migrate_to_new_structure.py:86-97 | a processed file makes the new directory, writes its seasons, and is removed last; nothing in between removes or backs up |
| Migrate.FileLogSpec | scripts/migrate_to_new_structure.py:61-97 | a file not in the id map or with empty content causes nothing; any other makes its directory, writes one file per season and only then is removed |
| Migrate.FileLogNoBackup | scripts/migrate_to_new_structure.py:61-97 | processing a file never touches the backup |
| Migrate.ProcessLogNoBackup | scripts/migrate_to_new_structure.py:61-97 | the processing loop never touches the backup |
| Migrate.ProcessLogUnlinks | scripts/migrate_to_new_structure.py:61-97 | a file is removed exactly when it is one of the old files and is not skipped |
| Migrate.BackupFirst | scripts/migrate_to_new_structure.py:50-58 | every backup action comes before every other action, and every old file is copied |
| Migrate.WriteSeasons | scripts/migrate_to_new_structure.py:89-94 | the write loop performs exactly the specified writes |
| Migrate.MigrateFile | scripts/migrate_to_new_structure.py:61-97 | the loop body performs exactly the specified actions for one file |
| Migrate.Migrate | scripts/migrate_to_new_structure.py:38-100 | `migrate_matches` performs exactly the specified migration, over a given id map |
| Migrate.MigrateMatches | scripts/migrate_to_new_structure.py:22-100 | the same with the script's competition id map |
| GenerateTeamsMaster.BuildFromAppend | scripts/generate_teams_master.py:185-195 | building from two row lists is building from the first and continuing with the second |
| GenerateTeamsMaster.BuildFromPutAll | scripts/generate_teams_master.py:185-195 | building from rows puts each row's key and record, in order |
| GenerateTeamsMaster.PutAllOk | scripts/generate_teams_master.py:188 | the keys present are exactly the keys put |
| GenerateTeamsMaster.PutAllIds | scripts/generate_teams_master.py:187-189 | when each record's id is its key, every stored record's id is its key |
| GenerateTeamsMaster.PutAllLastAt | scripts/generate_teams_master.py:188 | a key's stored record is the last one put under it |
| GenerateTeamsMaster.PutAllDistinct | scripts/generate_teams_master.py:188 | with distinct keys the dictionary's key order is the order they were put |
| GenerateTeamsMaster.GeneratedSpec | scripts/generate_teams_master.py:180-195 | every record's id is its key, the keys are listed once each, and a key is present exactly when some row has it |
| GenerateTeamsMaster.GeneratedLastRow | scripts/generate_teams_master.py:187-195 | a key's record is the one made from the last row with that key |
| GenerateTeamsMaster.KeyInjective | scripts/generate_teams_master.py:187 | `<competition>-<num>` for a non-negative number determines its competition and number |
| GenerateTeamsMaster.LastSeparator | scripts/generate_teams_master.py:187 | splitting at the last hyphen before a run of digits recovers both parts |
| GenerateTeamsMaster.OneRecordPerRow | scripts/generate_teams_master.py:31-195 | with numbers unique within each competition, every row yields its own record and the keys follow the row order |
| GenerateTeamsMaster.PutTeam | scripts/generate_teams_master.py:187-195 | one row stores its record under `<competition>-<num>` |
| GenerateTeamsMaster.AddStep | scripts/generate_teams_master.py:186-195 | one more team of a competition extends the inner loop by one put |
| GenerateTeamsMaster.AddTeams | scripts/generate_teams_master.py:186-195 | the inner loop stores one competition's rows in order |
| GenerateTeamsMaster.GenerateTeams | scripts/generate_teams_master.py:180-195 | the nested loop builds exactly the catalog of the table's rows |
| GenerateTeamsMaster.RowsStep | scripts/generate_teams_master.py:185-186 | one more competition appends its teams' rows |
| Sorting.SortByPerm | src/collectors/base.py:845 | `sorted` returns a permutation of its input |
| Sorting.SortBySorted | src/collectors/base.py:845 | `sorted` under a total preorder key returns a sorted list |
| Sorting.SortByStable | src/collectors/base.py:845 | `sorted` is stable: within each key class the output keeps the input order |
| Sorting.Dedup | src/scraper/league_one.py:129-134 | the first occurrence of every element, in order: no repeats and the same members |
| Affix.Remove | src/services/team_service.py:172 | one `re.sub` of a pattern that matches at most once shortens the text exactly when the pattern matches, and leaves it unchanged otherwise |
| Affix.TrailingMatch | src/services/team_service.py:172 | a trailing `\s+word$` pattern matches exactly when the text ends, ignoring case, with the word preceded by whitespace |
| Affix.RemoveEachUnmatched | src/services/team_service.py:171-172 | applying the patterns in order changes nothing when none of them matches |

## Left out

Library semantics approximated:
- Case mapping: `str.upper`, `str.lower` and `re.IGNORECASE` are ASCII-only here (`Text.Upper`, `Text.Lower`, `Affix.EqIgnoreCase`). Python maps every Unicode letter, so names with accented or other non-ASCII letters compare differently. `Text.IsLetter` is ASCII-only too, whereas `str.isalpha` (used by the mixed-case venue test at src/scraper/super_rugby.py:156, `SuperRugby.IsMixedCase`) accepts every Unicode letter.
- `\w`: exact on ASCII (letters, digits, `_`). Every non-ASCII character that is not whitespace counts as a word character, whereas Python does not include Unicode punctuation and symbols.
- `$`: these patterns are read as matching only at the very end of the text. Python's `$` also matches just before a trailing newline.
- `\d` and `int()`: only ASCII digits are accepted (`Text.ParseInt`). Python also takes other Unicode decimal digits and `_` between digits in `int()`.
- Missing keys and nulls: in the dictionaries read from JSON, a missing key and a JSON `null` both read as `""`. Two consequences:
  - EnrichTeamIds.FindFirst: a team whose `competition_id` is `null` matches a match whose competition is `""`. In scripts/enrich_team_ids.py:30-31 `None` never equals a string.
  - EnrichTeamIds.FindFirst: a `null` `short_name` raises `AttributeError` at scripts/enrich_team_ids.py:33. The model reads it as `""`.
- Base-name cache order: `_build_base_team_names_cache` builds sets. The model keeps each competition's base names as a sequence, standing for Python's hash-dependent set order. Every lemma about the cache holds for any order.
- `_normalize_alias_key` (src/collectors/base.py:462-472) is a parameter `aliasKey`: it relies on NFKC, case folding and punctuation removal.
- NFKC (src/services/team_master_service.py:360-366) is the parameter `nfkc`.
- SHA-1 (scripts/enrich_matches.py:40) is the parameter `sha1Hex`.

Aliasing and in-place updates, modelled on values:
- BaseMatches.AssignMatchIds: `assign_match_ids` writes `match_id` into the caller's dictionaries. The model returns new records, so aliasing between the input and the output is not captured.
- TeamValidator.GenerateMergePlan: the in-place sort of the team dictionaries and the `usage_count` written into them are modelled as a sorted copy. The caller's dictionaries are not changed in the model.
- BaseCatalog.Collector.NormalizeForSave: `save_to_json` is modelled as the list of records it would write. The file, its date-stamped name and the dictionaries it changes on the way are left out.
- Migrate.MigrateFile: the `competition_id` written into each loaded match dictionary is modelled as a relabelled copy.

I/O, network and clock:
- Network: every HTTP, Selenium and BeautifulSoup step is left out, and its result is an input. This covers the page loads, the `_fetch_*` functions, TheSportsDB, the logo downloads and `_fetch_logo_payload` (src/services/team_service.py:189-249).
- Files: the JSON loads and dumps, `glob`, `mtime`, backups and `print` are left out. Warnings and reports are not modelled.
- Clock: `datetime.now()`, `utcnow()` and the current year are parameters.
- Date parsing: the fuzzy `dateutil` parse, `ZoneInfo` and DST are parameters. `_normalize_datetime` is covered only through its zone label.
- World Rugby `_build_kickoff` (src/collectors/international/world_rugby.py:127-141): its float hour offset is taken as a whole number of seconds. The ISO renderings of the instant are a parameter.
- WorldRugby.WorldRugbyScraper.Scrape: a kept match with `millis` and a `gmtOffset` of 24 hours or more makes `timezone(offset)` raise ValueError (src/collectors/international/world_rugby.py:134-135). The exception reaches the `except` of `scrape` (:50-52), which returns None and saves nothing. The model builds a record for such a match, its zone name spelled from the whole offset, and saves the list.
- WorldRugby.WorldRugbyScraper.NormalizeMatch: for the same match the source raises ValueError out of `_normalize_match`; the model, and WorldRugby.NormalizeSpec with it, gives a record.
- RugbyViz `_extract_config_value` (src/collectors/european/rugbyviz.py:60-65) is not modelled: the values it finds are the `RawConfig` input. As written, its numeric pattern `rf"{key}:(\\d+)"` needs a literal backslash. So on a page holding `season:202501` the season comes back as `None`, which the model covers as an empty `seasonRaw`.
- team_service.py (src/services/team_service.py:252-303, 471-525): `extract_teams_from_matches`, `load_existing_teams`, `update_team_logos` and `main` only read and write files and print, and are not modelled.
- The divisions scraper (src/collectors/domestic/league_one_divisions.py): its HTML lookup `_find_division_near_container` (:78-102) is not modelled; the division read near a container is an input. Its logging and save (:216-261) are left out.

Error paths not modelled:
- BaseMatches.ParseSignedOffset: `timedelta(hours=int(hours), minutes=int(minutes)) * sign` is guarded only by `except ValueError` (src/collectors/base.py:922-926). When the hour and minute fields amount to more than timedelta's bound of 999999999 days (for example `+99999999999:00`, or a minute field of 15 digits), Python raises OverflowError, which nothing in `_parse_timezone_offset` catches. The model, and BaseMatches.SignedFields and BaseMatches.OffsetOf with it, reads such a hint as refused (`None`).
- BaseMatches.ParseTimezoneOffset: for the same hint, with or without the `UTC` prefix, the source raises OverflowError; the model returns `None`.
- BaseMatches.TimezoneLabel: `_normalize_datetime` calls `_parse_timezone_offset` from inside its `except Exception:` for `ZoneInfo` (src/collectors/base.py:949-953), so that OverflowError is not caught and leaves `_normalize_datetime`. The model labels the naive kickoff "UTC" instead.
- BaseCatalog.Collector.BuildMatch: the same OverflowError leaves `build_match` at its `_normalize_datetime` call (src/collectors/base.py:1006), before any team id is resolved, so no record is built and the catalog is left as it was. This needs a naive kickoff and a hint that is not a zone name. The model, and BaseCatalog.BuildMatchSpec with it, returns a record whose timezone is "UTC". The EPCR and RugbyViz models pass the hint "UTC". World Rugby passes a name spelled from the match's offset, and an offset that large already raises ValueError earlier in the source, as the WorldRugby.WorldRugbyScraper.Scrape line says.
- CompetitionRepository.LoadMatches: `load_matches` catches only `json.JSONDecodeError` (src/repositories/competition_repository.py:539-542). A file that is not valid UTF-8 raises `UnicodeDecodeError` there, but the model reads it as `[]`.
- CompetitionRepository.DateRangeOf: a kickoff is an integer instant. The offset that `isoformat()` prints (src/repositories/competition_repository.py:599-600) is in the `iso` parameter. `sorted(dates)` raises `TypeError` on a mix of naive and aware datetimes; the model orders them anyway.
- FetchLogos.UpdateCompetitionLogo: the `fetch_json` error path is left out. In the source an HTTP error at scripts/maintenance/fetch_logos.py:112 or :160 aborts `main` with nothing written. The model starts from TheSportsDB's answer.
- FetchLogos `main` (scripts/maintenance/fetch_logos.py:218-257): the argument parsing, loading, `--only` filter, dry run and writing are left out. The per-competition updates it calls are modelled.
- Migrate.SeasonOf: a JSON `null` season becomes the file `None.json` in Python, and a number becomes its `str()`. The model's season is a string or missing. A file whose content is a non-empty non-list (for example a dictionary) is not modelled.
- The legacy generator (src/metadata/generate_competitions.py:247-249) opens each data path as a file; a path naming a directory raises there. The model reads such a path as an absent file.

Source call sites that cannot run as written:
- `self.build_match`: src/scraper/base.py:6-20 defines no `build_match`. So these call sites raise `AttributeError`:
  - `_parse_pdf` of src/scraper/super_rugby.py (:78-95);
  - `_extract_match_info` of src/scraper/six_nations.py (:215-232);
  - `_extract_matches` of src/scraper/league_one.py (:63-85).
- What the model gives instead: SuperRugby.ParsePdfSpec, SuperRugby.ParsePdfWith, SuperRugby.ParsePdfLoop and LeagueOne.ExtractMatches give the `build_match` arguments the code assembles. SixNations.KickoffSpec stops at the kickoff.
- Super Rugby: `scrape` catches that exception at src/scraper/super_rugby.py:27-29, so as written it returns None.
- League One: `_extract_matches` catches that exception at src/scraper/league_one.py:83-85, so as written it returns `[]`.

Tables given as parameters:
- GenerateTeamsMaster.GenerateTeams: the `COMPETITION_TEAMS` table (scripts/generate_teams_master.py:31-76) is a parameter, not the literal. The properties hold for any table.
- The legacy `TEAMS` dictionary of that script is not used by `main` and is not modelled.
- ValidateLogos: `urlparse(url).netloc` (scripts/validate_official_logos.py:39-43) is the parameter `domain`.
- The HTML walk of the EPCR cards and of the Six Nations page is an input. Both read the page through BeautifulSoup.

## Findings

| source | as written | input that shows it | evidently intended | confidence | as-written member | corrected member |
|---|---|---|---|---|---|---|
| src/collectors/european/epcr.py:86 | `normalize_name` uses `re.sub(r'\\s+', ' ', ...)`. In a raw string `\\s+` matches a backslash followed by one or more `s`, so whitespace runs are never collapsed. | An image with alt `"Lyon  OU"` (two spaces) and the team label `"Lyon OU"`. As written `find_logo_for_team` gives `""`. | Collapse every whitespace run to one space (`r'\s+'`). The same image is then found and `"lyon.png"` is returned. | not executed | Epcr.FindLogoFinding (over Epcr.FindLogoAsWritten) | Epcr.FindLogo (with Epcr.NormalizeName) |

The rest of the model follows the program as written: the HTML logo pass
(`Epcr.GameSightings`, `Epcr.EpcrScraper.PutFound`, `Epcr.EpcrScraper.ReadCard`)
uses `Epcr.FindLogoAsWritten`. `Epcr.FindLogo` is the corrected definition
with the intended property proved.
