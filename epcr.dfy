/**
 * The European Professional Club Rugby collectors (Champions Cup and
 * Challenge Cup). A rendered matches page yields match dictionaries either
 * from the page's Nuxt data (the fixtures list of the competition) or, when
 * that list is missing or empty, from its HTML cards; official team logos
 * seen on the way are handed to the collector. The competition scrapers
 * then build one record per match with the "UTC" zone hint, assign match
 * ids and save the records under `<competition>/<year>`.
 */
module Epcr {
  import opened Text
  import opened Sorting
  import opened BaseMatches
  import BN = BaseNames
  import BC = BaseCatalog
  import L1 = LeagueOne

  const BaseUrl := "https://www.epcrugby.com"

  /** The page a scraper of competition type `ctype` opens. */
  function MatchesUrl(ctype: string): (r: string)
    ensures r == BaseUrl + "/" + ctype + "/matches"
  {
    BaseUrl + "/" + ctype + "/matches"
  }

  /** The key of the fixtures list in the Nuxt data. */
  function FixturesKey(ctype: string): string { "fixtures-and-results-" + ctype }

  // ------------------------------------------------------------ dates

  /** `calendar.month_abbr` in lower case: what `strptime(..., "%b")` accepts, ignoring case. */
  const MonthAbbrs: seq<string> := ["jan", "feb", "mar", "apr", "may", "jun", "jul", "aug", "sep", "oct", "nov", "dec"]

  /** The month number of each abbreviation. */
  const MonthNumbers: map<string, nat> := map["jan" := 1, "feb" := 2, "mar" := 3, "apr" := 4, "may" := 5, "jun" := 6,
    "jul" := 7, "aug" := 8, "sep" := 9, "oct" := 10, "nov" := 11, "dec" := 12]

  /** The table and the list agree: each abbreviation's number is its position plus one. */
  lemma MonthTable()
    ensures forall x :: x in MonthNumbers ==> 1 <= MonthNumbers[x] <= 12 && MonthAbbrs[MonthNumbers[x] - 1] == x
  {
  }

  lemma MonthIndex(k: nat)
    requires 1 <= k <= 12
    ensures MonthAbbrs[k - 1] in MonthNumbers && MonthNumbers[MonthAbbrs[k - 1]] == k
  {
  }

  /** `datetime.strptime(month, "%b").month`, `None` where it raises `ValueError`. */
  function MonthNumber(month: string): (r: Option<nat>)
    ensures r.Some? <==> Lower(month) in MonthAbbrs
    ensures r.Some? ==> 1 <= r.value <= 12 && MonthAbbrs[r.value - 1] == Lower(month)
  {
    MonthTable();
    assert Lower(month) in MonthAbbrs ==> Lower(month) in MonthNumbers by {
      if Lower(month) in MonthAbbrs {
        var k :| 0 <= k < |MonthAbbrs| && MonthAbbrs[k] == Lower(month);
        MonthIndex(k + 1);
      }
    }
    if Lower(month) in MonthNumbers then Some(MonthNumbers[Lower(month)]) else None
  }

  /**
   * `format_date_string(date_string)`: "W, D Mon YYYY - HH:MM" becomes
   * "YYYY-MM-D HH:MM:00" (only the month is padded); a missing piece
   * (`IndexError`) or an unknown month (`ValueError`) gives `None`.
   */
  function FormatDateString(dateString: string): Option<string>
  {
    var parts := SplitSep(dateString, ", ");
    if |parts| < 2 then None else
    var dateTime := SplitSep(parts[1], " - ");
    if |dateTime| < 2 then None else
    var datePart := Split(dateTime[0]);
    if |datePart| < 3 then None else
    var month := MonthNumber(datePart[1]);
    if month.None? then None
    else Some(datePart[2] + "-" + Pad2(month.value) + "-" + datePart[0] + " " + dateTime[1] + ":00")
  }

  /** The weekday comes off before ", ": the rest is the second part. */
  lemma DateParts(weekday: string, rest: string)
    requires ' ' !in weekday && ',' !in rest
    ensures SplitSep(weekday + ", " + rest, ", ") == [weekday, rest]
  {
    SplitSepHead(weekday, rest, ", ");
    SplitSepAbsent(rest, ", ");
  }

  /** The date and the time on either side of " - ". */
  lemma DateTimeParts(date: string, time: string)
    requires '-' !in date && '-' !in time
    ensures SplitSep(date + " - " + time, " - ") == [date, time]
  {
    SplitSepHead(date, time, " - ");
    SplitSepAbsent(time, " - ");
  }

  /** `format_date_string` from its three splits. */
  lemma FormatDateOf(s: string, weekday: string, rest: string, dmy: string, time: string, day: string, month: string, year: string)
    requires SplitSep(s, ", ") == [weekday, rest]
    requires SplitSep(rest, " - ") == [dmy, time]
    requires Split(dmy) == [day, month, year]
    ensures FormatDateString(s)
      == if MonthNumber(month).Some? then Some(year + "-" + Pad2(MonthNumber(month).value) + "-" + day + " " + time + ":00") else None
  {
  }

  /** The text of a date line, as the page writes it. */
  function DateLine(weekday: string, day: string, month: string, year: string, time: string): string
  {
    weekday + ", " + (day + ([' '] + (month + ([' '] + year))) + " - " + time)
  }

  /**
   * The page's date line read back: for a weekday, day, month, year and
   * time without the separators' characters, the result is the ISO-like
   * string exactly when the month is a known abbreviation, else `None`.
   */
  lemma FormatDateShape(weekday: string, day: string, month: string, year: string, time: string)
    requires ' ' !in weekday
    requires |day| > 0 && |month| > 0 && |year| > 0 && L1.NoSpace(day) && L1.NoSpace(month) && L1.NoSpace(year)
    requires ',' !in day && ',' !in month && ',' !in year && ',' !in time
    requires '-' !in day && '-' !in month && '-' !in year && '-' !in time
    ensures FormatDateString(DateLine(weekday, day, month, year, time))
      == if MonthNumber(month).Some? then Some(year + "-" + Pad2(MonthNumber(month).value) + "-" + day + " " + time + ":00") else None
  {
    var dmy := day + ([' '] + (month + ([' '] + year)));
    var rest := dmy + " - " + time;
    assert ',' !in dmy && '-' !in dmy;
    assert ',' !in rest;
    DateParts(weekday, rest);
    DateTimeParts(dmy, time);
    L1.SplitThree(day, month, year);
    FormatDateOf(DateLine(weekday, day, month, year, time), weekday, rest, dmy, time, day, month, year);
  }

  /** The round trip for a month written in any case of its abbreviation. */
  lemma FormatDateRoundTrip(weekday: string, day: string, month: string, year: string, time: string, k: nat)
    requires ' ' !in weekday
    requires |day| > 0 && |month| > 0 && |year| > 0 && L1.NoSpace(day) && L1.NoSpace(month) && L1.NoSpace(year)
    requires ',' !in day && ',' !in month && ',' !in year && ',' !in time
    requires '-' !in day && '-' !in month && '-' !in year && '-' !in time
    requires 1 <= k <= 12 && Lower(month) == MonthAbbrs[k - 1]
    ensures FormatDateString(DateLine(weekday, day, month, year, time))
      == Some(year + "-" + Pad2(k) + "-" + day + " " + time + ":00")
  {
    FormatDateShape(weekday, day, month, year, time);
    MonthIndex(k);
  }

  /** Without ", " there is no second part: `None`. */
  lemma FormatDateNoComma(dateString: string)
    requires ',' !in dateString
    ensures FormatDateString(dateString) == None
  {
    SplitSepAbsent(dateString, ", ");
  }

  // ------------------------------------------------------------ team logos

  /** The `team_logos` dict: names to `{"logo_url": ...}`, in insertion order. */
  type Logos = seq<(string, map<string, string>)>

  /** No name occurs twice. */
  predicate UniqueKeys(d: Logos)
  {
    |d| == 0 || (Lookup(d[1..], d[0].0).None? && UniqueKeys(d[1..]))
  }

  /** `d.get(k)`: the value of the first entry named `k`. */
  function Lookup(d: Logos, k: string): Option<map<string, string>>
  {
    if |d| == 0 then None else if d[0].0 == k then Some(d[0].1) else Lookup(d[1..], k)
  }

  /** `d[k] = v`: an existing key keeps its place, a new one goes last. */
  function Put(d: Logos, k: string, v: map<string, string>): Logos
  {
    if |d| == 0 then [(k, v)]
    else if d[0].0 == k then [(k, v)] + d[1..]
    else [d[0]] + Put(d[1..], k, v)
  }

  /** After `d[k] = v`, `k` maps to `v` and every other key keeps its value. */
  lemma {:induction false} PutLookup(d: Logos, k: string, v: map<string, string>)
    ensures Lookup(Put(d, k, v), k) == Some(v)
    ensures forall x :: x != k ==> Lookup(Put(d, k, v), x) == Lookup(d, x)
  {
    if |d| > 0 && d[0].0 != k {
      PutLookup(d[1..], k, v);
    }
  }

  /** `d[k] = v` keeps the keys unique. */
  lemma {:induction false} PutUnique(d: Logos, k: string, v: map<string, string>)
    requires UniqueKeys(d)
    ensures UniqueKeys(Put(d, k, v))
  {
    if |d| > 0 {
      if d[0].0 != k {
        PutUnique(d[1..], k, v);
        PutLookup(d[1..], k, v);
        assert Put(d, k, v)[1..] == Put(d[1..], k, v);
      } else {
        assert Put(d, k, v)[1..] == d[1..];
      }
    }
  }

  /** `if name and url: team_logos[name] = {"logo_url": url}` */
  function PutLogo(d: Logos, name: string, url: string): Logos
  {
    if name != "" && url != "" then Put(d, name, map["logo_url" := url]) else d
  }

  /** The logos recorded from a list of (team name, logo url) sightings, in order. */
  function Recorded(sightings: seq<(string, string)>): Logos
  {
    if |sightings| == 0 then []
    else
      var last := sightings[|sightings| - 1];
      PutLogo(Recorded(sightings[..|sightings| - 1]), last.0, last.1)
  }

  /** The last non-empty url seen for the name `k`. */
  function LastUrl(sightings: seq<(string, string)>, k: string): (r: Option<string>)
    ensures r.Some? ==> r.value != ""
  {
    if |sightings| == 0 then None
    else
      var last := sightings[|sightings| - 1];
      if last.0 == k && last.1 != "" then Some(last.1) else LastUrl(sightings[..|sightings| - 1], k)
  }

  /**
   * A logo is recorded only under a non-empty name with a non-empty url:
   * the names are unique and each maps to the last url seen for it.
   */
  lemma {:induction false} RecordedSpec(sightings: seq<(string, string)>)
    ensures var d := Recorded(sightings);
      UniqueKeys(d) && Lookup(d, "") == None
      && forall k :: k != "" ==> Lookup(d, k) == (if LastUrl(sightings, k).Some? then Some(map["logo_url" := LastUrl(sightings, k).value]) else None)
  {
    if |sightings| > 0 {
      var init := sightings[..|sightings| - 1];
      var last := sightings[|sightings| - 1];
      RecordedSpec(init);
      if last.0 != "" && last.1 != "" {
        PutLookup(Recorded(init), last.0, map["logo_url" := last.1]);
        PutUnique(Recorded(init), last.0, map["logo_url" := last.1]);
      }
    }
  }

  lemma RecordedSnoc(s: seq<(string, string)>, x: (string, string))
    ensures Recorded(s + [x]) == PutLogo(Recorded(s), x.0, x.1)
  {
    assert (s + [x])[..|s|] == s;
  }

  // ------------------------------------------------------------ Nuxt data

  /** One fixture of the Nuxt list: team and venue dicts (`{}` for a missing or null one), id ("" when missing or falsy), date, broadcasters. */
  datatype Fixture = Fixture(homeTeam: map<string, string>, awayTeam: map<string, string>, id: string,
    date: Option<string>, venue: map<string, string>, broadcasters: seq<string>)

  /** A match dictionary: a missing key is `None`; `date` is itself `None` when the value is null. */
  datatype Info = Info(url: Option<string>, homeTeam: Option<string>, awayTeam: Option<string>,
    date: Option<Option<string>>, venue: Option<string>, broadcasters: Option<seq<string>>)

  const NoInfo := Info(None, None, None, None, None, None)

  /** The match dictionary of one fixture. */
  function FixtureInfo(ctype: string, f: Fixture): (r: Info)
    ensures r.url.Some? && (r.url.value == "" <==> f.id == "")
    ensures f.id != "" ==> r.url.value == BaseUrl + "/" + ctype + "/matches/" + f.id
    ensures r.homeTeam == Some(BC.Get(f.homeTeam, "name")) && r.awayTeam == Some(BC.Get(f.awayTeam, "name"))
    ensures r.date == Some(f.date) && r.venue == Some(BC.Get(f.venue, "name")) && r.broadcasters == Some(f.broadcasters)
  {
    Info(Some(if f.id != "" then BaseUrl + "/" + ctype + "/matches/" + f.id else ""),
      Some(BC.Get(f.homeTeam, "name")), Some(BC.Get(f.awayTeam, "name")),
      Some(f.date), Some(BC.Get(f.venue, "name")), Some(f.broadcasters))
  }

  /** The two (name, imageUrl) sightings of a fixture, home first. */
  function FixtureSightings(f: Fixture): seq<(string, string)>
  {
    [(BC.Get(f.homeTeam, "name"), BC.Get(f.homeTeam, "imageUrl")), (BC.Get(f.awayTeam, "name"), BC.Get(f.awayTeam, "imageUrl"))]
  }

  /** The match dictionaries of the fixtures, in order. */
  function FixtureInfos(ctype: string, fs: seq<Fixture>): seq<Info>
  {
    if |fs| == 0 then [] else FixtureInfos(ctype, fs[..|fs| - 1]) + [FixtureInfo(ctype, fs[|fs| - 1])]
  }

  /** One dictionary per fixture, each that fixture's own. */
  lemma {:induction false} FixtureInfosSpec(ctype: string, fs: seq<Fixture>)
    ensures var r := FixtureInfos(ctype, fs);
      |r| == |fs| && forall i :: 0 <= i < |fs| ==> r[i] == FixtureInfo(ctype, fs[i])
  {
    if |fs| > 0 {
      var init := fs[..|fs| - 1];
      FixtureInfosSpec(ctype, init);
      var p, r := FixtureInfos(ctype, init), FixtureInfos(ctype, fs);
      assert r == p + [FixtureInfo(ctype, fs[|fs| - 1])];
      forall i | 0 <= i < |fs| ensures r[i] == FixtureInfo(ctype, fs[i]) {
        if i < |fs| - 1 {
          assert r[i] == p[i] && init[i] == fs[i];
        }
      }
    }
  }

  lemma FixtureInfosSnoc(ctype: string, fs: seq<Fixture>, f: Fixture)
    ensures FixtureInfos(ctype, fs + [f]) == FixtureInfos(ctype, fs) + [FixtureInfo(ctype, f)]
  {
    assert (fs + [f])[..|fs|] == fs;
  }

  function NuxtSightings(fs: seq<Fixture>): seq<(string, string)>
  {
    if |fs| == 0 then [] else NuxtSightings(fs[..|fs| - 1]) + FixtureSightings(fs[|fs| - 1])
  }

  // ------------------------------------------------------------ HTML cards

  /** An `<img>`: its `alt` and its `src`, `data-src` and `data-lazy` ("" when missing). */
  datatype Img = Img(alt: string, src: string, dataSrc: string, dataLazy: string)

  /** One info row of a card: the text of its date, venue and broadcaster elements, when present. */
  datatype InfoRow = InfoRow(date: Option<string>, venue: Option<string>, broadcaster: Option<string>)

  /** The inner container of a card: the texts of the two team elements, when present, and the info rows. */
  datatype Inner = Inner(home: Option<string>, away: Option<string>, rows: seq<InfoRow>)

  /** A game card: the `href` of its link, its inner container and every image in it. */
  datatype Game = Game(href: Option<string>, inner: Option<Inner>, imgs: seq<Img>)

  /** What the scraper reads off the rendered page: the Nuxt fixtures list (when it is a list) and the cards of the matches container (when there is one). */
  datatype Page = Page(fixtures: Option<seq<Fixture>>, games: Option<seq<Game>>)

  /** `' '.join(text.strip().split()[:-1])`: the label without its last word. */
  function TrimLabel(text: string): string
  {
    var ws := Split(Strip(text));
    if |ws| == 0 then "" else Join(ws[..|ws| - 1], " ")
  }

  lemma {:induction false} WordNoSpace(t: string)
    ensures L1.NoSpace(Word(t))
    decreases |t|
  {
    if |t| > 0 && !IsSpace(t[0]) {
      WordNoSpace(t[1..]);
      var w := Word(t);
      assert w == [t[0]] + Word(t[1..]);
      forall i | 0 <= i < |w| ensures !IsSpace(w[i]) {
        if i > 0 { assert w[i] == Word(t[1..])[i - 1]; }
      }
    }
  }

  /** Every piece of `split()` is a non-empty run without whitespace. */
  lemma {:induction false} SplitWords(s: string)
    ensures forall i :: 0 <= i < |Split(s)| ==> |Split(s)[i]| > 0 && L1.NoSpace(Split(s)[i])
    decreases |s|
  {
    var t := StripLeft(s);
    if |t| > 0 {
      var w := Word(t);
      WordNoSpace(t);
      SplitWords(t[|w|..]);
      var r := Split(s);
      assert r == [w] + Split(t[|w|..]);
      forall i | 0 <= i < |r| ensures |r[i]| > 0 && L1.NoSpace(r[i]) {
        if i > 0 { assert r[i] == Split(t[|w|..])[i - 1]; }
      }
    }
  }

  lemma JoinCons(ws: seq<string>)
    requires |ws| >= 2
    ensures Join(ws, " ") == ws[0] + ([' '] + Join(ws[1..], " "))
  {
  }

  /** Words joined by single spaces split back into the same words. */
  lemma {:induction false} JoinSplit(ws: seq<string>)
    requires forall i :: 0 <= i < |ws| ==> |ws[i]| > 0 && L1.NoSpace(ws[i])
    ensures Split(Join(ws, " ")) == ws
  {
    if |ws| == 1 {
      L1.SplitOne(ws[0]);
    } else if |ws| >= 2 {
      var tail := ws[1..];
      assert forall i :: 0 <= i < |tail| ==> tail[i] == ws[i + 1];
      JoinSplit(tail);
      JoinCons(ws);
      L1.SplitWordSpace(ws[0], Join(tail, " "));
      HeadTail(ws);
    }
  }

  /** The trimmed label's words are the label's words without the last one. */
  lemma TrimLabelSpec(text: string)
    ensures var ws := Split(Strip(text));
      Split(TrimLabel(text)) == if |ws| == 0 then [] else ws[..|ws| - 1]
  {
    var ws := Split(Strip(text));
    SplitWords(Strip(text));
    if |ws| > 0 {
      JoinSplit(ws[..|ws| - 1]);
    }
  }

  /** `[b.strip() for b in text.split('/')]` */
  function Broadcasters(text: string): (r: seq<string>)
    ensures |r| == |SplitOn(text, '/')|
    ensures forall i :: 0 <= i < |r| ==> r[i] == Strip(SplitOn(text, '/')[i]) && '/' !in r[i]
  {
    var ps := SplitOn(text, '/');
    seq(|ps|, i requires 0 <= i < |ps| => Strip(ps[i]))
  }

  /** One info row: each element present overwrites its key. */
  function RowStep(i: Info, row: InfoRow): (r: Info)
    ensures r.url == i.url && r.homeTeam == i.homeTeam && r.awayTeam == i.awayTeam
    ensures r.date == if row.date.Some? then Some(FormatDateString(Strip(row.date.value))) else i.date
    ensures r.venue == if row.venue.Some? then Some(Strip(row.venue.value)) else i.venue
    ensures r.broadcasters == if row.broadcaster.Some? then Some(Broadcasters(Strip(row.broadcaster.value))) else i.broadcasters
  {
    var a := if row.date.Some? then i.(date := Some(FormatDateString(Strip(row.date.value)))) else i;
    var b := if row.venue.Some? then a.(venue := Some(Strip(row.venue.value))) else a;
    if row.broadcaster.Some? then b.(broadcasters := Some(Broadcasters(Strip(row.broadcaster.value)))) else b
  }

  function ApplyRows(i: Info, rows: seq<InfoRow>): Info
  {
    if |rows| == 0 then i else RowStep(ApplyRows(i, rows[..|rows| - 1]), rows[|rows| - 1])
  }

  /** The date element of the last row that has one wins; the rows touch nothing but date, venue and broadcasters. */
  lemma {:induction false} ApplyRowsDate(i: Info, rows: seq<InfoRow>)
    ensures var r := ApplyRows(i, rows);
      r.url == i.url && r.homeTeam == i.homeTeam && r.awayTeam == i.awayTeam
      && (r.date != i.date ==> exists k :: 0 <= k < |rows| && rows[k].date.Some? && r.date == Some(FormatDateString(Strip(rows[k].date.value))))
      && ((forall k :: 0 <= k < |rows| ==> rows[k].date.None?) ==> r.date == i.date)
  {
    if |rows| > 0 {
      ApplyRowsDate(i, rows[..|rows| - 1]);
      forall k | 0 <= k < |rows| - 1 ensures rows[..|rows| - 1][k] == rows[k] { }
    }
  }

  /** A card's team labels, when both team elements are present. */
  function Labels(g: Game): Option<(string, string)>
  {
    if g.inner.Some? && g.inner.value.home.Some? && g.inner.value.away.Some? then
      Some((TrimLabel(g.inner.value.home.value), TrimLabel(g.inner.value.away.value)))
    else None
  }

  /** The match dictionary of one card (possibly empty). */
  function GameInfo(g: Game): (r: Info)
    ensures r.url == if g.href.Some? then Some(BaseUrl + g.href.value) else None
    ensures Labels(g).Some? ==> r.homeTeam == Some(Labels(g).value.0) && r.awayTeam == Some(Labels(g).value.1)
    ensures Labels(g).None? ==> r.homeTeam == None && r.awayTeam == None
    ensures g.inner.None? ==> r.date == None && r.venue == None && r.broadcasters == None
  {
    var i0 := NoInfo.(url := if g.href.Some? then Some(BaseUrl + g.href.value) else None);
    if g.inner.None? then i0 else
    var labels := Labels(g);
    var i1 := if labels.Some? then i0.(homeTeam := Some(labels.value.0), awayTeam := Some(labels.value.1)) else i0;
    ApplyRowsDate(i1, g.inner.value.rows);
    ApplyRows(i1, g.inner.value.rows)
  }

  // ------------------------------------------------------------ logo lookup

  /** `normalize_name` as written: the pattern `r'\\s+'` matches a backslash and a run of `s`, not whitespace. */
  function NormalizeNameAsWritten(value: string): string
  {
    SubBackslashS(Lower(Strip(value)))
  }

  /** Drops a leading run of `s`. */
  function DropS(u: string): (r: string)
    ensures |r| <= |u|
  {
    if |u| > 0 && u[0] == 's' then DropS(u[1..]) else u
  }

  /** `re.sub(r'\\s+', ' ', t)`: each backslash followed by one or more `s` becomes one space. */
  function SubBackslashS(t: string): string
    decreases |t|
  {
    if |t| == 0 then ""
    else if |t| >= 2 && t[0] == '\\' && t[1] == 's' then " " + SubBackslashS(DropS(t[2..]))
    else [t[0]] + SubBackslashS(t[1..])
  }

  /** Without a backslash the as-written rewrite changes nothing, so no whitespace run is collapsed. */
  lemma {:induction false} SubBackslashSIdentity(t: string)
    requires '\\' !in t
    ensures SubBackslashS(t) == t
    decreases |t|
  {
    if |t| > 0 {
      assert t == [t[0]] + t[1..];
      SubBackslashSIdentity(t[1..]);
    }
  }

  /** `normalize_name` as intended: stripped, lower-cased, every whitespace run one space. */
  function NormalizeName(value: string): (r: string)
    ensures SingleSpaced(r)
  {
    var t := Lower(Strip(value));
    CollapseSpacesSpec(t);
    CollapseSpaces(t)
  }

  /** `img.get('src') or img.get('data-src') or img.get('data-lazy') or ""` */
  function ImgSrc(img: Img): string
  {
    if img.src != "" then img.src else if img.dataSrc != "" then img.dataSrc else img.dataLazy
  }

  /** An image whose normalised alt is non-empty and equals, lies in or contains the target. */
  predicate AltMatches(alt: string, target: string)
  {
    alt != "" && (alt == target || Contains(target, alt) || Contains(alt, target))
  }

  /** The loop of `find_logo_for_team` from image `imgs[0]` on, under the name normaliser `norm`. */
  function FindFrom(norm: string -> string, imgs: seq<Img>, target: string): (r: string)
    ensures r != "" ==> exists i :: 0 <= i < |imgs| && AltMatches(norm(imgs[i].alt), target) && ImgSrc(imgs[i]) == r
    ensures r == "" ==> forall i :: 0 <= i < |imgs| && AltMatches(norm(imgs[i].alt), target) ==> ImgSrc(imgs[i]) == ""
  {
    if |imgs| == 0 then ""
    else if AltMatches(norm(imgs[0].alt), target) && ImgSrc(imgs[0]) != "" then ImgSrc(imgs[0])
    else
      var r := FindFrom(norm, imgs[1..], target);
      assert forall i :: 1 <= i < |imgs| ==> imgs[i] == imgs[1..][i - 1];
      r
  }

  /** `find_logo_for_team(container, team_name)` as written. */
  function FindLogoAsWritten(imgs: seq<Img>, teamName: string): (r: string)
    ensures teamName == "" ==> r == ""
    ensures r != "" ==> exists i :: 0 <= i < |imgs| && AltMatches(NormalizeNameAsWritten(imgs[i].alt), NormalizeNameAsWritten(teamName)) && ImgSrc(imgs[i]) == r
  {
    if teamName == "" then "" else FindFrom(NormalizeNameAsWritten, imgs, NormalizeNameAsWritten(teamName))
  }

  /** `find_logo_for_team(container, team_name)` with the intended normalisation: the first matching image's source. */
  function FindLogo(imgs: seq<Img>, teamName: string): (r: string)
    ensures teamName == "" ==> r == ""
    ensures r != "" ==> exists i :: 0 <= i < |imgs| && AltMatches(NormalizeName(imgs[i].alt), NormalizeName(teamName)) && ImgSrc(imgs[i]) == r
  {
    if teamName == "" then "" else FindFrom(NormalizeName, imgs, NormalizeName(teamName))
  }

  /** A word without whitespace passes through `CollapseSpaces` unchanged. */
  lemma {:induction false} CollapseWord(a: string, rest: string)
    requires L1.NoSpace(a)
    ensures CollapseSpaces(a + rest) == a + CollapseSpaces(rest)
  {
    if |a| > 0 {
      var s := a + rest;
      assert s[0] == a[0] && !IsSpace(a[0]) && s[1..] == a[1..] + rest;
      assert L1.NoSpace(a[1..]) by {
        forall i | 0 <= i < |a[1..]| ensures !IsSpace(a[1..][i]) { assert a[1..][i] == a[i + 1]; }
      }
      CollapseWord(a[1..], rest);
      assert a == [a[0]] + a[1..];
    } else {
      assert a + rest == rest;
    }
  }

  lemma StripLeftWord(b: string)
    requires |b| > 0 && !IsSpace(b[0])
    ensures StripLeft(b) == b
  {
  }

  lemma StripLeftSpace(t: string)
    requires |t| > 0 && IsSpace(t[0])
    ensures StripLeft(t) == StripLeft(t[1..])
  {
  }

  lemma StripLeftSpaces(b: string)
    requires |b| > 0 && !IsSpace(b[0])
    ensures StripLeft(" " + b) == b && StripLeft("  " + b) == b
  {
    StripLeftWord(b);
    assert (" " + b)[1..] == b;
    StripLeftSpace(" " + b);
    assert ("  " + b)[1..] == " " + b;
    StripLeftSpace("  " + b);
  }

  /** A run of spaces before a word collapses to one space. */
  lemma CollapseRun(sp: string, b: string)
    requires L1.NoSpace(b) && |b| > 0 && (sp == " " || sp == "  ")
    ensures CollapseSpaces(sp + b) == " " + b
  {
    StripLeftSpaces(b);
    var t := sp + b;
    assert t[0] == ' ' && IsSpace(t[0]);
    assert CollapseSpaces(t) == [' '] + CollapseSpaces(b);
    CollapseWord(b, "");
    assert b + "" == b;
  }

  /** One or two spaces between two words collapse to one. */
  lemma CollapseBetween(a: string, sp: string, b: string)
    requires L1.NoSpace(a) && L1.NoSpace(b) && |b| > 0 && (sp == " " || sp == "  ")
    ensures CollapseSpaces(a + sp + b) == a + " " + b
  {
    assert a + sp + b == a + (sp + b);
    CollapseWord(a, sp + b);
    CollapseRun(sp, b);
  }

  lemma LyonLower()
    ensures Lower("Lyon  OU") == "lyon  ou" && Lower("Lyon OU") == "lyon ou"
  {
  }

  lemma LyonStrip()
    ensures Strip("Lyon  OU") == "Lyon  OU" && Strip("Lyon OU") == "Lyon OU"
  {
    StripOfTrimmed("Lyon  OU");
    StripOfTrimmed("Lyon OU");
  }

  /** The two names of the counterexample, normalised as written: the doubled space stays. */
  lemma LyonAsWritten()
    ensures NormalizeNameAsWritten("Lyon  OU") == "lyon  ou" && NormalizeNameAsWritten("Lyon OU") == "lyon ou"
  {
    LyonStrip();
    LyonLower();
    SubBackslashSIdentity("lyon  ou");
    SubBackslashSIdentity("lyon ou");
  }

  /** The two names of the counterexample, normalised as intended: both "lyon ou". */
  lemma LyonIntended()
    ensures NormalizeName("Lyon  OU") == "lyon ou" && NormalizeName("Lyon OU") == "lyon ou"
  {
    LyonStrip();
    LyonLower();
    assert "lyon  ou" == "lyon" + "  " + "ou" && "lyon ou" == "lyon" + " " + "ou";
    CollapseBetween("lyon", "  ", "ou");
    CollapseBetween("lyon", " ", "ou");
  }

  /** Neither of "lyon  ou" and "lyon ou" lies in the other. */
  lemma LyonApart()
    ensures !AltMatches("lyon  ou", "lyon ou")
  {
    var alt, target := "lyon  ou", "lyon ou";
    assert !OccursAt(alt, 0, target) by { assert alt[0..7][5] != target[5]; }
    assert !OccursAt(alt, 1, target) by { assert alt[1..8][0] != target[0]; }
    assert !Contains(target, alt);
  }

  lemma FindFromOne(norm: string -> string, img: Img, target: string)
    ensures FindFrom(norm, [img], target) == if AltMatches(norm(img.alt), target) && ImgSrc(img) != "" then ImgSrc(img) else ""
  {
    assert [img][1..] == [];
  }

  /** An alt with a doubled space misses the label as written and matches it as intended. */
  lemma FindLogoFinding()
    ensures FindLogoAsWritten([Img("Lyon  OU", "lyon.png", "", "")], "Lyon OU") == ""
    ensures FindLogo([Img("Lyon  OU", "lyon.png", "", "")], "Lyon OU") == "lyon.png"
  {
    LyonAsWritten();
    LyonIntended();
    LyonApart();
    var img := Img("Lyon  OU", "lyon.png", "", "");
    FindFromOne(NormalizeNameAsWritten, img, "lyon ou");
    FindFromOne(NormalizeName, img, "lyon ou");
    assert AltMatches("lyon ou", "lyon ou");
  }

  /** The (label, logo) sightings of one card, home first, when both labels are present. */
  function GameSightings(g: Game): seq<(string, string)>
  {
    var labels := Labels(g);
    if labels.None? then []
    else [(labels.value.0, FindLogoAsWritten(g.imgs, labels.value.0)), (labels.value.1, FindLogoAsWritten(g.imgs, labels.value.1))]
  }

  function HtmlSightings(gs: seq<Game>): seq<(string, string)>
  {
    if |gs| == 0 then [] else HtmlSightings(gs[..|gs| - 1]) + GameSightings(gs[|gs| - 1])
  }

  /** The non-empty match dictionaries of the cards, in order. */
  function HtmlInfos(gs: seq<Game>): (r: seq<Info>)
    ensures forall i :: 0 <= i < |r| ==> r[i] != NoInfo
  {
    if |gs| == 0 then []
    else
      var g := GameInfo(gs[|gs| - 1]);
      HtmlInfos(gs[..|gs| - 1]) + (if g != NoInfo then [g] else [])
  }

  // ------------------------------------------------------------ extraction

  /** The fixtures path is taken when the fixtures list is present and non-empty. */
  predicate NuxtPath(page: Page) { page.fixtures.Some? && |page.fixtures.value| > 0 }

  /** The match dictionaries `_extract_matches` returns. */
  function Extracted(ctype: string, page: Page): seq<Info>
  {
    if NuxtPath(page) then FixtureInfos(ctype, page.fixtures.value)
    else if page.games.None? then []
    else HtmlInfos(page.games.value)
  }

  /** The logo sightings `_extract_matches` records from. */
  function ExtractedSightings(page: Page): seq<(string, string)>
  {
    if NuxtPath(page) then NuxtSightings(page.fixtures.value)
    else if page.games.None? then []
    else HtmlSightings(page.games.value)
  }

  /** A non-empty fixtures list decides the result: the cards are never read. */
  lemma NuxtFirst(ctype: string, fs: seq<Fixture>, g1: Option<seq<Game>>, g2: Option<seq<Game>>)
    requires |fs| > 0
    ensures Extracted(ctype, Page(Some(fs), g1)) == Extracted(ctype, Page(Some(fs), g2)) == FixtureInfos(ctype, fs)
    ensures ExtractedSightings(Page(Some(fs), g1)) == ExtractedSightings(Page(Some(fs), g2))
  {
  }

  lemma NuxtSightingsSnoc(fs: seq<Fixture>, f: Fixture)
    ensures NuxtSightings(fs + [f]) == NuxtSightings(fs) + FixtureSightings(f)
  {
    assert (fs + [f])[..|fs|] == fs;
  }

  lemma HtmlSnoc(gs: seq<Game>, g: Game)
    ensures HtmlSightings(gs + [g]) == HtmlSightings(gs) + GameSightings(g)
    ensures HtmlInfos(gs + [g]) == HtmlInfos(gs) + (if GameInfo(g) != NoInfo then [GameInfo(g)] else [])
  {
    assert (gs + [g])[..|gs|] == gs;
  }

  /** The logos after one card: its two sightings recorded, when it has both labels. */
  function CardLogos(g: Game, logos: Logos): Logos
  {
    if Labels(g).None? then logos
    else PutLogo(PutLogo(logos, GameSightings(g)[0].0, GameSightings(g)[0].1), GameSightings(g)[1].0, GameSightings(g)[1].1)
  }

  /** One turn of the card loop keeps both of its accumulators on their specifications. */
  lemma CardsStep(gs: seq<Game>, i: nat, matches: seq<Info>, logos: Logos, info: Info, r: Logos, next: seq<Info>)
    requires i < |gs|
    requires matches == HtmlInfos(gs[..i]) && logos == Recorded(HtmlSightings(gs[..i]))
    requires info == GameInfo(gs[i]) && next == if info != NoInfo then matches + [info] else matches
    requires r == CardLogos(gs[i], logos)
    ensures next == HtmlInfos(gs[..i + 1]) && r == Recorded(HtmlSightings(gs[..i + 1]))
  {
    TakeNext(gs, i);
    HtmlSnoc(gs[..i], gs[i]);
    CardLogosStep(gs[..i], gs[i], logos, r);
  }

  lemma CardLogosStep(gs: seq<Game>, g: Game, logos: Logos, r: Logos)
    requires logos == Recorded(HtmlSightings(gs))
    requires r == CardLogos(g, logos)
    ensures r == Recorded(HtmlSightings(gs + [g]))
  {
    HtmlSnoc(gs, g);
    if Labels(g).Some? {
      RecordedPair(HtmlSightings(gs), GameSightings(g));
    } else {
      assert HtmlSightings(gs) + GameSightings(g) == HtmlSightings(gs);
    }
  }

  /** Recording a fixture's two sightings, one after the other. */
  lemma RecordedPair(s: seq<(string, string)>, p: seq<(string, string)>)
    requires |p| == 2
    ensures Recorded(s + p) == PutLogo(PutLogo(Recorded(s), p[0].0, p[0].1), p[1].0, p[1].1)
  {
    assert s + p == (s + [p[0]]) + [p[1]];
    RecordedSnoc(s + [p[0]], p[1]);
    RecordedSnoc(s, p[0]);
  }

  /** One turn of the fixtures loop keeps both of its accumulators on their specifications. */
  lemma FixturesStep(ctype: string, fs: seq<Fixture>, i: nat, matches: seq<Info>, logos: Logos, info: Info, r: Logos)
    requires i < |fs|
    requires matches == FixtureInfos(ctype, fs[..i]) && logos == Recorded(NuxtSightings(fs[..i]))
    requires info == FixtureInfo(ctype, fs[i])
    requires r == PutLogo(PutLogo(logos, FixtureSightings(fs[i])[0].0, FixtureSightings(fs[i])[0].1), FixtureSightings(fs[i])[1].0, FixtureSightings(fs[i])[1].1)
    ensures matches + [info] == FixtureInfos(ctype, fs[..i + 1]) && r == Recorded(NuxtSightings(fs[..i + 1]))
  {
    TakeNext(fs, i);
    FixtureInfosSnoc(ctype, fs[..i], fs[i]);
    FixtureLogosStep(fs[..i], fs[i], logos, r);
  }

  lemma FixtureLogosStep(fs: seq<Fixture>, f: Fixture, logos: Logos, r: Logos)
    requires logos == Recorded(NuxtSightings(fs))
    requires r == PutLogo(PutLogo(logos, FixtureSightings(f)[0].0, FixtureSightings(f)[0].1), FixtureSightings(f)[1].0, FixtureSightings(f)[1].1)
    ensures r == Recorded(NuxtSightings(fs + [f]))
  {
    NuxtSightingsSnoc(fs, f);
    RecordedPair(NuxtSightings(fs), FixtureSightings(f));
  }

  // ------------------------------------------------------------ build and save

  /**
   * What stays fixed over a competition scrape: the collector's update flag,
   * base-name cache, alias-key normalisation and own competition (used when
   * saving), the zone test, the kickoff parser and renderer of
   * `build_match`, the current year and the scraper's competition.
   */
  datatype Env = Env(flag: bool, cache: BN.NameCache, aliasKey: string -> string, saveComp: string,
    isZone: string -> bool, parse: string -> Parsed, render: string -> (string, string),
    currentYear: int, comp: string)

  /** `match.get(key, "")` */
  function OrEmpty(x: Option<string>): string { if x.Some? then x.value else "" }

  /** The `build_match` arguments of one match dictionary. */
  function ArgsOf(env: Env, i: Info): BC.MatchInput
  {
    var kickoff := if i.date.Some? && i.date.value.Some? then i.date.value.value else "";
    BC.MatchInput(env.comp, IntToString(env.currentYear), kickoff, env.parse(kickoff), env.render(kickoff), "UTC",
      OrEmpty(i.venue), OrEmpty(i.homeTeam), OrEmpty(i.awayTeam), OrEmpty(i.url),
      if i.broadcasters.Some? then i.broadcasters.value else [], "", "", "", None, None)
  }

  /** One `build_match` call under a fixed environment. */
  type BuildStep = (BC.Catalog, Info) -> (Match, BC.Catalog)

  function BuildOf(env: Env): BuildStep
  {
    (c: BC.Catalog, i: Info) => BC.BuildMatchSpec(c, env.flag, env.cache, env.aliasKey, env.isZone, ArgsOf(env, i))
  }

  /** The list comprehension of `scrape`, the catalog threaded through. */
  function BuildAll(c: BC.Catalog, build: BuildStep, infos: seq<Info>): (r: (seq<Match>, BC.Catalog))
    ensures |r.0| == |infos|
  {
    if |infos| == 0 then ([], c)
    else
      var prev := BuildAll(c, build, infos[..|infos| - 1]);
      var step := build(prev.1, infos[|infos| - 1]);
      (prev.0 + [step.0], step.1)
  }

  lemma BuildAllStep(c: BC.Catalog, build: BuildStep, infos: seq<Info>, i: nat)
    requires i < |infos|
    ensures var prev := BuildAll(c, build, infos[..i]);
      var step := build(prev.1, infos[i]);
      BuildAll(c, build, infos[..i + 1]) == (prev.0 + [step.0], step.1)
  {
    assert infos[..i + 1][..i] == infos[..i];
  }

  /** The "UTC" hint is always the label: an unparsed, naive or aware kickoff alike. */
  lemma UtcHint(value: string, parsed: Parsed, isZone: string -> bool)
    ensures TimezoneLabel(value, parsed, "UTC", isZone) == "UTC"
  {
  }

  /** The fields a record takes from its match dictionary. */
  predicate Fields(r: Match, env: Env, i: Info)
  {
    r.competitionId == env.comp && r.season == IntToString(env.currentYear) && r.timezone == "UTC"
    && r.round == ExtractRoundNumber("") && r.status == "" && r.matchId == ""
    && r.venue == OrEmpty(i.venue) && r.homeTeam == OrEmpty(i.homeTeam) && r.awayTeam == OrEmpty(i.awayTeam)
    && r.matchUrl == OrEmpty(i.url) && r.broadcasters == (if i.broadcasters.Some? then i.broadcasters.value else [])
  }

  /** What one build promises from a well-formed catalog. */
  predicate BuildOk(c: BC.Catalog, env: Env, i: Info, step: (Match, BC.Catalog))
  {
    BC.WellFormed(step.1) && BC.Extends(c, step.1) && (!env.flag ==> step.1 == c) && Fields(step.0, env, i)
  }

  lemma BuildSpec(c: BC.Catalog, env: Env, i: Info)
    requires BC.WellFormed(c)
    ensures BuildOk(c, env, i, BuildOf(env)(c, i))
  {
    var a := ArgsOf(env, i);
    BC.BuildMatchSpecProps(c, env.flag, env.cache, env.aliasKey, env.isZone, a);
    UtcHint(a.kickoff, a.parsed, env.isZone);
  }

  ghost predicate BuildSound(build: BuildStep, env: Env)
  {
    forall c: BC.Catalog, i: Info :: BC.WellFormed(c) ==> BuildOk(c, env, i, build(c, i))
  }

  lemma BuildOfSound(env: Env)
    ensures BuildSound(BuildOf(env), env)
  {
    forall c: BC.Catalog, i: Info | BC.WellFormed(c) ensures BuildOk(c, env, i, BuildOf(env)(c, i)) {
      BuildSpec(c, env, i);
    }
  }

  /** One record per match dictionary, each with that dictionary's fields; the catalog only grows. */
  lemma {:induction false} BuildAllSpec(c: BC.Catalog, build: BuildStep, env: Env, infos: seq<Info>)
    requires BC.WellFormed(c) && BuildSound(build, env)
    ensures var r := BuildAll(c, build, infos);
      BC.WellFormed(r.1) && BC.Extends(c, r.1) && (!env.flag ==> r.1 == c)
      && |r.0| == |infos| && forall k :: 0 <= k < |infos| ==> Fields(r.0[k], env, infos[k])
  {
    if |infos| == 0 {
      assert c.ids[..|c.ids|] == c.ids;
    } else {
      var init := infos[..|infos| - 1];
      BuildAllSpec(c, build, env, init);
      var prev := BuildAll(c, build, init);
      var step := build(prev.1, infos[|infos| - 1]);
      assert BuildOk(prev.1, env, infos[|infos| - 1], step);
      BC.ExtendsTrans(c, prev.1, step.1);
      var r := prev.0 + [step.0];
      forall k | 0 <= k < |infos| ensures Fields(r[k], env, infos[k]) {
        if k < |init| { assert r[k] == prev.0[k] && infos[k] == init[k]; }
      }
    }
  }

  /** What the competition `scrape` returns and saves once the matches are extracted. */
  function ScrapeFrom(c: BC.Catalog, env: Env, raw: seq<Info>): (seq<Match>, Option<string>, BC.Catalog)
  {
    if |raw| == 0 then ([], None, c)
    else
      var built := BuildAll(c, BuildOf(env), raw);
      (BC.SavedNames(env.saveComp, env.cache, env.aliasKey, Assigned(built.0)),
       Some(env.comp + "/" + IntToString(env.currentYear)), built.1)
  }

  /** The competition `scrape()` on a rendered page: extraction (and its logos), then the build and the save. */
  function ScrapeSpec(c: BC.Catalog, env: Env, ctype: string, page: Page): (seq<Match>, Option<string>, BC.Catalog)
  {
    var c1 := BC.ApplyLogos(c, env.flag, env.cache, env.aliasKey, env.comp, Recorded(ExtractedSightings(page)));
    ScrapeFrom(c1, env, Extracted(ctype, page))
  }

  /**
   * With no match the scrape saves nothing; otherwise it saves
   * `<competition>/<year>` with one record per match dictionary, sorted by
   * kickoff by `assign_match_ids`, each with the "UTC" zone.
   */
  lemma ScrapeFromProps(c: BC.Catalog, env: Env, raw: seq<Info>)
    requires BC.WellFormed(c)
    ensures var (r, file, d) := ScrapeFrom(c, env, raw);
      |r| == |raw| && (file.Some? <==> |raw| > 0)
      && (file.Some? ==> file.value == env.comp + "/" + IntToString(env.currentYear))
      && BC.WellFormed(d) && BC.Extends(c, d) && (!env.flag ==> d == c)
  {
    if |raw| == 0 {
      assert c.ids[..|c.ids|] == c.ids;
    } else {
      BuildOfSound(env);
      BuildAllSpec(c, BuildOf(env), env, raw);
      AssignedSpec(BuildAll(c, BuildOf(env), raw).0);
    }
  }

  /** Before the save every built record carries its dictionary's fields and the "UTC" zone; `assign_match_ids` sorts them by kickoff. */
  lemma ScrapeRecords(c: BC.Catalog, env: Env, raw: seq<Info>)
    requires BC.WellFormed(c)
    ensures var built := BuildAll(c, BuildOf(env), raw);
      |built.0| == |raw| && (forall k :: 0 <= k < |raw| ==> Fields(built.0[k], env, raw[k]) && built.0[k].timezone == "UTC")
      && SortedBy(Assigned(built.0), KickoffOrder) && |Assigned(built.0)| == |raw|
  {
    BuildOfSound(env);
    BuildAllSpec(c, BuildOf(env), env, raw);
    AssignedSpec(BuildAll(c, BuildOf(env), raw).0);
  }

  /**
   * An EPCR competition scraper: the base collector (whose own competition
   * the subclass set), the competition type of its urls and its
   * competition id.
   */
  class EpcrScraper {
    const collector: BC.Collector
    const competitionType: string
    const competitionId: string

    /** `EPCRChampionsCupScraper()` */
    constructor ChampionsCup(base: BC.Collector)
      requires base.competitionId == "epcr-champions"
      ensures collector == base && competitionType == "champions-cup" && competitionId == "epcr-champions"
    {
      collector := base;
      competitionType := "champions-cup";
      competitionId := "epcr-champions";
    }

    /** `EPCRChallengeCupScraper()` */
    constructor ChallengeCup(base: BC.Collector)
      requires base.competitionId == "epcr-challenge"
      ensures collector == base && competitionType == "challenge-cup" && competitionId == "epcr-challenge"
    {
      collector := base;
      competitionType := "challenge-cup";
      competitionId := "epcr-challenge";
    }

    function EnvOf(isZone: string -> bool, parse: string -> Parsed, render: string -> (string, string), currentYear: int): Env
    {
      Env(collector.updateTeamMaster, collector.cache, collector.aliasKey, collector.competitionId,
        isZone, parse, render, currentYear, competitionId)
    }

    /** One fixture of the fixtures loop: its match dictionary and the logos after its two sightings. */
    method ReadFixture(f: Fixture, logos: Logos) returns (info: Info, r: Logos)
      ensures info == FixtureInfo(competitionType, f)
      ensures r == PutLogo(PutLogo(logos, FixtureSightings(f)[0].0, FixtureSightings(f)[0].1), FixtureSightings(f)[1].0, FixtureSightings(f)[1].1)
    {
      r := logos;
      var homeTeam, awayTeam := BC.Get(f.homeTeam, "name"), BC.Get(f.awayTeam, "name");
      var homeLogo, awayLogo := BC.Get(f.homeTeam, "imageUrl"), BC.Get(f.awayTeam, "imageUrl");
      if homeTeam != "" && homeLogo != "" {
        r := Put(r, homeTeam, map["logo_url" := homeLogo]);
      }
      if awayTeam != "" && awayLogo != "" {
        r := Put(r, awayTeam, map["logo_url" := awayLogo]);
      }
      var url := if f.id != "" then BaseUrl + "/" + competitionType + "/matches/" + f.id else "";
      info := Info(Some(url), Some(homeTeam), Some(awayTeam), Some(f.date), Some(BC.Get(f.venue, "name")), Some(f.broadcasters));
    }

    /** The fixtures loop of `_extract_matches`. */
    method FromFixtures(fixtures: seq<Fixture>) returns (matches: seq<Info>, teamLogos: Logos)
      ensures matches == FixtureInfos(competitionType, fixtures)
      ensures teamLogos == Recorded(NuxtSightings(fixtures))
    {
      matches := [];
      teamLogos := [];
      var i := 0;
      while i < |fixtures|
        invariant 0 <= i <= |fixtures|
        invariant matches == FixtureInfos(competitionType, fixtures[..i])
        invariant teamLogos == Recorded(NuxtSightings(fixtures[..i]))
      {
        var info, r := ReadFixture(fixtures[i], teamLogos);
        FixturesStep(competitionType, fixtures, i, matches, teamLogos, info, r);
        matches, teamLogos := matches + [info], r;
        i := i + 1;
      }
      assert fixtures[..i] == fixtures;
    }

    /** The info-row loop of one card. */
    method ReadRows(info: Info, rows: seq<InfoRow>) returns (r: Info)
      ensures r == ApplyRows(info, rows)
    {
      r := info;
      var i := 0;
      while i < |rows|
        invariant 0 <= i <= |rows| && r == ApplyRows(info, rows[..i])
      {
        var row := rows[i];
        if row.date.Some? {
          r := r.(date := Some(FormatDateString(Strip(row.date.value))));
        }
        if row.venue.Some? {
          r := r.(venue := Some(Strip(row.venue.value)));
        }
        if row.broadcaster.Some? {
          r := r.(broadcasters := Some(Broadcasters(Strip(row.broadcaster.value))));
        }
        assert rows[..i + 1][..i] == rows[..i];
        i := i + 1;
      }
      assert rows[..i] == rows;
    }

    /** `if logo: team_logos[team] = {"logo_url": logo}` for the logo found for one team. */
    method PutFound(logos: Logos, imgs: seq<Img>, team: string) returns (r: Logos)
      ensures r == PutLogo(logos, team, FindLogoAsWritten(imgs, team))
    {
      r := logos;
      var logo := FindLogoAsWritten(imgs, team);
      if logo != "" {
        r := Put(r, team, map["logo_url" := logo]);
      }
    }

    /** One card: its match dictionary and the logos after the sightings of its labels. */
    method ReadCard(g: Game, logos: Logos) returns (info: Info, r: Logos)
      ensures info == GameInfo(g)
      ensures r == CardLogos(g, logos)
    {
      r := logos;
      info := NoInfo;
      if g.href.Some? {
        info := info.(url := Some(BaseUrl + g.href.value));
      }
      if g.inner.Some? {
        var inner := g.inner.value;
        if inner.home.Some? && inner.away.Some? {
          var homeTeam, awayTeam := TrimLabel(inner.home.value), TrimLabel(inner.away.value);
          info := info.(homeTeam := Some(homeTeam), awayTeam := Some(awayTeam));
          r := PutFound(r, g.imgs, homeTeam);
          r := PutFound(r, g.imgs, awayTeam);
        }
        info := ReadRows(info, inner.rows);
      }
    }

    /** The card loop of the HTML fallback. */
    method FromCards(games: seq<Game>) returns (matches: seq<Info>, teamLogos: Logos)
      ensures matches == HtmlInfos(games)
      ensures teamLogos == Recorded(HtmlSightings(games))
    {
      matches := [];
      teamLogos := [];
      var i := 0;
      while i < |games|
        invariant 0 <= i <= |games|
        invariant matches == HtmlInfos(games[..i])
        invariant teamLogos == Recorded(HtmlSightings(games[..i]))
      {
        var info, r := ReadCard(games[i], teamLogos);
        var next := if info != NoInfo then matches + [info] else matches;
        CardsStep(games, i, matches, teamLogos, info, r, next);
        matches, teamLogos := next, r;
        i := i + 1;
      }
      assert games[..i] == games;
    }

    /** `_extract_matches()`: the fixtures when there are any, else the cards; the logos seen go to the collector. */
    method ExtractMatches(page: Page) returns (matches: seq<Info>)
      requires collector.Valid()
      modifies collector
      ensures collector.Valid()
      ensures matches == Extracted(competitionType, page)
      ensures collector.Snapshot() == BC.ApplyLogos(old(collector.Snapshot()), collector.updateTeamMaster,
        collector.cache, collector.aliasKey, competitionId, Recorded(ExtractedSightings(page)))
    {
      var teamLogos: Logos;
      if page.fixtures.Some? && |page.fixtures.value| > 0 {
        matches, teamLogos := FromFixtures(page.fixtures.value);
      } else if page.games.None? {
        return [];
      } else {
        matches, teamLogos := FromCards(page.games.value);
      }
      if |teamLogos| > 0 {
        collector.ApplyOfficialTeamLogos(teamLogos, competitionId);
      }
    }

    /** The build loop of `scrape`. */
    method BuildMatches(raw: seq<Info>, isZone: string -> bool, parse: string -> Parsed, render: string -> (string, string), currentYear: int)
      returns (matches: seq<Match>)
      requires collector.Valid()
      modifies collector
      ensures collector.Valid()
      ensures (matches, collector.Snapshot()) == BuildAll(old(collector.Snapshot()), BuildOf(EnvOf(isZone, parse, render, currentYear)), raw)
    {
      ghost var env := EnvOf(isZone, parse, render, currentYear);
      ghost var c0 := collector.Snapshot();
      matches := [];
      var i := 0;
      while i < |raw|
        invariant 0 <= i <= |raw| && collector.Valid()
        invariant env == EnvOf(isZone, parse, render, currentYear)
        invariant (matches, collector.Snapshot()) == BuildAll(c0, BuildOf(env), raw[..i])
      {
        BuildAllStep(c0, BuildOf(env), raw, i);
        var m := collector.BuildMatch(ArgsOf(EnvOf(isZone, parse, render, currentYear), raw[i]), isZone);
        matches := matches + [m];
        i := i + 1;
      }
      assert raw[..i] == raw;
    }

    /**
     * The competition `scrape()`: no match dictionaries end it with the empty
     * list; otherwise every one is built, ids are assigned and the records are
     * saved as `<competition>/<year>`, the returned list sharing the save's
     * name rewrite.
     */
    method Scrape(page: Page, isZone: string -> bool, parse: string -> Parsed, render: string -> (string, string), currentYear: int)
      returns (r: seq<Match>, file: Option<string>)
      requires collector.Valid()
      modifies collector
      ensures collector.Valid()
      ensures (r, file, collector.Snapshot())
        == ScrapeSpec(old(collector.Snapshot()), EnvOf(isZone, parse, render, currentYear), competitionType, page)
    {
      var raw := ExtractMatches(page);
      if |raw| == 0 {
        return [], None;
      }
      var matches := BuildMatches(raw, isZone, parse, render, currentYear);
      file := None;
      if |matches| > 0 {
        matches := AssignMatchIds(matches);
        file := Some(competitionId + "/" + IntToString(currentYear));
        matches := collector.NormalizeForSave(matches);
      }
      r := matches;
    }
  }
}
