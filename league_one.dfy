/**
 * `src/scraper/league_one.py`: the Japan Rugby League One calendar scraper.
 * The page's `div.c-schedule` containers arrive already read out of the
 * HTML (`Container`); what is modelled is which containers yield a match,
 * the broadcaster list and the kickoff string `"M.D x HH:MM"`. The
 * division scraper in `league_one_divisions.py` repeats `_get_broadcasters`
 * and `format_date_string` verbatim and uses these definitions.
 */
module LeagueOne {
  import opened Text
  import opened Sorting
  import opened BaseMatches

  // ------------------------------------------------------------ the season year of `scrape`

  /** The months counted from year 0, so that (year, month) pairs compare in time order. */
  function MonthIndex(year: int, month: int): int
  {
    year * 12 + month
  }

  /**
   * `scrape`'s `year`: the previous year until December, the current one in
   * December. The season named by a year starts in that year's December, so
   * this is the season of the latest December not after `now`.
   */
  function ScrapeYear(year: int, month: int): (r: int)
    requires 1 <= month <= 12
    ensures MonthIndex(r, 12) <= MonthIndex(year, month) < MonthIndex(r + 1, 12)
  {
    if month < 12 then year - 1 else year
  }

  /** The two cases of the rule: January to November read last year's season, December this year's. */
  lemma ScrapeYearCases(year: int, month: int)
    requires 1 <= month <= 12
    ensures month < 12 ==> ScrapeYear(year, month) == year - 1
    ensures month == 12 ==> ScrapeYear(year, month) == year
  {
  }

  const CalendarUrl: string := "https://league-one.jp/schedule/"

  /** `f"{self.calendar_url}?year={year}"` for the date `now` of the call. */
  function ScrapeUrl(year: int, month: int): (r: string)
    requires 1 <= month <= 12
    ensures |r| > |CalendarUrl + "?year="| && r[..|CalendarUrl + "?year="|] == CalendarUrl + "?year="
    ensures ParseInt(r[|CalendarUrl + "?year="|..]) == Some(ScrapeYear(year, month))
  {
    var y := ScrapeYear(year, month);
    ParseIntOfString(y);
    var r := CalendarUrl + "?year=" + IntToString(y);
    assert r[|CalendarUrl + "?year="|..] == IntToString(y);
    r
  }

  // ------------------------------------------------------------ split helpers

  predicate NoSpace(s: string) { forall i :: 0 <= i < |s| ==> !IsSpace(s[i]) }

  lemma {:induction false} WordPrefix(a: string, rest: string)
    requires |a| > 0 && NoSpace(a) && (rest == [] || IsSpace(rest[0]))
    ensures Word(a + rest) == a
  {
    var s := a + rest;
    assert s[0] == a[0];
    assert s[1..] == a[1..] + rest;
    if |a| > 1 {
      WordPrefix(a[1..], rest);
    }
  }

  /** A word followed by whitespace or the end is the first piece of `split()`. */
  lemma SplitWord(a: string, rest: string)
    requires |a| > 0 && NoSpace(a) && (rest == [] || IsSpace(rest[0]))
    ensures Split(a + rest) == [a] + Split(rest)
  {
    var s := a + rest;
    assert s[0] == a[0];
    assert StripLeft(s) == s;
    WordPrefix(a, rest);
    assert s[|a|..] == rest;
  }

  lemma SplitSpace(c: char, y: string)
    requires IsSpace(c)
    ensures Split([c] + y) == Split(y)
  {
    assert ([c] + y)[1..] == y;
    assert StripLeft([c] + y) == StripLeft(y);
  }

  lemma SplitOne(c: string)
    requires |c| > 0 && NoSpace(c)
    ensures Split(c) == [c]
  {
    SplitWord(c, []);
    assert c + [] == c;
    assert Split([]) == [];
  }

  /** A word and one space come off the front of `split()`. */
  lemma SplitWordSpace(a: string, y: string)
    requires |a| > 0 && NoSpace(a)
    ensures Split(a + ([' '] + y)) == [a] + Split(y)
  {
    SplitWord(a, [' '] + y);
    SplitSpace(' ', y);
  }

  lemma SplitTwo(b: string, c: string)
    requires |b| > 0 && |c| > 0 && NoSpace(b) && NoSpace(c)
    ensures Split(b + ([' '] + c)) == [b, c]
  {
    var x := b + ([' '] + c);
    SplitWordSpace(b, c);
    SplitOne(c);
    var r := Split(c);
    assert r == [c];
    assert Split(x) == [b] + r;
  }

  /** `"a b c".split() == [a, b, c]` for words without whitespace. */
  lemma SplitThree(a: string, b: string, c: string)
    requires |a| > 0 && |b| > 0 && |c| > 0 && NoSpace(a) && NoSpace(b) && NoSpace(c)
    ensures Split(a + ([' '] + (b + ([' '] + c)))) == [a, b, c]
  {
    var y := b + ([' '] + c);
    var x := a + ([' '] + y);
    SplitWordSpace(a, y);
    SplitTwo(b, c);
    var r := Split(y);
    assert r == [b, c];
    assert Split(x) == [a] + r;
  }

  // --------------------------------------------------------- format_date_string

  /** `f"{n:02}"`: zero-padded to width two; a negative number already has two characters. */
  function Format02(n: int): (r: string)
    ensures n >= 0 ==> r == Pad2(n)
  {
    if n < 0 then IntToString(n) else Pad2(n)
  }

  /**
   * `format_date_string("M.D x HH:MM")` with the clock's year as a
   * parameter: December belongs to the season that started the year
   * before. `None` for a `ValueError` or `IndexError` (fewer than three
   * words, no '.', a part that is not an integer).
   */
  function FormatDateString(s: string, currentYear: int): (r: Option<string>)
    ensures |Split(s)| < 3 ==> r.None?
    ensures r.Some? ==> EndsWith(r.value, ":00")
  {
    FormatParts(Split(s), currentYear)
  }

  /** The same on the words of the string. */
  function FormatParts(parts: seq<string>, currentYear: int): (r: Option<string>)
    ensures |parts| < 3 ==> r.None?
    ensures r.Some? ==> EndsWith(r.value, ":00")
  {
    if |parts| < 3 then None
    else
      var datePart := SplitOn(parts[0], '.');
      var month := ParseInt(datePart[0]);
      if month.None? || |datePart| < 2 then None
      else
        var day := ParseInt(datePart[1]);
        if day.None? then None
        else
          var year := if month.value >= 12 then currentYear - 1 else currentYear;
          var out := IntToString(year) + "-" + Format02(month.value) + "-" + IntToString(day.value) + " " + parts[2] + ":00";
          assert out[|out| - 3..] == ":00";
          Some(out)
  }

  lemma NatDigitsNoSpace(n: nat)
    ensures NoSpace(NatToString(n)) && '.' !in NatToString(n)
  {
    var d := NatToString(n);
    assert forall i :: 0 <= i < |d| ==> IsDigit(d[i]);
  }

  /**
   * The page's own form is read back: month and day as written, two-digit
   * month, the time copied, and the year of a December date one less than
   * the clock's.
   */
  lemma FormatDateRoundTrip(month: nat, day: nat, weekday: string, time: string, currentYear: int)
    requires |weekday| > 0 && |time| > 0 && NoSpace(weekday) && NoSpace(time)
    ensures FormatDateString(NatToString(month) + "." + NatToString(day) + " " + weekday + " " + time, currentYear)
      == Some(IntToString(if month >= 12 then currentYear - 1 else currentYear) + "-" + Pad2(month) + "-"
              + NatToString(day) + " " + time + ":00")
  {
    InputWords(month, day, weekday, time);
    FormatPartsRoundTrip(NatToString(month) + "." + NatToString(day), weekday, time, month, day, currentYear);
  }

  /** The page's string splits into the date, the weekday and the time. */
  lemma InputWords(month: nat, day: nat, weekday: string, time: string)
    requires |weekday| > 0 && |time| > 0 && NoSpace(weekday) && NoSpace(time)
    ensures Split(NatToString(month) + "." + NatToString(day) + " " + weekday + " " + time)
      == [NatToString(month) + "." + NatToString(day), weekday, time]
  {
    DatePart(month, day);
    SpacedWords(NatToString(month) + "." + NatToString(day), weekday, time,
                NatToString(month) + "." + NatToString(day) + " " + weekday + " " + time);
  }

  lemma SpacedWords(a: string, b: string, c: string, s: string)
    requires |a| > 0 && |b| > 0 && |c| > 0 && NoSpace(a) && NoSpace(b) && NoSpace(c)
    requires s == a + " " + b + " " + c
    ensures Split(s) == [a, b, c]
  {
    assert s == a + ([' '] + (b + ([' '] + c)));
    SplitThree(a, b, c);
  }

  lemma FormatPartsRoundTrip(p0: string, weekday: string, time: string, month: nat, day: nat, currentYear: int)
    requires p0 == NatToString(month) + "." + NatToString(day)
    ensures FormatParts([p0, weekday, time], currentYear)
      == Some(IntToString(if month >= 12 then currentYear - 1 else currentYear) + "-" + Pad2(month) + "-"
              + NatToString(day) + " " + time + ":00")
  {
    DatePart(month, day);
    ParseIntOfString(month);
    ParseIntOfString(day);
  }

  /** `"M.D".split(".")` gives month and day, and neither piece nor the whole holds whitespace. */
  lemma DatePart(month: nat, day: nat)
    ensures var p0 := NatToString(month) + "." + NatToString(day);
      |p0| > 0 && NoSpace(p0) && SplitOn(p0, '.') == [NatToString(month), NatToString(day)]
  {
    NatDigitsNoSpace(month);
    NatDigitsNoSpace(day);
    DottedPieces(NatToString(month), NatToString(day), NatToString(month) + "." + NatToString(day));
  }

  lemma DottedPieces(m: string, d: string, p0: string)
    requires NoSpace(m) && NoSpace(d) && '.' !in m && '.' !in d
    requires p0 == m + "." + d
    ensures |p0| > 0 && NoSpace(p0) && SplitOn(p0, '.') == [m, d]
  {
    assert p0 == m + ['.'] + d;
    assert p0[|m|] == '.';
    SplitOnHead(m, d, '.');
    SplitOnAbsent(d, '.');
  }

  // ------------------------------------------------------------ broadcasters

  /** The stripped link texts that are kept: non-empty and not the separator "／". */
  function Cleaned(texts: seq<string>): (r: seq<string>)
    ensures forall x :: x in r <==> exists i :: 0 <= i < |texts| && Strip(texts[i]) == x && x != "" && x != "／"
  {
    if |texts| == 0 then []
    else
      var prev := Cleaned(texts[..|texts| - 1]);
      var t := Strip(texts[|texts| - 1]);
      assert forall i :: 0 <= i < |texts| - 1 ==> texts[..|texts| - 1][i] == texts[i];
      if t != "" && t != "／" then prev + [t] else prev
  }

  /** The loop of `_get_broadcasters` over the texts of the `dd a` links. */
  function Broadcasters(texts: seq<string>): seq<string>
  {
    if |texts| == 0 then []
    else
      var prev := Broadcasters(texts[..|texts| - 1]);
      var t := Strip(texts[|texts| - 1]);
      if t != "" && t !in prev && t != "／" then prev + [t] else prev
  }

  /** The broadcasters are the kept texts, each once, in order of first appearance. */
  lemma {:induction false} BroadcastersSpec(texts: seq<string>)
    ensures Broadcasters(texts) == Dedup(Cleaned(texts))
    ensures Distinct(Broadcasters(texts))
  {
    if |texts| > 0 {
      var init := texts[..|texts| - 1];
      BroadcastersSpec(init);
      var c := Cleaned(init);
      var t := Strip(texts[|texts| - 1]);
      if t != "" && t != "／" {
        assert Cleaned(texts) == c + [t];
        assert (c + [t])[..|c|] == c;
      }
    }
  }

  /** `_get_broadcasters`: no `dl.broadcast` (or no `dd`) gives the empty list. */
  method GetBroadcasters(links: Option<seq<string>>) returns (result: seq<string>)
    ensures links.None? ==> result == []
    ensures links.Some? ==> result == Broadcasters(links.value)
  {
    if links.None? {
      return [];
    }
    var texts := links.value;
    result := [];
    var i := 0;
    while i < |texts|
      invariant 0 <= i <= |texts|
      invariant result == Broadcasters(texts[..i])
    {
      assert texts[..i + 1][..i] == texts[..i];
      var text := Strip(texts[i]);
      if text != "" && text !in result && text != "／" {
        result := result + [text];
      }
      i := i + 1;
    }
    assert texts[..i] == texts;
  }

  // ---------------------------------------------------------- _extract_matches

  /**
   * What a `div.c-schedule` container offers: `dateTime` is `None` without
   * `div.datetime` and `Some(None)` when its date or time paragraph is
   * missing (`_format_date` gives None); `venue` is the stripped text of
   * `p.place`; `teams` holds each `li.home`/`li.away` name (None without
   * `p.name`); `matchUrl` the detail link; `links` the broadcaster link texts.
   */
  datatype Container = Container(
    dateTime: Option<Option<string>>, venue: Option<string>, teams: seq<Option<string>>,
    matchUrl: string, links: Option<seq<string>>)

  /** The arguments `_extract_matches` hands to `build_match` that come from the page. */
  datatype Row = Row(kickoff: Option<string>, venue: string, homeTeam: string, awayTeam: string,
    matchUrl: string, broadcasters: seq<string>)

  function NameOr(n: Option<string>): string { if n.Some? then n.value else "" }

  /**
   * A container yields a match when date, venue and teams are all there,
   * `_format_date` produced a string (`format_date_string(None)` raises an
   * `AttributeError` that skips the container) and there are two teams
   * (`teams[1]` raises otherwise).
   */
  predicate Yields(c: Container)
  {
    c.dateTime.Some? && c.venue.Some? && |c.teams| > 0 && c.dateTime.value.Some? && |c.teams| >= 2
  }

  function RowOf(c: Container, fmt: string -> Option<string>): Row
    requires Yields(c)
  {
    Row(fmt(c.dateTime.value.value), c.venue.value,
      NameOr(c.teams[0]), NameOr(c.teams[1]), c.matchUrl,
      if c.links.Some? then Broadcasters(c.links.value) else [])
  }

  /** The matches of `_extract_matches`, in container order. */
  function ExtractAll(cs: seq<Container>, fmt: string -> Option<string>): (r: seq<Row>)
    ensures |r| <= |cs|
  {
    if |cs| == 0 then []
    else
      var prev := ExtractAll(cs[..|cs| - 1], fmt);
      if Yields(cs[|cs| - 1]) then prev + [RowOf(cs[|cs| - 1], fmt)] else prev
  }

  lemma ExtractStep(cs: seq<Container>, fmt: string -> Option<string>, i: int)
    requires 0 <= i < |cs|
    ensures ExtractAll(cs[..i + 1], fmt)
         == if Yields(cs[i]) then ExtractAll(cs[..i], fmt) + [RowOf(cs[i], fmt)] else ExtractAll(cs[..i], fmt)
  {
    assert cs[..i + 1][..i] == cs[..i];
  }

  /** Exactly the containers that yield contribute a row, one each. */
  function YieldCount(cs: seq<Container>): nat
  {
    if |cs| == 0 then 0 else YieldCount(cs[..|cs| - 1]) + (if Yields(cs[|cs| - 1]) then 1 else 0)
  }

  /** One row per yielding container, and every row comes from one. */
  lemma {:induction false} ExtractAllSpec(cs: seq<Container>, fmt: string -> Option<string>)
    ensures |ExtractAll(cs, fmt)| == YieldCount(cs)
    ensures forall r :: r in ExtractAll(cs, fmt) ==>
      exists i :: 0 <= i < |cs| && Yields(cs[i]) && r == RowOf(cs[i], fmt)
  {
    if |cs| > 0 {
      var init := cs[..|cs| - 1];
      ExtractAllSpec(init, fmt);
      forall r | r in ExtractAll(init, fmt)
        ensures exists i :: 0 <= i < |cs| && Yields(cs[i]) && r == RowOf(cs[i], fmt)
      {
        var i :| 0 <= i < |init| && Yields(init[i]) && r == RowOf(init[i], fmt);
        assert cs[i] == init[i];
      }
    }
  }

  /** One container of `_extract_matches`: its row is appended when it yields one. */
  method ExtractOne(rows: seq<Row>, c: Container, fmt: string -> Option<string>) returns (r: seq<Row>)
    ensures r == if Yields(c) then rows + [RowOf(c, fmt)] else rows
  {
    r := rows;
    if c.dateTime.Some? && c.venue.Some? && |c.teams| > 0 {
      if c.dateTime.value.Some? && |c.teams| >= 2 {
        var kickoff := fmt(c.dateTime.value.value);
        var bs := GetBroadcasters(c.links);
        r := rows + [Row(kickoff, c.venue.value, NameOr(c.teams[0]), NameOr(c.teams[1]), c.matchUrl, bs)];
      }
    }
  }

  /**
   * The loop of `_extract_matches`, skipping containers that fail the check
   * or raise; `fmt` is `format_date_string`, i.e. `FormatDateString` at the
   * clock's year.
   */
  method ExtractMatches(cs: seq<Container>, fmt: string -> Option<string>) returns (rows: seq<Row>)
    ensures rows == ExtractAll(cs, fmt)
  {
    rows := [];
    var i := 0;
    while i < |cs|
      invariant 0 <= i <= |cs|
      invariant rows == ExtractAll(cs[..i], fmt)
    {
      rows := ExtractOne(rows, cs[i], fmt);
      ExtractStep(cs, fmt, i);
      i := i + 1;
    }
    TakeAll(cs);
  }
}
