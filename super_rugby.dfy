/**
 * `src/scraper/super_rugby.py`: the Super Rugby Pacific draw PDF read line
 * by line. The text of each page (what `page.extract_text()` gives, with
 * `None` written as "") is the input; the download and the PDF decoding
 * are not modelled. A `"YYYY DRAW"` line fixes the season, a line of one or
 * two digits starts a round, and every other line may be a fixture:
 * weekday, day, month, `HOME VS AWAY [VENUE]`, local time, GMT time,
 * `[VENUE]`. The result is the list of `build_match` arguments the scraper
 * produces, with the `round` field each record ends up holding.
 */
module SuperRugby {
  import opened Text
  import opened BaseMatches

  // -------------------------------------------------------------- strptime

  const MonthAbbrevs: seq<string> := ["jan", "feb", "mar", "apr", "may", "jun", "jul", "aug", "sep", "oct", "nov", "dec"]

  /** Position of `x` in `xs`. */
  function Position(xs: seq<string>, x: string): (i: nat)
    requires x in xs
    ensures i < |xs| && xs[i] == x && x !in xs[..i]
  {
    if xs[0] == x then 0
    else
      var j := Position(xs[1..], x);
      assert xs[..j + 1] == [xs[0]] + xs[1..][..j];
      j + 1
  }

  /** `%b` in the C locale: an English month abbreviation in any letter case, as 1-12. */
  function MonthNumber(t: string): (r: Option<int>)
    ensures r.Some? <==> Lower(t) in MonthAbbrevs
    ensures r.Some? ==> 1 <= r.value <= 12 && MonthAbbrevs[r.value - 1] == Lower(t)
  {
    if Lower(t) in MonthAbbrevs then Some(Position(MonthAbbrevs, Lower(t)) + 1) else None
  }

  /** `%d`: one or two digits worth 1-31 (`0` and `00` are refused). */
  function DayNumber(t: string): (r: Option<int>)
    ensures r.Some? <==> 1 <= |t| <= 2 && AllDigits(t) && 1 <= DigitsValue(t) <= 31
    ensures r.Some? ==> r.value == DigitsValue(t)
  {
    if 1 <= |t| <= 2 && AllDigits(t) && 1 <= DigitsValue(t) <= 31 then Some(DigitsValue(t)) else None
  }

  datatype Date = Date(year: int, month: int, day: int)

  /**
   * `datetime.strptime(f"{day} {month} {year}", "%d %b %Y")`: `%Y` takes
   * exactly four digits, and a day past the end of its month raises
   * `ValueError` (here `None`).
   */
  function ParseDate(day: string, month: string, year: int): (r: Option<Date>)
    ensures r.Some? <==> (DayNumber(day).Some? && MonthNumber(month).Some?
      && 1000 <= year <= 9999 && DayNumber(day).value <= DaysIn(year, MonthNumber(month).value))
    ensures r.Some? ==> r.value == Date(year, MonthNumber(month).value, DayNumber(day).value)
  {
    var ys := IntToString(year);
    var d := DayNumber(day);
    var m := MonthNumber(month);
    YearDigits(year);
    if d.Some? && m.Some? && |ys| == 4 && AllDigits(ys) && d.value <= DaysIn(year, m.value) then
      Some(Date(year, m.value, d.value))
    else None
  }

  function Pow10(n: nat): nat { if n == 0 then 1 else 10 * Pow10(n - 1) }

  lemma {:induction false} Pow10Mono(a: nat, b: nat)
    requires a <= b
    ensures Pow10(a) <= Pow10(b)
    decreases b - a
  {
    if a < b {
      Pow10Mono(a, b - 1);
    }
  }

  /** Powers of ten are ordered as their exponents. */
  lemma Pow10Order(a: nat, b: nat)
    ensures Pow10(a) < Pow10(b) ==> a < b
  {
    if b <= a {
      Pow10Mono(b, a);
    }
  }

  /** `str(n)` has as many digits as the magnitude of n says. */
  lemma {:induction false} NatLength(n: nat)
    ensures n < Pow10(|NatToString(n)|)
    ensures n >= 10 ==> Pow10(|NatToString(n)| - 1) <= n
  {
    if n >= 10 {
      NatLength(n / 10);
    }
  }

  /** `str(year)` is four digits exactly for the years 1000-9999. */
  lemma YearDigits(year: int)
    ensures (|IntToString(year)| == 4 && AllDigits(IntToString(year))) <==> 1000 <= year <= 9999
  {
    if year < 0 {
      assert !IsDigit(IntToString(year)[0]);
    } else {
      var n: nat := year;
      NatLength(n);
      var len := |NatToString(n)|;
      assert Pow10(4) == 10000 && Pow10(3) == 1000;
      if 1000 <= n <= 9999 {
        Pow10Order(3, len);
        Pow10Order(len - 1, 4);
      }
    }
  }

  /**
   * `datetime.strptime(t, "%H:%M")`: hours and minutes of one or two
   * digits each, worth at most 23 and 59; anything else raises `ValueError`.
   */
  function ParseClock(t: string): (r: Option<(int, int)>)
    ensures r.Some? ==> 0 <= r.value.0 <= 23 && 0 <= r.value.1 <= 59
  {
    var parts := SplitOn(t, ':');
    if |parts| == 2 && 1 <= |parts[0]| <= 2 && AllDigits(parts[0]) && 1 <= |parts[1]| <= 2 && AllDigits(parts[1])
      && DigitsValue(parts[0]) <= 23 && DigitsValue(parts[1]) <= 59
    then Some((DigitsValue(parts[0]), DigitsValue(parts[1])))
    else None
  }

  /** A local time `h:mm` or `hh:mm` reads back as those hours and minutes. */
  lemma {:induction false} ParseClockOfValues(hh: string, mm: string)
    requires 1 <= |hh| <= 2 && AllDigits(hh) && DigitsValue(hh) <= 23
    requires |mm| == 2 && AllDigits(mm) && DigitsValue(mm) <= 59
    ensures ParseClock(hh + [':'] + mm) == Some((DigitsValue(hh), DigitsValue(mm)))
  {
    assert ':' !in hh by {
      forall k | 0 <= k < |hh| ensures hh[k] != ':' { assert IsDigit(hh[k]); }
    }
    assert ':' !in mm by {
      forall k | 0 <= k < |mm| ensures mm[k] != ':' { assert IsDigit(mm[k]); }
    }
    SplitOnHead(hh, mm, ':');
    SplitOnAbsent(mm, ':');
  }

  // ------------------------------------------------------------ the offset

  /** The two `if`s that bring local minus GMT into a real UTC offset. */
  function WrapOffset(d: int): (r: int)
    ensures -1440 < d < 1440 ==> -720 <= r <= 840
    ensures (r - d) % 1440 == 0
    ensures -720 <= d <= 840 ==> r == d
  {
    var a := if d < -720 then d + 1440 else d;
    if a > 840 then a - 1440 else a
  }

  /** The offset `timezone_name` spells: `UTC+HH:MM` or `UTC-HH:MM`. */
  function TimezoneName(offset: int): (name: string)
    ensures |name| >= 9 && name[..3] == "UTC" && name[3] == (if offset < 0 then '-' else '+')
  {
    "UTC" + FormatOffset(offset)
  }

  /** The base collector's `_parse_timezone_offset` reads every name of an offset under a day back as that offset. */
  lemma TimezoneNameReadsBack(offset: int)
    requires -1440 < offset < 1440
    ensures ParseTimezoneOffset(TimezoneName(offset)) == Some(offset)
  {
    ParseFormattedOffset(offset);
  }

  // ---------------------------------------------------------- token helpers

  /** `re.match(r"^\d{1,2}:\d{2}$", token)` */
  predicate IsTimeToken(t: string)
  {
    (|t| == 4 || |t| == 5) && t[|t| - 3] == ':' && AllDigits(t[..|t| - 3]) && AllDigits(t[|t| - 2..])
  }

  /** The positions of the time tokens, in increasing order. */
  function TimeIndices(ts: seq<string>): (r: seq<nat>)
    ensures forall k :: 0 <= k < |r| ==> r[k] < |ts| && IsTimeToken(ts[r[k]])
    ensures forall i :: 0 <= i < |ts| && IsTimeToken(ts[i]) ==> i in r
    ensures forall j, k :: 0 <= j < k < |r| ==> r[j] < r[k]
  {
    if |ts| == 0 then []
    else
      var prev := TimeIndices(ts[..|ts| - 1]);
      if IsTimeToken(ts[|ts| - 1]) then prev + [|ts| - 1] else prev
  }

  const Weekdays: seq<string> := ["MON", "TUE", "WED", "THU", "FRI", "SAT", "SUN"]

  predicate IsVs(t: string) { t == "VS" || t == "vs" }

  /**
   * `re.split(r"\s+VS\s+|\s+vs\s+", " ".join(ts))` for tokens without
   * whitespace, scanning from token `i` with the current piece `cur`: a
   * `VS`/`vs` token separates when it is neither the first nor the last
   * token and the token before it did not separate (that one's trailing
   * space is already consumed).
   */
  function VsGroups(ts: seq<string>, i: nat, cur: seq<string>, prevSep: bool): (r: seq<seq<string>>)
    requires i <= |ts|
    ensures |r| >= 1
    decreases |ts| - i
  {
    if i == |ts| then [cur]
    else if 0 < i < |ts| - 1 && !prevSep && IsVs(ts[i]) then [cur] + VsGroups(ts, i + 1, [], true)
    else VsGroups(ts, i + 1, cur + [ts[i]], false)
  }

  function VsSplit(ts: seq<string>): (r: seq<seq<string>>)
    ensures |r| >= 1
  {
    VsGroups(ts, 0, [], false)
  }

  /** Tokens that are not `VS`/`vs` are only collected into the current piece. */
  lemma {:induction false} VsGroupsSkip(ts: seq<string>, i: nat, j: nat, cur: seq<string>, prevSep: bool)
    requires i < j <= |ts|
    requires forall k :: i <= k < j ==> !IsVs(ts[k])
    ensures VsGroups(ts, i, cur, prevSep) == VsGroups(ts, j, cur + ts[i..j], false)
    decreases j - i
  {
    if i + 1 < j {
      VsGroupsSkip(ts, i + 1, j, cur + [ts[i]], false);
      assert cur + [ts[i]] + ts[i + 1..j] == cur + ts[i..j];
    } else {
      assert ts[i..j] == [ts[i]];
    }
  }

  /** `HOME VS AWAY` splits into exactly the two sides when neither side holds a `VS`/`vs` token. */
  lemma VsSplitPair(home: seq<string>, sep: string, away: seq<string>)
    requires |home| > 0 && |away| > 0 && IsVs(sep)
    requires forall k :: 0 <= k < |home| ==> !IsVs(home[k])
    requires forall k :: 0 <= k < |away| ==> !IsVs(away[k])
    ensures VsSplit(home + [sep] + away) == [home, away]
  {
    var ts := home + [sep] + away;
    var n := |home|;
    VsGroupsSkip(ts, 0, n, [], false);
    assert [] + ts[0..n] == home;
    assert ts[n] == sep;
    assert VsGroups(ts, n, home, false) == [home] + VsGroups(ts, n + 1, [], true);
    VsGroupsSkip(ts, n + 1, |ts|, [], true);
    assert [] + ts[n + 1..|ts|] == away;
    assert VsGroups(ts, |ts|, away, false) == [away];
  }

  /** A token list without any `VS`/`vs` stays one piece, so the line is not a fixture. */
  lemma VsSplitNone(ts: seq<string>)
    requires |ts| > 0
    requires forall k :: 0 <= k < |ts| ==> !IsVs(ts[k])
    ensures VsSplit(ts) == [ts]
  {
    VsGroupsSkip(ts, 0, |ts|, [], false);
    assert [] + ts[0..|ts|] == ts;
    assert VsGroups(ts, |ts|, ts, false) == [ts];
  }

  /** `s.strip(c)`: drops `c` at both ends. */
  function StripChar(s: string, c: char): (r: string)
    ensures |r| <= |s|
    ensures r == [] || (r[0] != c && r[|r| - 1] != c)
    decreases |s|
  {
    if |s| > 0 && s[0] == c then StripChar(s[1..], c)
    else if |s| > 0 && s[|s| - 1] == c then StripChar(s[..|s| - 1], c)
    else s
  }

  const VenueKeywords: set<string> := {"stadium", "park", "oval", "arena", "ground", "field", "tbc"}

  /** `token.strip(",").lower() in venue_keywords` */
  predicate IsVenueKeyword(t: string) { Lower(StripChar(t, ',')) in VenueKeywords }

  /** `any(ch.isalpha() for ch in token) and token != token.upper()` */
  predicate IsMixedCase(t: string) { (exists i :: 0 <= i < |t| && IsLetter(t[i])) && t != Upper(t) }

  /** The first position whose token satisfies `p`. */
  function FindIndex(ts: seq<string>, p: string -> bool): (r: Option<nat>)
    ensures r.Some? ==> r.value < |ts| && p(ts[r.value]) && forall j :: 0 <= j < r.value ==> !p(ts[j])
    ensures r.None? ==> forall j :: 0 <= j < |ts| ==> !p(ts[j])
  {
    if |ts| == 0 then None
    else if p(ts[0]) then Some(0)
    else
      var k := FindIndex(ts[1..], p);
      if k.Some? then Some(k.value + 1) else None
  }

  /** The `for idx, token in enumerate(...): if ...: ...; break` loops. */
  method FirstIndex(ts: seq<string>, p: string -> bool) returns (r: Option<nat>)
    ensures r == FindIndex(ts, p)
  {
    var idx := 0;
    while idx < |ts|
      invariant 0 <= idx <= |ts|
      invariant FindIndex(ts, p) == (var k := FindIndex(ts[idx..], p); if k.Some? then Some(k.value + idx) else None)
    {
      assert ts[idx..][1..] == ts[idx + 1..];
      if p(ts[idx]) {
        return Some(idx);
      }
      idx := idx + 1;
    }
    return None;
  }

  /**
   * Where the away text gives way to the venue: the first token that is a
   * venue keyword or has a lower-case letter.
   */
  function VenueStart(ts: seq<string>): (r: Option<nat>)
    ensures r.Some? ==> r.value < |ts| && (IsVenueKeyword(ts[r.value]) || IsMixedCase(ts[r.value]))
    ensures forall j :: 0 <= j < |ts| && (r.None? || j < r.value) ==> !IsVenueKeyword(ts[j]) && !IsMixedCase(ts[j])
  {
    var kw := FindIndex(ts, IsVenueKeyword);
    var mc := FindIndex(ts, IsMixedCase);
    if mc.Some? && (kw.None? || mc.value < kw.value) then mc else kw
  }

  // ------------------------------------------------------------ a match line

  datatype Kickoff = Kickoff(year: int, month: int, day: int, hour: int, minute: int, offset: int)

  /** The dict `_parse_match_line` returns. */
  datatype LineFix = LineFix(homeTeam: string, awayTeam: string, venue: string, kickoff: Kickoff, timezoneName: string)

  /**
   * `None` is `NoMatch`; `Abort` is a `ValueError` raised by the unguarded
   * `strptime` of the two times, which ends the whole scrape.
   */
  datatype LineResult = NoMatch | Abort | Parsed(fix: LineFix)

  /** A year `_parse_match_line` accepts: set, and not 0. */
  predicate YearSet(year: Option<int>) { year.Some? && year.value != 0 }

  /** `_parse_match_line(line, year)` */
  function ParseMatchLine(line: string, year: Option<int>): (r: LineResult)
    ensures !YearSet(year) ==> r == NoMatch
    ensures r.Parsed? ==> YearSet(year) && ParsedWell(year.value, r.fix)
  {
    if !YearSet(year) then NoMatch
    else
      var all := Split(line);
      if |all| == 0 then NoMatch
      else ParseTokens(if all[0] == "ROUND" then all[1..] else all, year.value)
  }

  /** What every parsed line satisfies: a real date in `year`, a real clock time and an offset in [-12:00, +14:00] that its name spells. */
  predicate ParsedWell(year: int, p: LineFix)
  {
    WellTimed(year, p.kickoff, p.timezoneName)
  }

  /** A kickoff on a real date of `year` at a real clock time, with an offset its timezone name spells. */
  predicate WellTimed(year: int, k: Kickoff, timezoneName: string)
  {
    k.year == year && 1 <= k.month <= 12 && 1 <= k.day <= DaysIn(year, k.month)
    && 0 <= k.hour <= 23 && 0 <= k.minute <= 59
    && -720 <= k.offset <= 840
    && timezoneName == TimezoneName(k.offset)
  }

  /** `_parse_match_line` after the split and the optional leading `ROUND` token. */
  function ParseTokens(tokens: seq<string>, year: int): (r: LineResult)
    ensures |TimeIndices(tokens)| < 2 ==> r == NoMatch
    ensures r.Parsed? ==> ParsedWell(year, r.fix)
  {
    var times := TimeIndices(tokens);
    if |times| < 2 then NoMatch
    else
      var first := times[0];
      var last := times[|times| - 1];
      var tbc := last + 1 == |tokens| && first >= 1 && Upper(tokens[first - 1]) == "TBC";
      var prefix := if tbc then tokens[..first - 1] else tokens[..first];
      var venueTail := if tbc then ["TBC"] else tokens[last + 1..];
      if |prefix| < 4 || prefix[0] !in Weekdays then NoMatch
      else
        var parts := VsSplit(prefix[3..]);
        if |parts| != 2 then NoMatch
        else
          var (home, away, venue) := Sides(parts[0], parts[1], venueTail);
          ParseKickoff(home, away, venue, prefix[1], prefix[2], tokens[first], tokens[first + 1], year)
  }

  /**
   * The date of the day and month tokens, then the two unguarded clock
   * parses, and the offset between local time and GMT.
   */
  function ParseKickoff(home: string, away: string, venue: string, day: string, month: string,
                        localTime: string, gmtTime: string, year: int): (r: LineResult)
    ensures ParseDate(day, month, year).None? ==> r == NoMatch
    ensures r.Parsed? ==> (WellTimed(year, r.fix.kickoff, r.fix.timezoneName)
      && r.fix.homeTeam == home && r.fix.awayTeam == away && r.fix.venue == venue)
  {
    match ParseDate(day, month, year)
    case None => NoMatch
    case Some(date) =>
      var local := ParseClock(localTime);
      var gmt := ParseClock(gmtTime);
      if local.None? || gmt.None? then Abort
      else
        var offset := WrapOffset((local.value.0 * 60 + local.value.1) - (gmt.value.0 * 60 + gmt.value.1));
        Parsed(LineFix(home, away, venue,
          Kickoff(date.year, date.month, date.day, local.value.0, local.value.1, offset), TimezoneName(offset)))
  }

  /**
   * Home team, away team and venue from the two sides of `VS` and the tokens
   * after the times: the away side is cut where `VenueStart` says, and what
   * follows the cut goes in front of the venue tokens.
   */
  function Sides(homeTokens: seq<string>, awaySide: seq<string>, venueTail: seq<string>): (string, string, string)
  {
    var home := Strip(Join(homeTokens, " "));
    var awayTokens := Split(Strip(Join(awaySide, " ")));
    var cut := VenueStart(awayTokens);
    var away := if cut.Some? then awayTokens[..cut.value] else awayTokens;
    var venue := (if cut.Some? then awayTokens[cut.value..] else []) + venueTail;
    (home, Strip(Join(away, " ")), Strip(Join(venue, " ")))
  }

  // ----------------------------------------------------------- the PDF pass

  /**
   * The `build_match` arguments of one fixture; `relabel` is the label a
   * later round line wrote over the record's `round`, if any.
   */
  datatype Fixture = Fixture(competitionId: string, season: string, roundName: string, relabel: Option<string>,
    kickoff: Kickoff, timezoneName: string, venue: string, homeTeam: string, awayTeam: string)

  /** The record's `round`: the number `build_match` extracts from the round name, unless a round line rewrote it. */
  function RoundOf(f: Fixture): string
  {
    if f.relabel.Some? then f.relabel.value else ExtractRoundNumber(f.roundName)
  }

  /** The locals of `_parse_pdf`: `year`, `current_round`, `pending_round_indices`, `matches`. */
  datatype St = St(year: Option<int>, currentRound: string, pending: seq<nat>, fixtures: seq<Fixture>)

  const Init: St := St(None, "", [], [])

  /** `re.match(r"^(\d{4})\s+DRAW$", line)` on a stripped line, with the year it captures. */
  function YearOf(line: string): (r: Option<int>)
    ensures r.Some? ==> 0 <= r.value <= 9999
  {
    if |line| >= 9 && AllDigits(line[..4]) && line[|line| - 4..] == "DRAW"
      && AllSpace(line[4..|line| - 4]) && IsSpace(line[4])
    then
      var y := DigitsValue(line[..4]);
      assert y <= 9999 by { DigitsBound(line[..4]); }
      Some(y)
    else None
  }

  lemma {:induction false} DigitsBound(s: string)
    requires AllDigits(s)
    ensures DigitsValue(s) < Pow10(|s|)
  {
    if |s| > 0 {
      DigitsBound(s[..|s| - 1]);
    }
  }

  /** `re.fullmatch(r"\d{1,2}", line)` */
  predicate IsRoundLine(line: string) { 1 <= |line| <= 2 && AllDigits(line) }

  /** `line.zfill(2)` for a one- or two-digit line. */
  function ZFill2(line: string): (r: string)
    ensures IsRoundLine(line) ==> |r| == 2 && AllDigits(r)
  {
    if |line| == 1 then "0" + line else line
  }

  /** `matches[idx]["round"] = label` for every pending index. */
  function Relabel(fs: seq<Fixture>, idxs: seq<nat>, roundLabel: string): (r: seq<Fixture>)
    ensures |r| == |fs|
    ensures forall k :: 0 <= k < |fs| ==> r[k] == if k in idxs then fs[k].(relabel := Some(roundLabel)) else fs[k]
  {
    seq(|fs|, k requires 0 <= k < |fs| => if k in idxs then fs[k].(relabel := Some(roundLabel)) else fs[k])
  }

  /**
   * The `build_match` call of a parsed line: the season is `str(year)` when
   * the year is set and not 0, the round name `Round NN` once a round line
   * was seen.
   */
  function Built(year: Option<int>, currentRound: string, p: LineFix): Fixture
  {
    var roundName := if currentRound != "" then "Round " + currentRound else "";
    Fixture("205", if YearSet(year) then IntToString(year.value) else "", roundName, None,
      p.kickoff, p.timezoneName, p.venue, p.homeTeam, p.awayTeam)
  }

  /** One line of the loop, with the line parser `parse`; `None` when it raised. */
  function Step(st: St, raw: string, parse: (string, Option<int>) -> LineResult): Option<St>
  {
    var line := Strip(raw);
    if line == "" then Some(st)
    else if st.year.None? && YearOf(line).Some? then Some(st.(year := YearOf(line)))
    else if Occurs(Upper(line), "DATE TEAM VS TEAM") || StartsWith(line, "BYE:") then Some(st)
    else if IsRoundLine(line) then Some(NewRound(st, line))
    else AddFixture(st, line, parse)
  }

  /** A round line: the zero-padded round, and the pending records relabelled. */
  function NewRound(st: St, line: string): St
  {
    var cur := ZFill2(line);
    St(st.year, cur, [], Relabel(st.fixtures, st.pending, "Round " + cur))
  }

  /** Any other line: a record when it parses, pending when it began with `ROUND ` before any round line. */
  function AddFixture(st: St, line: string, parse: (string, Option<int>) -> LineResult): Option<St>
  {
    var roundPending := StartsWith(line, "ROUND ");
    var rest := if roundPending then line[6..] else line;
    AddParsed(st, parse(rest, st.year), roundPending && st.currentRound == "")
  }

  /** What the parser's answer does to the state; `pend` says whether a new record waits for its round. */
  function AddParsed(st: St, pr: LineResult, pend: bool): Option<St>
  {
    match pr
    case NoMatch => Some(st)
    case Abort => None
    case Parsed(p) =>
      var fs := st.fixtures + [Built(st.year, st.currentRound, p)];
      Some(st.(fixtures := fs, pending := if pend then st.pending + [|fs| - 1] else st.pending))
  }

  /** The loop from state `st` over `lines`. */
  function Run(st: St, lines: seq<string>, parse: (string, Option<int>) -> LineResult): Option<St>
    decreases |lines|
  {
    if |lines| == 0 then Some(st)
    else
      match Step(st, lines[0], parse)
      case None => None
      case Some(s) => Run(s, lines[1..], parse)
  }

  /** `text.split("\n")` of every page, in page order. */
  function AllLines(pages: seq<string>): seq<string>
  {
    if |pages| == 0 then [] else SplitOn(pages[0], '\n') + AllLines(pages[1..])
  }

  /** `_parse_pdf`: the built records, or `None` when the scrape ends in an exception. */
  function ParsePdf(pages: seq<string>): Option<seq<Fixture>>
  {
    match Run(Init, AllLines(pages), ParseMatchLine)
    case None => None
    case Some(st) => Some(st.fixtures)
  }

  // ------------------------------------------------------------- invariants

  /** What the pass relies on from `_parse_match_line`: a parsed line has a set year and a well-formed kickoff in it. */
  ghost predicate ParserSound(parse: (string, Option<int>) -> LineResult)
  {
    forall l, y :: parse(l, y).Parsed? ==> YearSet(y) && ParsedWell(y.value, parse(l, y).fix)
  }

  lemma ParseMatchLineSound()
    ensures ParserSound(ParseMatchLine)
  {
  }

  predicate TwoDigits(d: string) { |d| == 2 && AllDigits(d) }

  /** `"Round NN"` */
  predicate IsLabel(s: string) { |s| == 8 && s[..6] == "Round " && TwoDigits(s[6..]) }

  /**
   * The round fields of a record: built inside a round, the name is
   * `Round NN` and `round` its two digits; built before any round line, the
   * name is "" and `round` is "" or, once a later round line rewrote it, the
   * whole label `Round NN`.
   */
  predicate RoundFields(f: Fixture)
  {
    if f.roundName == "" then RoundOf(f) == "" || IsLabel(RoundOf(f))
    else IsLabel(f.roundName) && RoundOf(f) == f.roundName[6..]
  }

  /** A record of the draw of `year`: competition 205, that season, a well-formed kickoff in it, round fields as above. */
  predicate FixtureOk(year: int, f: Fixture)
  {
    f.competitionId == "205" && f.season == IntToString(year) && RoundFields(f)
    && WellTimed(year, f.kickoff, f.timezoneName)
  }

  /** Every pending index names a record. */
  predicate PendingValid(st: St)
  {
    forall k :: 0 <= k < |st.pending| ==> st.pending[k] < |st.fixtures|
  }

  /** What holds between lines of `_parse_pdf`. */
  predicate Inv(st: St)
  {
    PendingValid(st)
    && (st.currentRound == "" || TwoDigits(st.currentRound))
    && (|st.pending| > 0 ==> st.currentRound == "")
    && (forall k :: 0 <= k < |st.pending| ==>
          st.fixtures[st.pending[k]].roundName == "" && st.fixtures[st.pending[k]].relabel.None?)
    && (|st.fixtures| > 0 ==> YearSet(st.year))
    && (forall k :: 0 <= k < |st.fixtures| ==> FixtureOk(st.year.value, st.fixtures[k]))
  }

  lemma RoundOfLabel(d: string)
    requires TwoDigits(d)
    ensures ExtractRoundNumber("Round " + d) == d
  {
    ExtractSkip("Round ", d);
    LeadingDigitsAll(d);
  }

  /** A record built inside round `NN` has round name `Round NN` and round `NN`; one built before has both "". */
  lemma BuiltRound(year: Option<int>, cur: string, p: LineFix)
    requires cur == "" || TwoDigits(cur)
    ensures var f := Built(year, cur, p);
      f.competitionId == "205" && f.season == (if YearSet(year) then IntToString(year.value) else "")
      && f.relabel.None?
      && (cur == "" ==> f.roundName == "" && RoundOf(f) == "")
      && (cur != "" ==> f.roundName == "Round " + cur && RoundOf(f) == cur)
  {
    if cur != "" {
      RoundOfLabel(cur);
      assert ("Round " + cur)[6..] == cur;
    }
  }

  lemma RelabelKeeps(st: St, line: string)
    requires Inv(st) && IsRoundLine(line)
    ensures Inv(NewRound(st, line))
  {
    var cur := ZFill2(line);
    var fs := Relabel(st.fixtures, st.pending, "Round " + cur);
    assert IsLabel("Round " + cur) by {
      assert ("Round " + cur)[6..] == cur;
    }
    forall k | 0 <= k < |fs| ensures FixtureOk(st.year.value, fs[k]) {
      if k in st.pending {
        var j :| 0 <= j < |st.pending| && st.pending[j] == k;
        assert st.fixtures[k].roundName == "";
      }
    }
  }

  lemma AppendKeeps(st: St, f: Fixture, pend: bool)
    requires Inv(st) && YearSet(st.year) && FixtureOk(st.year.value, f)
    requires pend ==> st.currentRound == "" && f.roundName == "" && f.relabel.None?
    ensures var fs := st.fixtures + [f];
      Inv(st.(fixtures := fs, pending := if pend then st.pending + [|fs| - 1] else st.pending))
  {
  }

  /** A parser answer that is well formed keeps the invariant. */
  lemma AddParsedKeeps(st: St, pr: LineResult, pend: bool)
    requires Inv(st) && (pend ==> st.currentRound == "")
    requires pr.Parsed? ==> YearSet(st.year) && ParsedWell(st.year.value, pr.fix)
    ensures AddParsed(st, pr, pend).Some? ==> Inv(AddParsed(st, pr, pend).value)
  {
    if pr.Parsed? {
      var f := Built(st.year, st.currentRound, pr.fix);
      BuiltRound(st.year, st.currentRound, pr.fix);
      assert FixtureOk(st.year.value, f);
      AppendKeeps(st, f, pend);
    }
  }

  /** A record added by any line keeps the invariant. */
  lemma AddFixtureKeeps(st: St, line: string, parse: (string, Option<int>) -> LineResult)
    requires Inv(st) && ParserSound(parse)
    ensures AddFixture(st, line, parse).Some? ==> Inv(AddFixture(st, line, parse).value)
  {
    var roundPending := StartsWith(line, "ROUND ");
    var rest := if roundPending then line[6..] else line;
    AddParsedKeeps(st, parse(rest, st.year), roundPending && st.currentRound == "");
  }

  /** Every line keeps the invariant. */
  lemma StepKeeps(st: St, raw: string, parse: (string, Option<int>) -> LineResult)
    requires Inv(st) && ParserSound(parse)
    ensures Step(st, raw, parse).Some? ==> Inv(Step(st, raw, parse).value)
  {
    var line := Strip(raw);
    if line == "" || (st.year.None? && YearOf(line).Some?) || Occurs(Upper(line), "DATE TEAM VS TEAM") || StartsWith(line, "BYE:") {
    } else if IsRoundLine(line) {
      RelabelKeeps(st, line);
    } else {
      AddFixtureKeeps(st, line, parse);
    }
  }

  lemma {:induction false} RunKeeps(st: St, lines: seq<string>, parse: (string, Option<int>) -> LineResult)
    requires Inv(st) && ParserSound(parse)
    ensures Run(st, lines, parse).Some? ==> Inv(Run(st, lines, parse).value)
    decreases |lines|
  {
    if |lines| > 0 {
      StepKeeps(st, lines[0], parse);
      var s := Step(st, lines[0], parse);
      if s.Some? {
        RunKeeps(s.value, lines[1..], parse);
      }
    }
  }

  /**
   * Every record of a draw has competition 205, the season of the draw's
   * year line, a kickoff on a real date of that year with an offset in
   * [-12:00, +14:00] that its timezone name spells, and round fields as
   * `RoundFields` says: a fixture that waited for its round holds
   * `Round NN` in `round` where every other one holds only the digits `NN`.
   */
  lemma ParsePdfSpec(pages: seq<string>)
    ensures var s := Run(Init, AllLines(pages), ParseMatchLine);
      ParsePdf(pages) == (if s.Some? then Some(s.value.fixtures) else None)
      && (s.Some? && |s.value.fixtures| > 0 ==>
            YearSet(s.value.year) && forall k :: 0 <= k < |s.value.fixtures| ==> FixtureOk(s.value.year.value, s.value.fixtures[k]))
  {
    ParseMatchLineSound();
    RunKeeps(Init, AllLines(pages), ParseMatchLine);
  }

  // -------------------------------------------------------- single lines

  /** Before the year line no line yields a record. */
  lemma NoYearNoRecord(st: St, raw: string, parse: (string, Option<int>) -> LineResult)
    requires st.year.None? && ParserSound(parse)
    ensures var r := Step(st, raw, parse); r.Some? ==> |r.value.fixtures| == |st.fixtures|
  {
    var line := Strip(raw);
    if line != "" && !(YearOf(line).Some?) && !IsRoundLine(line) {
      var rest := if StartsWith(line, "ROUND ") then line[6..] else line;
      assert !parse(rest, st.year).Parsed?;
    }
  }

  /** Header and bye lines change nothing. */
  lemma SkippedLines(st: St, raw: string, parse: (string, Option<int>) -> LineResult)
    requires var line := Strip(raw); line != "" && !(st.year.None? && YearOf(line).Some?)
    requires var line := Strip(raw); Occurs(Upper(line), "DATE TEAM VS TEAM") || StartsWith(line, "BYE:")
    ensures Step(st, raw, parse) == Some(st)
  {
  }

  /** The first year line sets the year; no later line changes it. */
  lemma YearFixedOnce(st: St, raw: string, parse: (string, Option<int>) -> LineResult)
    ensures var r := Step(st, raw, parse); var y := YearOf(Strip(raw));
      r.Some? ==> r.value.year == (if st.year.None? && Strip(raw) != "" && y.Some? then y else st.year)
  {
  }

  /** A round line zero-pads the round, rewrites every pending record's `round` to `Round NN` and empties the pending list. */
  lemma RoundLineSpec(st: St, raw: string, parse: (string, Option<int>) -> LineResult)
    requires var line := Strip(raw); IsRoundLine(line) && !(st.year.None? && YearOf(line).Some?)
    ensures var line := Strip(raw); var cur := if |line| == 1 then "0" + line else line;
      var r := Step(st, raw, parse);
      r.Some? && r.value.currentRound == cur && r.value.pending == [] && r.value.year == st.year
      && |r.value.fixtures| == |st.fixtures|
      && (forall k :: 0 <= k < |st.fixtures| ==>
           r.value.fixtures[k] == if k in st.pending then st.fixtures[k].(relabel := Some("Round " + cur)) else st.fixtures[k])
  {
    var line := Strip(raw);
    assert !Occurs(Upper(line), "DATE TEAM VS TEAM") by {
      OccursContains(Upper(line), "DATE TEAM VS TEAM");
      forall i | 0 <= i <= |Upper(line)| ensures !OccursAt(Upper(line), i, "DATE TEAM VS TEAM") { }
    }
    assert !StartsWith(line, "BYE:");
  }

  /** A line that adds a record marks it pending exactly when it began with `ROUND ` and no round line came before. */
  lemma PendingRule(st: St, raw: string, parse: (string, Option<int>) -> LineResult)
    requires var r := Step(st, raw, parse); r.Some? && |r.value.fixtures| == |st.fixtures| + 1
    ensures var r := Step(st, raw, parse);
      r.value.pending == if StartsWith(Strip(raw), "ROUND ") && st.currentRound == "" then st.pending + [|st.fixtures|] else st.pending
  {
  }

  // ------------------------------------------------------------- the loop

  /** `for idx in pending_round_indices: matches[idx]["round"] = f"Round {current_round}"` */
  method RelabelLoop(fs: seq<Fixture>, idxs: seq<nat>, roundLabel: string) returns (r: seq<Fixture>)
    requires forall k :: 0 <= k < |idxs| ==> idxs[k] < |fs|
    ensures r == Relabel(fs, idxs, roundLabel)
  {
    r := fs;
    var j := 0;
    while j < |idxs|
      invariant 0 <= j <= |idxs|
      invariant r == Relabel(fs, idxs[..j], roundLabel)
    {
      assert idxs[..j + 1] == idxs[..j] + [idxs[j]];
      r := r[idxs[j] := r[idxs[j]].(relabel := Some(roundLabel))];
      j := j + 1;
    }
    assert idxs[..j] == idxs;
  }

  lemma StepPendingValid(st: St, raw: string, parse: (string, Option<int>) -> LineResult)
    requires PendingValid(st)
    ensures Step(st, raw, parse).Some? ==> PendingValid(Step(st, raw, parse).value)
  {
  }

  /**
   * The body of the line loop: the next values of `year`, `current_round`,
   * `pending_round_indices` and `matches`, or `ok == false` when the line
   * parser raised.
   */
  method FeedLine(year: Option<int>, currentRound: string, pending: seq<nat>, matches: seq<Fixture>,
                  raw: string, ghost rest: seq<string>, parse: (string, Option<int>) -> LineResult)
    returns (ok: bool, year1: Option<int>, currentRound1: string, pending1: seq<nat>, matches1: seq<Fixture>)
    requires PendingValid(St(year, currentRound, pending, matches))
    ensures Run(St(year, currentRound, pending, matches), [raw] + rest, parse)
      == if ok then Run(St(year1, currentRound1, pending1, matches1), rest, parse) else None
    ensures ok ==> PendingValid(St(year1, currentRound1, pending1, matches1))
  {
    assert ([raw] + rest)[0] == raw && ([raw] + rest)[1..] == rest;
    StepPendingValid(St(year, currentRound, pending, matches), raw, parse);
    ok, year1, currentRound1, pending1, matches1 := true, year, currentRound, pending, matches;
    var line := Strip(raw);
    if line == "" {
      return;
    }
    if year.None? && YearOf(line).Some? {
      year1 := YearOf(line);
      return;
    }
    if Occurs(Upper(line), "DATE TEAM VS TEAM") || StartsWith(line, "BYE:") {
      return;
    }
    if IsRoundLine(line) {
      currentRound1 := ZFill2(line);
      matches1 := RelabelLoop(matches, pending, "Round " + currentRound1);
      pending1 := [];
      return;
    }
    ok, pending1, matches1 := AddLine(year, currentRound, pending, matches, line, parse);
  }

  /** A line that may be a fixture: the next `pending_round_indices` and `matches`, or `ok == false` when the parser raised. */
  method AddLine(year: Option<int>, currentRound: string, pending: seq<nat>, matches: seq<Fixture>,
                 line: string, parse: (string, Option<int>) -> LineResult)
    returns (ok: bool, pending1: seq<nat>, matches1: seq<Fixture>)
    ensures AddFixture(St(year, currentRound, pending, matches), line, parse)
      == if ok then Some(St(year, currentRound, pending1, matches1)) else None
  {
    ok, pending1, matches1 := true, pending, matches;
    var rest := line;
    var roundPending := false;
    if StartsWith(line, "ROUND ") {
      rest := line[6..];
      roundPending := true;
    }
    var parsed := parse(rest, year);
    if parsed.Abort? {
      ok := false;
      return;
    }
    if parsed.NoMatch? {
      return;
    }
    matches1 := matches + [Built(year, currentRound, parsed.fix)];
    if roundPending && currentRound == "" {
      pending1 := pending + [|matches1| - 1];
    }
  }

  /**
   * The loop over the lines of one page; `tail` stands for the lines of the
   * pages after it, so that the pass over the whole draw is unchanged.
   */
  method FeedPage(year: Option<int>, currentRound: string, pending: seq<nat>, matches: seq<Fixture>,
                  lines: seq<string>, ghost tail: seq<string>, parse: (string, Option<int>) -> LineResult)
    returns (ok: bool, year1: Option<int>, currentRound1: string, pending1: seq<nat>, matches1: seq<Fixture>)
    requires PendingValid(St(year, currentRound, pending, matches))
    ensures Run(St(year, currentRound, pending, matches), lines + tail, parse)
      == if ok then Run(St(year1, currentRound1, pending1, matches1), tail, parse) else None
    ensures ok ==> PendingValid(St(year1, currentRound1, pending1, matches1))
  {
    ok, year1, currentRound1, pending1, matches1 := true, year, currentRound, pending, matches;
    var i := 0;
    while i < |lines|
      invariant 0 <= i <= |lines|
      invariant PendingValid(St(year1, currentRound1, pending1, matches1))
      invariant Run(St(year, currentRound, pending, matches), lines + tail, parse)
        == Run(St(year1, currentRound1, pending1, matches1), lines[i..] + tail, parse)
    {
      SuffixCons(lines, i, tail);
      var stepOk;
      stepOk, year1, currentRound1, pending1, matches1 := FeedLine(year1, currentRound1, pending1, matches1, lines[i], lines[i + 1..] + tail, parse);
      if !stepOk {
        ok := false;
        return;
      }
      i := i + 1;
    }
    assert lines[i..] + tail == tail;
  }

  /** The suffix from `i` is the line at `i` followed by the suffix after it. */
  lemma SuffixCons(lines: seq<string>, i: nat, tail: seq<string>)
    requires i < |lines|
    ensures lines[i..] + tail == [lines[i]] + (lines[i + 1..] + tail)
  {
    assert lines[i..] == [lines[i]] + lines[i + 1..];
  }

  /** The loop of `_parse_pdf` over the page texts, with the line parser `parse`. */
  method ParsePdfWith(pages: seq<string>, parse: (string, Option<int>) -> LineResult) returns (r: Option<seq<Fixture>>)
    ensures r == (var s := Run(Init, AllLines(pages), parse); if s.Some? then Some(s.value.fixtures) else None)
  {
    var year: Option<int> := None;
    var currentRound := "";
    var pending: seq<nat> := [];
    var matches: seq<Fixture> := [];
    var p := 0;
    while p < |pages|
      invariant 0 <= p <= |pages|
      invariant PendingValid(St(year, currentRound, pending, matches))
      invariant Run(St(year, currentRound, pending, matches), AllLines(pages[p..]), parse) == Run(Init, AllLines(pages), parse)
    {
      var lines := SplitOn(pages[p], '\n');
      assert AllLines(pages[p..]) == lines + AllLines(pages[p + 1..]) by {
        assert pages[p..][1..] == pages[p + 1..];
      }
      var ok;
      ok, year, currentRound, pending, matches := FeedPage(year, currentRound, pending, matches, lines, AllLines(pages[p + 1..]), parse);
      if !ok {
        return None;
      }
      p := p + 1;
    }
    assert AllLines(pages[p..]) == [];
    return Some(matches);
  }

  /** `_parse_pdf` */
  method ParsePdfLoop(pages: seq<string>) returns (r: Option<seq<Fixture>>)
    ensures r == ParsePdf(pages)
  {
    r := ParsePdfWith(pages, ParseMatchLine);
  }
}
