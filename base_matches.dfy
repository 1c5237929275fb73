/**
 * Match records and match identity in the base collector
 * (src/collectors/base.py): round-number extraction, `_generate_match_id`,
 * `assign_match_ids` (sort by `kickoff_utc`, number each
 * (competition, season, round) group in kickoff order, sort again),
 * `_parse_timezone_offset` for `UTC`, `±HH:MM` and `UTC±HH:MM` tokens, and
 * the timezone label `_normalize_datetime` hands back.
 */
module BaseMatches {
  import opened Text
  import opened Sorting

  /** The fifteen fields `build_match` emits. */
  datatype Match = Match(
    matchId: string, competitionId: string, season: string, round: string, status: string,
    kickoff: string, kickoffUtc: string, timezone: string, venue: string,
    homeTeam: string, awayTeam: string, homeTeamId: string, awayTeamId: string,
    matchUrl: string, broadcasters: seq<string>)

  // ------------------------------------------------------------------ rounds

  /** The leading run of ASCII digits. */
  function LeadingDigits(s: string): (r: string)
    ensures |r| <= |s| && r == s[..|r|] && AllDigits(r)
    ensures |r| == |s| || !IsDigit(s[|r|])
    ensures |s| > 0 && IsDigit(s[0]) ==> |r| > 0
  {
    if |s| == 0 || !IsDigit(s[0]) then "" else [s[0]] + LeadingDigits(s[1..])
  }

  predicate NoDigit(s: string) { forall i :: 0 <= i < |s| ==> !IsDigit(s[i]) }

  /** `_extract_round_number`: `re.search(r'(\d+)', name).group(1)`, or "" without a digit. */
  function ExtractRoundNumber(roundName: string): string
  {
    if |roundName| == 0 then ""
    else if IsDigit(roundName[0]) then LeadingDigits(roundName)
    else ExtractRoundNumber(roundName[1..])
  }

  /** Position of the first digit, or the length when there is none. */
  function FirstDigit(s: string): (i: nat)
    ensures i <= |s| && NoDigit(s[..i]) && (i == |s| || IsDigit(s[i]))
  {
    if |s| == 0 then 0
    else if IsDigit(s[0]) then 0
    else
      var j := FirstDigit(s[1..]);
      assert s[..j + 1] == [s[0]] + s[1..][..j];
      j + 1
  }

  /** The result is the maximal digit run at the first digit, and is "" exactly when there is no digit. */
  lemma {:induction false} ExtractRoundSpec(s: string)
    ensures ExtractRoundNumber(s) == LeadingDigits(s[FirstDigit(s)..])
    ensures ExtractRoundNumber(s) == "" <==> NoDigit(s)
  {
    if |s| > 0 && !IsDigit(s[0]) {
      ExtractRoundSpec(s[1..]);
      assert s[1..][FirstDigit(s[1..])..] == s[FirstDigit(s)..];
      if NoDigit(s[1..]) {
        assert forall j :: 1 <= j < |s| ==> s[j] == s[1..][j - 1];
      }
    }
    if FirstDigit(s) == |s| {
      assert s[..|s|] == s;
    }
  }

  lemma {:induction false} ExtractSkip(p: string, d: string)
    requires NoDigit(p)
    ensures ExtractRoundNumber(p + d) == ExtractRoundNumber(d)
  {
    if |p| > 0 {
      assert (p + d)[1..] == p[1..] + d;
      ExtractSkip(p[1..], d);
    } else {
      assert p + d == d;
    }
  }

  /** `"Round N"` yields the decimal digits of N. */
  lemma ExtractRoundOfLabel(n: nat)
    ensures ExtractRoundNumber("Round " + NatToString(n)) == NatToString(n)
  {
    var d := NatToString(n);
    ExtractSkip("Round ", d);
    LeadingDigitsAll(d);
  }

  lemma {:induction false} LeadingDigitsAll(d: string)
    requires AllDigits(d)
    ensures LeadingDigits(d) == d
  {
    if |d| > 0 { LeadingDigitsAll(d[1..]); }
  }

  // ---------------------------------------------------------------- match ids

  /** `_generate_match_id`: `{comp}-{season}[-rd{round}]-{seq}`, or "" without a competition or season. */
  function GenerateMatchId(comp: string, season: string, roundNum: string, sequence: int): string
  {
    if comp == "" || season == "" then "" else MatchIdPrefix(comp, season, roundNum) + ['-'] + IntToString(sequence)
  }

  /** `{comp}-{season}` with `-rd{round}` when there is a round. */
  function MatchIdPrefix(comp: string, season: string, roundNum: string): string
  {
    comp + "-" + season + (if roundNum != "" then "-rd" + roundNum else "")
  }

  lemma MatchIdEmpty(comp: string, season: string, roundNum: string, sequence: int)
    ensures GenerateMatchId(comp, season, roundNum, sequence) == "" <==> comp == "" || season == ""
  {
  }

  /** The last `-`-separated piece of an id. */
  function LastPiece(id: string): string
  {
    var p := SplitOn(id, '-');
    p[|p| - 1]
  }

  /** The last `-`-separated piece of a non-empty id is the sequence number. */
  lemma MatchIdSequence(comp: string, season: string, roundNum: string, n: nat)
    requires comp != "" && season != ""
    ensures ParseInt(LastPiece(GenerateMatchId(comp, season, roundNum, n))) == Some(n)
  {
    SplitOnLast(MatchIdPrefix(comp, season, roundNum), NatToString(n), '-');
    assert LastPiece(GenerateMatchId(comp, season, roundNum, n)) == NatToString(n);
    ParseIntOfString(n);
  }

  /** Within one group, distinct sequence numbers give distinct ids. */
  lemma MatchIdInjective(comp: string, season: string, roundNum: string, n: nat, m: nat)
    requires comp != "" && season != ""
    requires GenerateMatchId(comp, season, roundNum, n) == GenerateMatchId(comp, season, roundNum, m)
    ensures n == m
  {
    var id := GenerateMatchId(comp, season, roundNum, n);
    MatchIdSequence(comp, season, roundNum, n);
    MatchIdSequence(comp, season, roundNum, m);
    assert Some(n) == ParseInt(LastPiece(id)) == Some(m);
  }

  lemma {:induction false} SplitOnLast(x: string, d: string, c: char)
    requires c !in d
    ensures var p := SplitOn(x + [c] + d, c); p[|p| - 1] == d
    decreases |x|
  {
    var s := x + [c] + d;
    if c in x {
      var i := IndexOf(x, c);
      assert s[..i] == x[..i];
      IndexOfUnique(s, c, i);
      assert s[i + 1..] == x[i + 1..] + [c] + d;
      SplitOnLast(x[i + 1..], d, c);
    } else {
      SplitOnHead(x, d, c);
      SplitOnAbsent(d, c);
    }
  }

  // ------------------------------------------------------- assign_match_ids

  type Key = (string, string, string)

  /** `(competition_id, season, round)` */
  function KeyOf(m: Match): Key { (m.competitionId, m.season, m.round) }

  /** The sort key order `m.get("kickoff_utc", "")`. */
  const KickoffOrder: (Match, Match) -> bool := (a: Match, b: Match) => StrLe(a.kickoffUtc, b.kickoffUtc)

  lemma KickoffOrderTotal()
    ensures TotalPreorder(KickoffOrder)
  {
    forall a: Match, b: Match ensures KickoffOrder(a, b) || KickoffOrder(b, a) { StrLeTotal(a.kickoffUtc, b.kickoffUtc); }
    forall a: Match, b: Match, c: Match | KickoffOrder(a, b) && KickoffOrder(b, c) ensures KickoffOrder(a, c) {
      StrLeTrans(a.kickoffUtc, b.kickoffUtc, c.kickoffUtc);
    }
  }

  /** The members of group `k`, in order. */
  function Group(s: seq<Match>, k: Key): (g: seq<Match>)
    ensures |g| <= |s|
  {
    if |s| == 0 then [] else Group(s[..|s| - 1], k) + (if KeyOf(s[|s| - 1]) == k then [s[|s| - 1]] else [])
  }

  /** The group keys in first-appearance order (dict insertion order). */
  function Keys(s: seq<Match>): (r: seq<Key>)
    ensures Distinct(r)
    ensures forall k :: k in r <==> |Group(s, k)| > 0
  {
    if |s| == 0 then [] else
    var init := Keys(s[..|s| - 1]);
    if KeyOf(s[|s| - 1]) in init then init else init + [KeyOf(s[|s| - 1])]
  }

  /** A group with its members numbered 1, 2, ... in order. */
  function Numbered(g: seq<Match>, k: Key): (r: seq<Match>)
    ensures |r| == |g|
  {
    seq(|g|, i requires 0 <= i < |g| => g[i].(matchId := GenerateMatchId(k.0, k.1, k.2, i + 1)))
  }

  /** The numbered groups concatenated in key order. */
  function Concat(keys: seq<Key>, s: seq<Match>): seq<Match>
  {
    if |keys| == 0 then [] else Numbered(Group(s, keys[0]), keys[0]) + Concat(keys[1..], s)
  }

  /** `assign_match_ids(matches)` */
  function Assigned(matches: seq<Match>): seq<Match>
  {
    if |matches| == 0 then matches else
    var sorted := SortBy(matches, KickoffOrder);
    SortBy(Concat(Keys(sorted), sorted), KickoffOrder)
  }

  /** The group members before position `i` with the same key. */
  function Count(s: seq<Match>, k: Key): nat { |Group(s, k)| }

  /** Reference labelling: the match at position `i` is number (same-key matches before it) + 1. */
  function Labelled(s: seq<Match>): (r: seq<Match>)
    ensures |r| == |s|
  {
    seq(|s|, i requires 0 <= i < |s| =>
      s[i].(matchId := GenerateMatchId(s[i].competitionId, s[i].season, s[i].round, Count(s[..i], KeyOf(s[i])) + 1)))
  }

  lemma GroupAppend(s: seq<Match>, x: Match, k: Key)
    ensures Group(s + [x], k) == Group(s, k) + (if KeyOf(x) == k then [x] else [])
  {
    assert (s + [x])[..|s|] == s;
  }

  lemma NumberedAppend(g: seq<Match>, x: Match, k: Key)
    ensures Numbered(g + [x], k) == Numbered(g, k) + [x.(matchId := GenerateMatchId(k.0, k.1, k.2, |g| + 1))]
  {
  }

  lemma {:induction false} ConcatAppend(keys: seq<Key>, more: seq<Key>, s: seq<Match>)
    ensures Concat(keys + more, s) == Concat(keys, s) + Concat(more, s)
  {
    if |keys| == 0 {
      assert keys + more == more;
    } else {
      assert (keys + more)[1..] == keys[1..] + more;
      ConcatAppend(keys[1..], more, s);
    }
  }

  /** `x` numbered as the next member of its group in `s`. */
  function Next(s: seq<Match>, x: Match): Match
  {
    x.(matchId := GenerateMatchId(x.competitionId, x.season, x.round, Count(s, KeyOf(x)) + 1))
  }

  /** Appending one match adds its numbered copy to the concatenation over distinct keys containing its key. */
  lemma {:induction false} ConcatStep(keys: seq<Key>, s: seq<Match>, x: Match)
    requires Distinct(keys)
    ensures multiset(Concat(keys, s + [x]))
      == multiset(Concat(keys, s)) + (if KeyOf(x) in keys then multiset{Next(s, x)} else multiset{})
  {
    if |keys| > 0 {
      var k := keys[0];
      ConcatStep(keys[1..], s, x);
      var a, b := Numbered(Group(s, k), k), Concat(keys[1..], s);
      var a', b' := Numbered(Group(s + [x], k), k), Concat(keys[1..], s + [x]);
      assert Concat(keys, s + [x]) == a' + b';
      assert Concat(keys, s) == a + b;
      if KeyOf(x) == k {
        NumberedNext(s, x);
        assert k !in keys[1..];
        AppendMultisets(a, b, a', b', multiset{Next(s, x)}, multiset{});
      } else {
        GroupAppend(s, x, k);
        assert a' == a;
        assert KeyOf(x) in keys <==> KeyOf(x) in keys[1..];
        AppendMultisets(a, b, a', b', multiset{}, if KeyOf(x) in keys then multiset{Next(s, x)} else multiset{});
      }
    }
  }

  /** Appending a match to its own group numbers it next. */
  lemma NumberedNext(s: seq<Match>, x: Match)
    ensures Numbered(Group(s + [x], KeyOf(x)), KeyOf(x)) == Numbered(Group(s, KeyOf(x)), KeyOf(x)) + [Next(s, x)]
  {
    GroupAppend(s, x, KeyOf(x));
    NumberedAppend(Group(s, KeyOf(x)), x, KeyOf(x));
  }

  lemma {:induction false} LabelledAppend(s: seq<Match>, x: Match)
    ensures Labelled(s + [x]) == Labelled(s) + [Next(s, x)]
  {
    var t := s + [x];
    forall i | 0 <= i < |s| ensures t[..i] == s[..i] { }
    assert t[..|s|] == s;
  }

  /** The group-by-group numbering holds the same matches as the reference labelling. */
  lemma {:induction false} ConcatIsLabelled(s: seq<Match>)
    ensures multiset(Concat(Keys(s), s)) == multiset(Labelled(s))
  {
    if |s| > 0 {
      var p := s[..|s| - 1];
      var x := s[|s| - 1];
      assert s == p + [x];
      ConcatIsLabelled(p);
      LabelledAppend(p, x);
      ConcatStep(Keys(p), p, x);
      if KeyOf(x) !in Keys(p) {
        NewKeyGroup(p, x);
      }
    }
  }

  /** A match whose key is new opens a group of its own at the end of the concatenation. */
  lemma NewKeyGroup(p: seq<Match>, x: Match)
    requires KeyOf(x) !in Keys(p)
    ensures Concat(Keys(p + [x]), p + [x]) == Concat(Keys(p), p + [x]) + [Next(p, x)]
  {
    var s := p + [x];
    assert s[..|s| - 1] == p;
    assert Keys(s) == Keys(p) + [KeyOf(x)];
    ConcatAppend(Keys(p), [KeyOf(x)], s);
    SingleGroup(p, x);
  }

  lemma SingleGroup(p: seq<Match>, x: Match)
    requires KeyOf(x) !in Keys(p)
    ensures Concat([KeyOf(x)], p + [x]) == [Next(p, x)]
  {
    var k := KeyOf(x);
    NoGroup(p, k);
    GroupAppend(p, x, k);
    assert Group(p + [x], k) == [x];
    ConcatOne(k, p + [x]);
    NumberedOne(x, k);
    NextFirst(p, x);
  }

  lemma NextFirst(p: seq<Match>, x: Match)
    requires Count(p, KeyOf(x)) == 0
    ensures Next(p, x) == x.(matchId := GenerateMatchId(KeyOf(x).0, KeyOf(x).1, KeyOf(x).2, 1))
  {
  }

  lemma NoGroup(p: seq<Match>, k: Key)
    requires k !in Keys(p)
    ensures Group(p, k) == [] && Count(p, k) == 0
  {
  }

  lemma ConcatOne(k: Key, s: seq<Match>)
    ensures Concat([k], s) == Numbered(Group(s, k), k)
  {
    assert [k][1..] == [];
  }

  /** A group of one is numbered 1. */
  lemma NumberedOne(x: Match, k: Key)
    ensures Numbered([x], k) == [x.(matchId := GenerateMatchId(k.0, k.1, k.2, 1))]
  {
  }

  /**
   * `assign_match_ids` returns its input sorted by kickoff_utc, each match
   * carrying the id built from its key and its position among the
   * same-key matches of the kickoff-sorted batch.
   */
  lemma AssignedSpec(matches: seq<Match>)
    ensures var r := Assigned(matches);
      |r| == |matches| && SortedBy(r, KickoffOrder)
      && multiset(r) == multiset(Labelled(SortBy(matches, KickoffOrder)))
  {
    KickoffOrderTotal();
    var sorted := SortBy(matches, KickoffOrder);
    if |matches| > 0 {
      var c := Concat(Keys(sorted), sorted);
      SortBySorted(c, KickoffOrder);
      SortByPerm(c, KickoffOrder);
      ConcatIsLabelled(sorted);
      assert |SortBy(c, KickoffOrder)| == |Labelled(sorted)| by {
        assert |multiset(SortBy(c, KickoffOrder))| == |multiset(Labelled(sorted))|;
      }
    }
  }

  /** The first match `assign_match_ids` returns has the earliest UTC kickoff of the batch. */
  lemma EarliestFirst(matches: seq<Match>)
    requires |matches| > 0
    ensures var r := Assigned(matches);
      |r| == |matches| && forall i :: 0 <= i < |r| ==> StrLe(r[0].kickoffUtc, r[i].kickoffUtc)
  {
    AssignedSpec(matches);
    var r := Assigned(matches);
    forall i | 0 <= i < |r| ensures StrLe(r[0].kickoffUtc, r[i].kickoffUtc) {
      if i > 0 {
        assert KickoffOrder(r[0], r[i]);
      } else {
        StrLeTotal(r[0].kickoffUtc, r[0].kickoffUtc);
      }
    }
  }

  /** The batch that gets numbered is the input sorted by kickoff, with equal kickoffs in input order. */
  lemma NumberingOrder(matches: seq<Match>, x: Match)
    ensures multiset(SortBy(matches, KickoffOrder)) == multiset(matches)
    ensures SortedBy(SortBy(matches, KickoffOrder), KickoffOrder)
    ensures Class(SortBy(matches, KickoffOrder), x, KickoffOrder) == Class(matches, x, KickoffOrder)
  {
    KickoffOrderTotal();
    SortByPerm(matches, KickoffOrder);
    SortBySorted(matches, KickoffOrder);
    SortByStable(matches, x, KickoffOrder);
  }

  lemma {:induction false} CountMonotone(s: seq<Match>, i: nat, j: nat, k: Key)
    requires i <= j <= |s|
    ensures Count(s[..i], k) <= Count(s[..j], k)
    decreases j - i
  {
    if i < j {
      CountMonotone(s, i, j - 1, k);
      GroupAppend(s[..j - 1], s[j - 1], k);
      assert s[..j] == s[..j - 1] + [s[j - 1]];
    }
  }

  /** Within a group the numbers grow strictly in batch order and stay within 1..group size. */
  lemma NumbersWithinGroup(s: seq<Match>, i: nat, j: nat)
    requires i < j < |s| && KeyOf(s[i]) == KeyOf(s[j])
    ensures Count(s[..i], KeyOf(s[i])) < Count(s[..j], KeyOf(s[j]))
    ensures Count(s[..j], KeyOf(s[j])) + 1 <= Count(s, KeyOf(s[j]))
  {
    var k := KeyOf(s[i]);
    GroupAppend(s[..i], s[i], k);
    assert s[..i + 1] == s[..i] + [s[i]];
    CountMonotone(s, i + 1, j, k);
    GroupAppend(s[..j], s[j], k);
    assert s[..j + 1] == s[..j] + [s[j]];
    CountMonotone(s, j + 1, |s|, k);
    assert s[..|s|] == s;
  }

  /** `assign_match_ids`, imperatively: group in first-appearance order, number, sort. */
  method AssignMatchIds(matches: seq<Match>) returns (r: seq<Match>)
    ensures r == Assigned(matches)
  {
    if |matches| == 0 {
      return matches;
    }
    var sorted := SortBy(matches, KickoffOrder);
    var keys, groups := GroupByKey(sorted);
    var result := NumberGroups(keys, groups, sorted);
    r := SortBy(result, KickoffOrder);
  }

  /** `groups` maps exactly the keys of `keys`, each to its group in `s`. */
  ghost predicate GroupsOf(s: seq<Match>, keys: seq<Key>, groups: map<Key, seq<Match>>)
  {
    (forall k :: k in groups <==> k in keys) && forall k :: k in groups ==> groups[k] == Group(s, k)
  }

  lemma KeysSnoc(s: seq<Match>, m: Match)
    ensures Keys(s + [m]) == if KeyOf(m) in Keys(s) then Keys(s) else Keys(s) + [KeyOf(m)]
  {
    SnocPrefix(s, m);
  }

  /** One step of the `defaultdict(list)` loop keeps keys and groups in line with the prefix read so far. */
  lemma GroupByStep(s: seq<Match>, m: Match, keys: seq<Key>, groups: map<Key, seq<Match>>)
    requires keys == Keys(s) && GroupsOf(s, keys, groups)
    ensures var key := KeyOf(m);
      var keys' := if key in groups then keys else keys + [key];
      var g1 := if key in groups then groups else groups[key := []];
      keys' == Keys(s + [m]) && GroupsOf(s + [m], keys', g1[key := g1[key] + [m]])
  {
    KeysSnoc(s, m);
    GroupsStep(s, m, keys, groups);
  }

  lemma GroupsStep(s: seq<Match>, m: Match, keys: seq<Key>, groups: map<Key, seq<Match>>)
    requires keys == Keys(s) && GroupsOf(s, keys, groups)
    ensures var key := KeyOf(m);
      var g1 := if key in groups then groups else groups[key := []];
      GroupsOf(s + [m], if key in groups then keys else keys + [key], g1[key := g1[key] + [m]])
  {
    var key := KeyOf(m);
    var g1 := if key in groups then groups else groups[key := []];
    var g2 := g1[key := g1[key] + [m]];
    forall k | k in g2 ensures g2[k] == Group(s + [m], k) {
      GroupAppend(s, m, k);
    }
  }

  /** The `defaultdict(list)` loop: keys in insertion order and each key's members. */
  method GroupByKey(sorted: seq<Match>) returns (keys: seq<Key>, groups: map<Key, seq<Match>>)
    ensures keys == Keys(sorted)
    ensures forall k :: k in groups <==> k in keys
    ensures forall k :: k in groups ==> groups[k] == Group(sorted, k)
  {
    keys := [];
    groups := map[];
    var i := 0;
    while i < |sorted|
      invariant 0 <= i <= |sorted|
      invariant keys == Keys(sorted[..i]) && GroupsOf(sorted[..i], keys, groups)
    {
      var m := sorted[i];
      var key := KeyOf(m);
      TakeNext(sorted, i);
      GroupByStep(sorted[..i], m, keys, groups);
      if key !in groups {
        keys := keys + [key];
        groups := groups[key := []];
      }
      groups := groups[key := groups[key] + [m]];
      i := i + 1;
    }
    TakeAll(sorted);
  }

  /** Numbering one group: its members in order, numbered from 1, appended to `prefix`. */
  method NumberGroup(prefix: seq<Match>, group: seq<Match>, key: Key) returns (result: seq<Match>)
    ensures result == prefix + Numbered(group, key)
  {
    result := prefix;
    var t := 0;
    while t < |group|
      invariant 0 <= t <= |group|
      invariant result == prefix + Numbered(group, key)[..t]
    {
      assert Numbered(group, key)[..t + 1] == Numbered(group, key)[..t] + [group[t].(matchId := GenerateMatchId(key.0, key.1, key.2, t + 1))];
      result := result + [group[t].(matchId := GenerateMatchId(key.0, key.1, key.2, t + 1))];
      t := t + 1;
    }
    assert Numbered(group, key)[..t] == Numbered(group, key);
  }

  lemma NumberGroupsStep(keys: seq<Key>, sorted: seq<Match>, j: nat)
    requires j < |keys|
    ensures Concat(keys[..j + 1], sorted) == Concat(keys[..j], sorted) + Numbered(Group(sorted, keys[j]), keys[j])
  {
    assert keys[..j + 1] == keys[..j] + [keys[j]];
    ConcatAppend(keys[..j], [keys[j]], sorted);
    assert [keys[j]][1..] == [];
  }

  /** The numbering loop: each group in key order, members numbered from 1. */
  method NumberGroups(keys: seq<Key>, groups: map<Key, seq<Match>>, sorted: seq<Match>) returns (result: seq<Match>)
    requires forall k :: k in keys ==> k in groups && groups[k] == Group(sorted, k)
    ensures result == Concat(keys, sorted)
  {
    result := [];
    var j := 0;
    while j < |keys|
      invariant 0 <= j <= |keys|
      invariant result == Concat(keys[..j], sorted)
    {
      result := NumberGroup(result, groups[keys[j]], keys[j]);
      NumberGroupsStep(keys, sorted, j);
      j := j + 1;
    }
    assert keys[..j] == keys;
  }

  // ---------------------------------------------------------------- timezones

  /**
   * `_parse_timezone_offset`: the offset in minutes east of UTC, for "UTC"
   * in any case, `±H[H]:MM` and the same after a literal "UTC" prefix.
   */
  function ParseTimezoneOffset(value: string): (r: Option<int>)
    ensures r.Some? ==> -1440 < r.value < 1440
  {
    if value == "" then None
    else if Upper(value) == "UTC" then Some(0)
    else ParseSignedOffset(if StartsWith(value, "UTC") then value[3..] else value)
  }

  /**
   * A sign, then hours and minutes split on the one `:` (without exactly one
   * `:` the two characters after the sign are the hours and the minutes are
   * "00"); `timezone(...)` refuses offsets of 24 hours or more.
   */
  function ParseSignedOffset(t: string): (r: Option<int>)
    ensures r.Some? ==> -1440 < r.value < 1440
  {
    if |t| >= 3 && (t[0] == '+' || t[0] == '-') then SignedFields(t[0] == '-', t[1..]) else None
  }

  /** The text after the sign: `hours, minutes = rest.split(":")`, else `rest[:2]` and "00". */
  function SignedFields(negative: bool, rest: string): (r: Option<int>)
    requires |rest| >= 2
    ensures r.Some? ==> -1440 < r.value < 1440
  {
    var parts := SplitOn(rest, ':');
    var hours := if |parts| == 2 then parts[0] else rest[..2];
    var minutes := if |parts| == 2 then parts[1] else "00";
    OffsetOf(negative, ParseInt(hours), ParseInt(minutes))
  }

  /** `timedelta(hours=h, minutes=m) * sign`, kept only strictly inside one day. */
  function OffsetOf(negative: bool, h: Option<int>, m: Option<int>): (r: Option<int>)
    ensures r.Some? ==> -1440 < r.value < 1440
  {
    if h.Some? && m.Some? then
      var total := h.value * 60 + m.value;
      var offset := if negative then -total else total;
      if -1440 < offset < 1440 then Some(offset) else None
    else None
  }

  /** `±HH:MM` */
  function FormatOffset(minutes: int): string
  {
    var a := if minutes < 0 then -minutes else minutes;
    [if minutes < 0 then '-' else '+'] + Pad2(a / 60) + [':'] + Pad2(a % 60)
  }

  lemma ParsePad2(n: nat)
    ensures ParseInt(Pad2(n)) == Some(n)
    ensures ':' !in Pad2(n)
  {
    DigitsOfNat(n);
    var d := NatToString(n);
    if n < 10 {
      var p := "0" + d;
      assert p[..|p| - 1] == "0";
      assert DigitsValue("0") == 0;
      assert AllDigits(p);
      ParseDigits(p);
    } else {
      ParseDigits(d);
    }
  }

  lemma SplitPair(hh: string, mm: string, c: char)
    requires c !in hh && c !in mm
    ensures SplitOn(hh + [c] + mm, c) == [hh, mm]
  {
    SplitOnHead(hh, mm, c);
    SplitOnAbsent(mm, c);
  }

  lemma SignedFieldsPair(negative: bool, hh: string, mm: string)
    requires ':' !in hh && ':' !in mm && |hh| > 0
    ensures SignedFields(negative, hh + [':'] + mm) == OffsetOf(negative, ParseInt(hh), ParseInt(mm))
  {
    SplitPair(hh, mm, ':');
  }

  lemma ParseSignedParts(sc: char, hh: string, mm: string)
    requires sc == '+' || sc == '-'
    requires ':' !in hh && ':' !in mm && |hh| > 0 && |mm| > 0
    ensures ParseSignedOffset([sc] + hh + [':'] + mm) == OffsetOf(sc == '-', ParseInt(hh), ParseInt(mm))
  {
    var rest := hh + [':'] + mm;
    assert [sc] + hh + [':'] + mm == [sc] + rest;
    SignedFieldsPair(sc == '-', hh, mm);
    assert ([sc] + rest)[1..] == rest;
  }

  lemma OffsetOfSome(negative: bool, h: int, m: int)
    requires -1440 < h * 60 + m < 1440
    ensures OffsetOf(negative, Some(h), Some(m)) == Some(if negative then -(h * 60 + m) else h * 60 + m)
  {
  }

  lemma DivMod60(a: nat)
    ensures (a / 60) * 60 + a % 60 == a
  {
  }

  /** `±HH:MM` from an hour and a minute under a day parses back to the signed total. */
  lemma ParseSignedPieces(negative: bool, h: nat, m: nat)
    requires h * 60 + m < 1440
    ensures ParseSignedOffset([if negative then '-' else '+'] + Pad2(h) + [':'] + Pad2(m))
      == Some(if negative then -(h * 60 + m) else h * 60 + m)
  {
    ParsePad2(h);
    ParsePad2(m);
    ParseSignedParts(if negative then '-' else '+', Pad2(h), Pad2(m));
    OffsetOfSome(negative, h, m);
  }

  lemma ParseSignedFormatted(minutes: int)
    requires -1440 < minutes < 1440
    ensures ParseSignedOffset(FormatOffset(minutes)) == Some(minutes)
  {
    var a := if minutes < 0 then -minutes else minutes;
    var h, m := a / 60, a % 60;
    DivMod60(a);
    assert FormatOffset(minutes) == [if minutes < 0 then '-' else '+'] + Pad2(h) + [':'] + Pad2(m);
    ParseSignedPieces(minutes < 0, h, m);
  }

  /** A `±HH:MM` offset under a day, with or without the "UTC" prefix, parses back to itself. */
  lemma ParseFormattedOffset(minutes: int)
    requires -1440 < minutes < 1440
    ensures ParseTimezoneOffset(FormatOffset(minutes)) == Some(minutes)
    ensures ParseTimezoneOffset("UTC" + FormatOffset(minutes)) == Some(minutes)
  {
    var f := FormatOffset(minutes);
    ParseSignedFormatted(minutes);
    assert f[0] == '+' || f[0] == '-';
    ParseSignedBothWays(f, minutes);
  }

  /** A signed offset parses the same with and without the "UTC" prefix. */
  lemma ParseSignedBothWays(f: string, v: int)
    requires |f| > 0 && (f[0] == '+' || f[0] == '-') && ParseSignedOffset(f) == Some(v)
    ensures ParseTimezoneOffset(f) == Some(v) && ParseTimezoneOffset("UTC" + f) == Some(v)
  {
    assert !StartsWith(f, "UTC") by { if |f| >= 3 { assert f[..3][0] == f[0]; } }
    assert Upper(f) != "UTC" by { assert Upper(f)[0] == f[0]; }
    var u := "UTC" + f;
    assert StartsWith(u, "UTC") && u[3..] == f;
    assert Upper(u) != "UTC" by { assert |Upper(u)| == |u| && |u| > 3; }
  }

  /** What the datetime parser made of the kickoff text. */
  datatype Parsed = Unparsed | Naive | Aware(zoneName: string)

  /**
   * The timezone label `_normalize_datetime` returns ("" for None): the hint
   * when there is nothing to localise; for a naive time the hint if it names
   * a zone (`isZone`, abstracting ZoneInfo) or parses as an offset, else "UTC";
   * for an aware time the hint, else the zone's own name.
   */
  function TimezoneLabel(value: string, parsed: Parsed, hint: string, isZone: string -> bool): (tz: string)
    ensures value != "" && parsed.Naive? && (hint == "" || (!isZone(hint) && ParseTimezoneOffset(hint).None?)) ==> tz == "UTC"
    ensures value != "" && parsed.Naive? && hint != "" && (isZone(hint) || ParseTimezoneOffset(hint).Some?) ==> tz == hint
  {
    if value == "" then hint
    else match parsed
      case Unparsed => hint
      case Naive => if hint != "" && (isZone(hint) || ParseTimezoneOffset(hint).Some?) then hint else "UTC"
      case Aware(z) => if hint != "" then hint else z
  }
}
