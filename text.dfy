/**
 * Python string primitives the scrapers rely on, written out over
 * `seq<char>`: whitespace (the `str.isspace` set, which is also what the
 * `re` module's `\s` and `str.split()` use), ASCII case mapping, `strip`,
 * `split`, `join`, `replace`, `str(int)` and `int(str)`.
 */
module Text {

  datatype Option<T> = None | Some(value: T)

  /** Python's `str.isspace` / regex `\s` for `str` patterns. */
  predicate IsSpace(c: char)
  {
    ('\U{9}' <= c <= '\U{D}') || ('\U{1C}' <= c <= '\U{20}') || c == '\U{85}' || c == '\U{A0}'
    || c == '\U{1680}' || ('\U{2000}' <= c <= '\U{200A}') || c == '\U{2028}' || c == '\U{2029}'
    || c == '\U{202F}' || c == '\U{205F}' || c == '\U{3000}'
  }

  predicate IsDigit(c: char) { '0' <= c <= '9' }
  predicate IsUpperLetter(c: char) { 'A' <= c <= 'Z' }
  predicate IsLowerLetter(c: char) { 'a' <= c <= 'z' }
  predicate IsLetter(c: char) { IsUpperLetter(c) || IsLowerLetter(c) }
  predicate IsAlnum(c: char) { IsLetter(c) || IsDigit(c) }

  /** Regex `\w`: ASCII letters, digits and `_`; non-ASCII non-space characters count as word characters. */
  predicate IsWordChar(c: char) { IsAlnum(c) || c == '_' || (c >= '\U{80}' && !IsSpace(c)) }

  function UpperChar(c: char): char { if IsLowerLetter(c) then (c as int - 32) as char else c }
  function LowerChar(c: char): char { if IsUpperLetter(c) then (c as int + 32) as char else c }

  function Upper(s: string): (r: string)
    ensures |r| == |s|
    ensures forall i :: 0 <= i < |s| ==> r[i] == UpperChar(s[i])
  {
    seq(|s|, i requires 0 <= i < |s| => UpperChar(s[i]))
  }

  function Lower(s: string): (r: string)
    ensures |r| == |s|
    ensures forall i :: 0 <= i < |s| ==> r[i] == LowerChar(s[i])
  {
    seq(|s|, i requires 0 <= i < |s| => LowerChar(s[i]))
  }

  predicate AllSpace(s: string) { forall i :: 0 <= i < |s| ==> IsSpace(s[i]) }

  /** `s.lstrip()` */
  function StripLeft(s: string): (r: string)
    ensures |r| <= |s| && r == s[|s| - |r|..]
    ensures r == [] || !IsSpace(r[0])
    ensures forall i :: 0 <= i < |s| - |r| ==> IsSpace(s[i])
  {
    if |s| > 0 && IsSpace(s[0]) then StripLeft(s[1..]) else s
  }

  /** `s.rstrip()` */
  function StripRight(s: string): (r: string)
    ensures |r| <= |s| && r == s[..|r|]
    ensures r == [] || !IsSpace(r[|r| - 1])
    ensures AllSpace(s[|r|..])
  {
    if |s| > 0 && IsSpace(s[|s| - 1]) then
      var r := StripRight(s[..|s| - 1]);
      assert s[|r|..] == s[..|s| - 1][|r|..] + [s[|s| - 1]];
      r
    else s
  }

  /** `s.strip()`: drops leading and trailing whitespace. */
  function Strip(s: string): (r: string)
    ensures |r| <= |s|
    ensures r == [] || (!IsSpace(r[0]) && !IsSpace(r[|r| - 1]))
  {
    StripRight(StripLeft(s))
  }

  /** No leading or trailing whitespace: what `Strip` leaves. */
  predicate Trimmed(s: string) { s == [] || (!IsSpace(s[0]) && !IsSpace(s[|s| - 1])) }

  lemma StripOfTrimmed(s: string)
    requires s == [] || (!IsSpace(s[0]) && !IsSpace(s[|s| - 1]))
    ensures Strip(s) == s
  {
  }

  lemma StripIdempotent(s: string)
    ensures Strip(Strip(s)) == Strip(s)
  {
    StripOfTrimmed(Strip(s));
  }

  predicate StartsWith(s: string, p: string) { |p| <= |s| && s[..|p|] == p }
  predicate EndsWith(s: string, p: string) { |p| <= |s| && s[|s| - |p|..] == p }

  predicate OccursAt(s: string, i: int, sub: string) { 0 <= i && i + |sub| <= |s| && s[i..i + |sub|] == sub }

  /** `sub in s` */
  predicate Contains(s: string, sub: string) { exists i :: 0 <= i <= |s| && OccursAt(s, i, sub) }

  /** Whatever contains `p + q` contains `q`. */
  lemma ContainsSuffix(s: string, p: string, q: string, pq: string)
    requires pq == p + q && Contains(s, pq)
    ensures Contains(s, q)
  {
    var i :| 0 <= i <= |s| && OccursAt(s, i, pq);
    assert s[i + |p|..i + |pq|] == s[i..i + |pq|][|p|..];
    assert OccursAt(s, i + |p|, q);
  }

  /** `sub in s`, scanned position by position from the left. */
  predicate Occurs(s: string, sub: string)
    decreases |s|
  {
    StartsWith(s, sub) || (|s| > 0 && Occurs(s[1..], sub))
  }

  /** A slice of the tail is the slice one position further on. */
  lemma SliceShift<T>(s: seq<T>, i: nat, n: nat)
    requires i + n < |s|
    ensures s[1..][i..i + n] == s[i + 1..i + 1 + n]
  {
  }

  /** The scan finds `sub` exactly when it occurs somewhere. */
  lemma {:induction false} OccursContains(s: string, sub: string)
    ensures Occurs(s, sub) <==> Contains(s, sub)
    decreases |s|
  {
    if StartsWith(s, sub) {
      assert OccursAt(s, 0, sub);
    } else if |s| > 0 {
      OccursContains(s[1..], sub);
      if Contains(s[1..], sub) {
        var i :| 0 <= i <= |s[1..]| && OccursAt(s[1..], i, sub);
        SliceShift(s, i, |sub|);
        assert OccursAt(s, i + 1, sub);
      }
      if Contains(s, sub) {
        var i :| 0 <= i <= |s| && OccursAt(s, i, sub);
        assert i != 0;
        SliceShift(s, i - 1, |sub|);
        assert OccursAt(s[1..], i - 1, sub);
      }
    } else {
      assert !OccursAt(s, 0, sub);
    }
  }

  /** `s[:n]` for n >= 0. */
  function Take(s: string, n: nat): (r: string)
    ensures |r| == if n < |s| then n else |s|
    ensures r == s[..|r|]
  {
    if n < |s| then s[..n] else s
  }

  /** `sep.join(parts)` */
  function Join(parts: seq<string>, sep: string): string
  {
    if |parts| == 0 then "" else if |parts| == 1 then parts[0] else parts[0] + sep + Join(parts[1..], sep)
  }

  /** `re.sub(r"\s+", " ", s)`: every maximal run of whitespace becomes one space. */
  function CollapseSpaces(s: string): string
    decreases |s|
  {
    if |s| == 0 then ""
    else if IsSpace(s[0]) then [' '] + CollapseSpaces(StripLeft(s))
    else [s[0]] + CollapseSpaces(s[1..])
  }

  /** The only whitespace is `' '`, and no two whitespace characters are adjacent. */
  predicate SingleSpaced(r: string)
  {
    (forall i :: 0 <= i < |r| && IsSpace(r[i]) ==> r[i] == ' ')
    && (forall i :: 0 <= i < |r| - 1 ==> !(IsSpace(r[i]) && IsSpace(r[i + 1])))
  }

  /** The only whitespace left is single spaces, and a leading non-space character stays first. */
  lemma {:induction false} CollapseSpacesSpec(s: string)
    ensures var r := CollapseSpaces(s);
      SingleSpaced(r)
      && (|s| > 0 && !IsSpace(s[0]) ==> |r| > 0 && r[0] == s[0])
    decreases |s|
  {
    if |s| > 0 {
      var t := if IsSpace(s[0]) then StripLeft(s) else s[1..];
      CollapseSpacesSpec(t);
      var rt := CollapseSpaces(t);
      if IsSpace(s[0]) {
        assert |t| > 0 ==> !IsSpace(t[0]) && rt[0] == t[0];
        ConsSingleSpaced(' ', rt);
      } else {
        ConsSingleSpaced(s[0], rt);
      }
    }
  }

  /** Putting one character before a single-spaced string keeps it single-spaced unless it makes two spaces meet. */
  lemma ConsSingleSpaced(c: char, rt: string)
    requires SingleSpaced(rt)
    requires IsSpace(c) ==> c == ' ' && (|rt| > 0 ==> !IsSpace(rt[0]))
    ensures SingleSpaced([c] + rt)
  {
    var r := [c] + rt;
    forall i | 0 <= i < |r| && IsSpace(r[i]) ensures r[i] == ' ' {
      if i > 0 { assert r[i] == rt[i - 1]; }
    }
    forall i | 0 <= i < |r| - 1 ensures !(IsSpace(r[i]) && IsSpace(r[i + 1])) {
      assert r[i + 1] == rt[i];
      if i > 0 { assert r[i] == rt[i - 1]; }
    }
  }

  /** Drops the characters a predicate rejects: `re.sub(r"[^\w\s]", "", s)` and the like. */
  function KeepWordOrSpace(s: string): (r: string)
    ensures |r| <= |s|
    ensures forall i :: 0 <= i < |r| ==> IsWordChar(r[i]) || IsSpace(r[i])
    ensures forall c :: c in s && (IsWordChar(c) || IsSpace(c)) ==> c in r
  {
    if |s| == 0 then "" else
    var tail := KeepWordOrSpace(s[1..]);
    assert forall c :: c in s ==> c == s[0] || c in s[1..];
    if IsWordChar(s[0]) || IsSpace(s[0]) then [s[0]] + tail else tail
  }

  /** `s.split()`: maximal runs of non-whitespace characters, in order. */
  function Split(s: string): seq<string>
    decreases |s|
  {
    var t := StripLeft(s);
    if |t| == 0 then [] else
    var w := Word(t);
    [w] + Split(t[|w|..])
  }

  /** The leading run of non-whitespace characters of `s`. */
  function Word(s: string): (w: string)
    ensures |w| <= |s| && w == s[..|w|]
    ensures |s| > 0 && !IsSpace(s[0]) ==> |w| > 0
  {
    if |s| == 0 || IsSpace(s[0]) then "" else [s[0]] + Word(s[1..])
  }

  /** `s.split(c)` for a one-character separator: keeps empty pieces. */
  function SplitOn(s: string, c: char): (r: seq<string>)
    ensures |r| >= 1
    ensures forall k :: 0 <= k < |r| ==> c !in r[k]
    decreases |s|
  {
    if c in s then
      var i := IndexOf(s, c);
      [s[..i]] + SplitOn(s[i + 1..], c)
    else [s]
  }

  /** Position of the first `c` in `s` (the caller knows there is one). */
  function IndexOf(s: string, c: char): (i: nat)
    requires c in s
    ensures i < |s| && s[i] == c && c !in s[..i]
  {
    if s[0] == c then 0 else
    assert c in s[1..] by { assert forall x :: x in s ==> x == s[0] || x in s[1..]; }
    var j := IndexOf(s[1..], c);
    assert s[..j + 1] == [s[0]] + s[1..][..j];
    j + 1
  }

  lemma SplitOnAbsent(s: string, c: char)
    requires c !in s
    ensures SplitOn(s, c) == [s]
  {
  }

  /** The first occurrence is the only position holding `c` with no `c` before it. */
  lemma {:induction false} IndexOfUnique(s: string, c: char, j: nat)
    requires j < |s| && s[j] == c && c !in s[..j]
    ensures IndexOf(s, c) == j
  {
    if j > 0 {
      assert s[0] == s[..j][0];
      assert s[1..][j - 1] == c;
      assert s[1..][..j - 1] == s[..j][1..];
      IndexOfUnique(s[1..], c, j - 1);
    }
  }

  lemma SplitOnHead(a: string, b: string, c: char)
    requires c !in a
    ensures SplitOn(a + [c] + b, c) == [a] + SplitOn(b, c)
  {
    var s := a + [c] + b;
    assert s[|a|] == c;
    assert s[..|a|] == a;
    IndexOfUnique(s, c, |a|);
    assert s[|a| + 1..] == b;
  }

  /** `s.replace(pat, "")`, scanning left to right over non-overlapping occurrences. */
  function RemoveAll(s: string, pat: string): (r: string)
    requires |pat| > 0
    ensures |r| <= |s|
    decreases |s|
  {
    if |s| < |pat| then s
    else if s[..|pat|] == pat then RemoveAll(s[|pat|..], pat)
    else [s[0]] + RemoveAll(s[1..], pat)
  }

  lemma RemoveAllAbsent(s: string, pat: string)
    requires |pat| > 0 && !Contains(s, pat)
    ensures RemoveAll(s, pat) == s
    decreases |s|
  {
    if |s| >= |pat| {
      assert !OccursAt(s, 0, pat);
      forall i | 0 <= i <= |s[1..]| ensures !OccursAt(s[1..], i, pat) {
        if OccursAt(s[1..], i, pat) {
          assert s[1..][i..i + |pat|] == s[i + 1..i + 1 + |pat|];
          assert OccursAt(s, i + 1, pat);
        }
      }
      RemoveAllAbsent(s[1..], pat);
    }
  }

  /** `s.split(sep)` for a non-empty separator: pieces between leftmost non-overlapping occurrences, empty ones kept. */
  function SplitSep(s: string, sep: string): (r: seq<string>)
    requires |sep| > 0
    ensures |r| >= 1
    decreases |s|
  {
    if |s| < |sep| then [s]
    else if s[..|sep|] == sep then [""] + SplitSep(s[|sep|..], sep)
    else
      var rest := SplitSep(s[1..], sep);
      [[s[0]] + rest[0]] + rest[1..]
  }

  /** Without the separator's first or second character, `s` is one piece. */
  lemma {:induction false} SplitSepAbsent(s: string, sep: string)
    requires |sep| >= 2 && (sep[0] !in s || sep[1] !in s)
    ensures SplitSep(s, sep) == [s]
    decreases |s|
  {
    if |s| >= |sep| {
      assert s[..|sep|][0] == s[0] && s[..|sep|][1] == s[1];
      assert s == [s[0]] + s[1..];
      SplitSepAbsent(s[1..], sep);
    }
  }

  /** A piece without the separator's second character, then the separator: the first piece is that prefix. */
  lemma {:induction false} SplitSepHead(a: string, b: string, sep: string)
    requires |sep| >= 2 && sep[1] !in a && sep[0] != sep[1]
    ensures SplitSep(a + sep + b, sep) == [a] + SplitSep(b, sep)
    decreases |a|
  {
    var s := a + sep + b;
    if |a| == 0 {
      assert s == sep + b && s[..|sep|] == sep && s[|sep|..] == b;
    } else {
      assert s[1] == if |a| >= 2 then a[1] else sep[0];
      assert s[..|sep|][1] == s[1];
      assert s[1..] == a[1..] + sep + b;
      SplitSepHead(a[1..], b, sep);
      assert [a[0]] + a[1..] == a;
    }
  }

  function DigitChar(d: nat): char
    requires d < 10
  {
    ('0' as int + d) as char
  }

  /** `str(n)` for n >= 0. */
  function NatToString(n: nat): (r: string)
    ensures |r| > 0 && forall i :: 0 <= i < |r| ==> IsDigit(r[i])
    ensures n > 0 ==> r[0] != '0'
  {
    if n < 10 then [DigitChar(n)] else NatToString(n / 10) + [DigitChar(n % 10)]
  }

  /** `str(i)` */
  function IntToString(i: int): string
  {
    if i < 0 then "-" + NatToString(-i) else NatToString(i)
  }

  /** `f"{n:02}"` for n >= 0. */
  function Pad2(n: nat): (r: string)
    ensures |r| >= 2
  {
    if n < 10 then "0" + NatToString(n) else NatToString(n)
  }

  // -------------------------------------------------------------- calendar

  predicate IsLeap(y: int) { (y % 4 == 0 && y % 100 != 0) || y % 400 == 0 }

  /** The length of month `m` of year `y` in the proleptic Gregorian calendar. */
  function DaysIn(y: int, m: int): (n: int)
    ensures 28 <= n <= 31
  {
    if m == 2 then (if IsLeap(y) then 29 else 28)
    else if m == 4 || m == 6 || m == 9 || m == 11 then 30
    else 31
  }

  predicate AllDigits(s: string) { forall i :: 0 <= i < |s| ==> IsDigit(s[i]) }

  /** The value of a run of decimal digits. */
  function DigitsValue(s: string): nat
    requires AllDigits(s)
  {
    if |s| == 0 then 0 else 10 * DigitsValue(s[..|s| - 1]) + (s[|s| - 1] as int - '0' as int)
  }

  /** Two digits of `n < 100`. */
  function Digits2(n: nat): (r: string)
    requires n < 100
    ensures |r| == 2 && AllDigits(r) && DigitsValue(r) == n
  {
    var r := [DigitChar(n / 10), DigitChar(n % 10)];
    assert r[..1] == [r[0]] && r[..1][..0] == [];
    assert DigitsValue(r[..1]) == n / 10;
    r
  }

  /** Four digits of `n < 10000`. */
  function Digits4(n: nat): (r: string)
    requires n < 10000
    ensures |r| == 4 && AllDigits(r) && DigitsValue(r) == n
  {
    var r := Digits2(n / 100) + Digits2(n % 100);
    DigitsAppend2(Digits2(n / 100), Digits2(n % 100));
    r
  }

  lemma DigitsAppend2(a: string, b: string)
    requires |b| == 2 && AllDigits(a) && AllDigits(b)
    ensures AllDigits(a + b) && DigitsValue(a + b) == 100 * DigitsValue(a) + DigitsValue(b)
  {
    var ab := a + b;
    assert ab[..|ab| - 1][..|ab| - 2] == a;
    assert ab[..|ab| - 1] == a + [b[0]];
    assert b[..1] == [b[0]] && b[..1][..0] == [];
    assert DigitsValue(b[..1]) == b[0] as int - '0' as int;
    assert DigitsValue(b) == 10 * (b[0] as int - '0' as int) + (b[1] as int - '0' as int);
    assert DigitsValue(ab[..|ab| - 1]) == 10 * DigitsValue(a) + (b[0] as int - '0' as int);
  }

  /** `int(s)`: surrounding whitespace, an optional sign, then at least one digit. */
  function ParseInt(s: string): (r: Option<int>)
    ensures r.Some? ==> |Strip(s)| > 0
  {
    ParseTrimmed(Strip(s))
  }

  /** An optional sign followed by at least one digit. */
  function ParseTrimmed(t: string): (r: Option<int>)
    ensures r.Some? ==> |t| > 0
  {
    if |t| > 0 && (t[0] == '+' || t[0] == '-') && |t| > 1 && AllDigits(t[1..]) then
      var v: int := DigitsValue(t[1..]);
      Some(if t[0] == '-' then -v else v)
    else if |t| > 0 && AllDigits(t) then Some(DigitsValue(t))
    else None
  }

  lemma ParseDigits(s: string)
    requires |s| > 0 && AllDigits(s)
    ensures ParseInt(s) == Some(DigitsValue(s))
  {
    assert IsDigit(s[0]) && IsDigit(s[|s| - 1]);
    StripOfTrimmed(s);
    assert ParseTrimmed(s) == Some(DigitsValue(s));
  }

  lemma {:induction false} DigitsOfNat(n: nat)
    ensures AllDigits(NatToString(n)) && DigitsValue(NatToString(n)) == n
  {
    if n >= 10 {
      DigitsOfNat(n / 10);
      var s := NatToString(n);
      assert s[..|s| - 1] == NatToString(n / 10);
    }
  }

  /** `int(str(n)) == n` */
  lemma ParseIntOfString(n: int)
    ensures ParseInt(IntToString(n)) == Some(n)
  {
    var m: nat := if n < 0 then -n else n;
    DigitsOfNat(m);
    if n < 0 {
      ParseNegativeDigits(NatToString(m));
    } else {
      ParseDigits(NatToString(m));
    }
  }

  lemma ParseNegativeDigits(d: string)
    requires |d| > 0 && AllDigits(d)
    ensures ParseInt("-" + d) == Some(-(DigitsValue(d) as int))
  {
    ParseNegativeTrimmed("-" + d, d);
  }

  lemma ParseNegativeTrimmed(t: string, d: string)
    requires |d| > 0 && AllDigits(d) && t == "-" + d
    ensures ParseInt(t) == Some(-(DigitsValue(d) as int))
  {
    assert t[1..] == d;
    assert IsDigit(t[|t| - 1]);
    StripOfTrimmed(t);
  }
}
