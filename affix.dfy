/**
 * The anchored regular expressions the name normalisers use, all applied
 * with `re.IGNORECASE`: a leading literal followed by whitespace
 * (`^DHL\s+`) and trailing whitespace-separated literals
 * (`\s+GIO$`, `\s+FOUR\s+R$`, `\s+(A|XV|...)$`).
 */
module Affix {
  import opened Text

  /** Literal comparison under `re.IGNORECASE` (ASCII letters). */
  predicate EqIgnoreCase(a: string, b: string) { Lower(a) == Lower(b) }

  datatype Pattern =
    | Prefix(word: string)          // ^word\s+
    | Suffix(words: seq<string>)    // \s+w1\s+w2 ... \s+wn$

  /**
   * Matches `\s+w1 ... \s+wn$` against the end of `s` and yields the text
   * before the leftmost possible start of the match (the whole leading
   * whitespace run belongs to the match).
   */
  function MatchSuffix(s: string, words: seq<string>): (r: Option<string>)
    ensures r.Some? ==> |r.value| <= |s| && r.value == s[..|r.value|]
    ensures r.Some? && |words| > 0 ==> |r.value| < |s|
    decreases |words|
  {
    if |words| == 0 then Some(s)
    else
      var w := words[|words| - 1];
      if |w| <= |s| && EqIgnoreCase(s[|s| - |w|..], w) then
        var before := s[..|s| - |w|];
        var t := StripRight(before);
        if |t| < |before| then
          var m := MatchSuffix(t, words[..|words| - 1]);
          if m.Some? then assert m.value == s[..|m.value|]; m else None
        else None
      else None
  }

  /** `re.search(p, s, re.IGNORECASE) is not None` */
  predicate Matches(p: Pattern, s: string)
  {
    match p
    case Prefix(w) => |w| < |s| && EqIgnoreCase(s[..|w|], w) && IsSpace(s[|w|])
    case Suffix(ws) => |ws| > 0 && MatchSuffix(s, ws).Some?
  }

  /** `re.sub(p, '', s, flags=re.IGNORECASE)`: these patterns match at most once. */
  function Remove(p: Pattern, s: string): (r: string)
    ensures |r| <= |s|
    ensures Matches(p, s) <==> r != s
    ensures !Matches(p, s) ==> r == s
  {
    if !Matches(p, s) then s
    else match p
      case Prefix(w) => StripLeft(s[|w|..])
      case Suffix(ws) => MatchSuffix(s, ws).value
  }

  /** Applies every pattern in list order to the running result. */
  function RemoveEach(ps: seq<Pattern>, s: string): (r: string)
    ensures |r| <= |s|
    decreases |ps|
  {
    if |ps| == 0 then s else RemoveEach(ps[1..], Remove(ps[0], s))
  }

  lemma {:induction false} RemoveEachUnmatched(ps: seq<Pattern>, s: string)
    requires forall k :: 0 <= k < |ps| ==> !Matches(ps[k], s)
    ensures RemoveEach(ps, s) == s
  {
    if |ps| > 0 {
      RemoveEachUnmatched(ps[1..], s);
    }
  }

  /** The patterns of the form `\s+(w)$`. */
  function Trailing(w: string): Pattern { Suffix([w]) }

  /** `^w\s+` */
  function Leading(w: string): Pattern { Prefix(w) }

  lemma TrailingMatch(s: string, w: string)
    requires |w| > 0
    ensures Matches(Trailing(w), s) <==>
      (|w| < |s| && EqIgnoreCase(s[|s| - |w|..], w) && IsSpace(s[|s| - |w| - 1]))
  {
    if |w| <= |s| {
      var before := s[..|s| - |w|];
      if |before| > 0 {
        assert before[|before| - 1] == s[|s| - |w| - 1];
        if IsSpace(before[|before| - 1]) {
          assert |StripRight(before)| < |before|;
          assert [w][..0] == [];
          if EqIgnoreCase(s[|s| - |w|..], w) {
            assert MatchSuffix(s, [w]) == MatchSuffix(StripRight(before), []);
          }
        } else {
          assert StripRight(before) == before;
        }
      }
    }
  }
}
