/** The regular-expression constructs used by the dangerous-command patterns,
    as a small list of pattern elements with Python's re.search semantics:
    a pattern matches a string when it matches starting at some position. */
module Patterns {
  import opened Text

  datatype Elem =
    | Lit(text: string)   // the literal characters
    | Space               // \s
    | SpaceStar           // \s*
    | LowerStar           // [a-z]*
    | AnyStar             // .*  (any character but a newline)
    | SpaceOrEnd          // (?:\s|$)
    | EnvToken            // (?<!\w)\.env(?!\w)(?!default(\..*)?\.env)(?!\.example)

  type Pattern = seq<Elem>

  /** `$` without MULTILINE: the end of the string, or just before a final
      newline. */
  predicate AtEnd(s: string, i: nat) {
    i == |s| || (i == |s| - 1 && s[i] == '\n')
  }

  predicate NoNewline(s: string) {
    forall k :: 0 <= k < |s| ==> s[k] != '\n'
  }

  /** `(\..*)?\.env` matches at the start of t (no anchor after it). */
  predicate DefaultEnvSuffix(t: string) {
    StartsWith(t, ".env")
    || (exists m :: 1 <= m <= |t| && t[0] == '.' && NoNewline(t[1..m]) && StartsWith(t[m..], ".env"))
  }

  /** `default(\..*)?\.env` matches at the start of t. */
  predicate DefaultEnvAhead(t: string) {
    StartsWith(t, "default") && DefaultEnvSuffix(t[7..])
  }

  /** The `.env` token of the Bash patterns sits at position j of s. */
  predicate EnvAt(s: string, j: nat) {
    && j + 4 <= |s| && s[j..j + 4] == ".env"
    && (j == 0 || !IsWordChar(s[j - 1]))
    && (j + 4 == |s| || !IsWordChar(s[j + 4]))
    && !DefaultEnvAhead(s[j + 4..])
    && !StartsWith(s[j + 4..], ".example")
  }

  /** The elements of p from index k on match s from position i (the match
      may end anywhere). */
  predicate MatchAt(p: Pattern, k: nat, s: string, i: nat)
    requires k <= |p| && i <= |s|
    decreases |p| - k, |s| - i
  {
    if k == |p| then true
    else match p[k]
      case Lit(l) => i + |l| <= |s| && s[i..i + |l|] == l && MatchAt(p, k + 1, s, i + |l|)
      case Space => i < |s| && IsSpace(s[i]) && MatchAt(p, k + 1, s, i + 1)
      case SpaceStar => MatchAt(p, k + 1, s, i) || (i < |s| && IsSpace(s[i]) && MatchAt(p, k, s, i + 1))
      case LowerStar => MatchAt(p, k + 1, s, i) || (i < |s| && IsLower(s[i]) && MatchAt(p, k, s, i + 1))
      case AnyStar => MatchAt(p, k + 1, s, i) || (i < |s| && s[i] != '\n' && MatchAt(p, k, s, i + 1))
      case SpaceOrEnd =>
        (i < |s| && IsSpace(s[i]) && MatchAt(p, k + 1, s, i + 1))
        || (AtEnd(s, i) && MatchAt(p, k + 1, s, i))
      case EnvToken => EnvAt(s, i) && MatchAt(p, k + 1, s, i + 4)
  }

  /** re.search(p, s) succeeds: p matches at some position. */
  predicate Matches(p: Pattern, s: string) {
    exists i: nat :: i <= |s| && MatchAt(p, 0, s, i)
  }

  /** re.search, computed by trying the start positions from `from` on. */
  function SearchFrom(p: Pattern, s: string, from: nat): (b: bool)
    requires from <= |s|
    ensures b ==> exists i: nat :: from <= i <= |s| && MatchAt(p, 0, s, i)
    ensures (exists i: nat :: from <= i <= |s| && MatchAt(p, 0, s, i)) ==> b
    decreases |s| - from
  {
    if MatchAt(p, 0, s, from) then
      assert from <= from <= |s| && MatchAt(p, 0, s, from);
      true
    else if from == |s| then false
    else SearchFrom(p, s, from + 1)
  }

  function Search(p: Pattern, s: string): (b: bool)
    ensures b == Matches(p, s)
  {
    SearchFrom(p, s, 0)
  }

  /** A match of p from k at i goes on with a match of p from the next
      element, or from the same starred element one character later. */
  lemma MatchStep(p: Pattern, k: nat, s: string, i: nat) returns (k2: nat, i2: nat)
    requires k < |p| && i <= |s| && MatchAt(p, k, s, i)
    ensures i <= i2 <= |s| && k2 <= |p| && MatchAt(p, k2, s, i2)
    ensures k2 == k + 1 || (k2 == k && i2 > i)
  {
    match p[k]
    case Lit(m) => k2, i2 := k + 1, i + |m|;
    case Space => k2, i2 := k + 1, i + 1;
    case EnvToken => k2, i2 := k + 1, i + 4;
    case SpaceOrEnd =>
      if i < |s| && IsSpace(s[i]) && MatchAt(p, k + 1, s, i + 1) { k2, i2 := k + 1, i + 1; }
      else { k2, i2 := k + 1, i; }
    case _ =>
      if MatchAt(p, k + 1, s, i) { k2, i2 := k + 1, i; }
      else { k2, i2 := k, i + 1; }
  }

  /** A match of p from k on contains every literal of p at or after k. */
  lemma {:induction false} MatchAtHasLiteral(p: Pattern, k: nat, j: nat, s: string, i: nat)
    requires k <= j < |p| && p[j].Lit? && i <= |s| && MatchAt(p, k, s, i)
    ensures Contains(s, p[j].text)
    decreases |p| - k, |s| - i
  {
    if k == j {
      assert OccursAt(s, p[j].text, i);
    } else {
      var k2, i2 := MatchStep(p, k, s, i);
      MatchAtHasLiteral(p, k2, j, s, i2);
    }
  }

  /** re.search(p, s) can only succeed when s contains every literal of p. */
  lemma MatchesHasLiteral(p: Pattern, j: nat, s: string)
    requires j < |p| && p[j].Lit? && Matches(p, s)
    ensures Contains(s, p[j].text)
  {
    var i: nat :| i <= |s| && MatchAt(p, 0, s, i);
    MatchAtHasLiteral(p, 0, j, s, i);
  }

  /** A pattern that holds the `.env` token at j matches only strings that
      hold that token somewhere. */
  lemma {:induction false} MatchAtHasEnv(p: Pattern, k: nat, j: nat, s: string, i: nat)
    requires k <= j < |p| && p[j] == EnvToken && i <= |s| && MatchAt(p, k, s, i)
    ensures exists e :: i <= e <= |s| && EnvAt(s, e)
    decreases |p| - k, |s| - i
  {
    if k == j {
      assert EnvAt(s, i);
    } else {
      var k2, i2 := MatchStep(p, k, s, i);
      MatchAtHasEnv(p, k2, j, s, i2);
    }
  }

  /** The text one element spells out when every starred element matches
      nothing. */
  function ElemText(e: Elem): string
  {
    match e
    case Lit(l) => l
    case Space => " "
    case _ => []
  }

  /** The text the elements a up to b of a pattern spell out. */
  function Spelled(p: Pattern, a: nat, b: nat): string
    requires a <= b <= |p|
    decreases b - a
  {
    if a == b then [] else ElemText(p[a]) + Spelled(p, a + 1, b)
  }

  /** Elements a up to b are all ones Spelled can render. */
  predicate Spellable(p: Pattern, a: nat, b: nat)
    requires a <= b <= |p|
  {
    forall k :: a <= k < b ==> !p[k].SpaceOrEnd? && !p[k].EnvToken?
  }

  lemma SliceConcat(s: string, i: nat, t: string, w: string)
    requires i + |t| + |w| <= |s| && s[i..i + |t| + |w|] == t + w
    ensures s[i..i + |t|] == t && s[i + |t|..i + |t| + |w|] == w
  {
    assert s[i..i + |t|] == s[i..i + |t| + |w|][..|t|];
    assert s[i + |t|..i + |t| + |w|] == s[i..i + |t| + |w|][|t|..];
  }

  lemma OccursSplit(s: string, t: string, w: string, i: nat)
    requires OccursAt(s, t + w, i)
    ensures OccursAt(s, t, i) && OccursAt(s, w, i + |t|)
  {
    SliceConcat(s, i, t, w);
  }

  /** One element matches its own spelled-out text. */
  lemma ElemMatches(p: Pattern, k: nat, s: string, i: nat, j: nat)
    requires k < |p| && !p[k].SpaceOrEnd? && !p[k].EnvToken?
    requires j == i + |ElemText(p[k])| && OccursAt(s, ElemText(p[k]), i)
    requires j <= |s| && MatchAt(p, k + 1, s, j)
    ensures MatchAt(p, k, s, i)
  {
    if p[k] == Space {
      assert s[i] == s[i..i + 1][0];
    }
  }

  /** A string that holds, at i, the text spelled out by the elements a up
      to b of p, followed at j by a match of the rest of p, matches p from a
      at i. */
  lemma {:induction false} SpelledThen(p: Pattern, a: nat, b: nat, s: string, i: nat, j: nat)
    requires a <= b <= |p| && Spellable(p, a, b)
    requires j == i + |Spelled(p, a, b)| && OccursAt(s, Spelled(p, a, b), i)
    requires j <= |s| && MatchAt(p, b, s, j)
    ensures MatchAt(p, a, s, i)
    decreases b - a
  {
    if a < b {
      SpelledStep(p, a, b, s, i);
      var m := i + |ElemText(p[a])|;
      SpelledThen(p, a + 1, b, s, m, j);
      ElemMatches(p, a, s, i, m);
    }
  }

  /** The spelled-out text of a non-empty range splits into its first
      element's text and the rest. */
  lemma SpelledStep(p: Pattern, a: nat, b: nat, s: string, i: nat)
    requires a < b <= |p| && Spellable(p, a, b) && OccursAt(s, Spelled(p, a, b), i)
    ensures !p[a].SpaceOrEnd? && !p[a].EnvToken? && Spellable(p, a + 1, b)
    ensures |Spelled(p, a, b)| == |ElemText(p[a])| + |Spelled(p, a + 1, b)|
    ensures OccursAt(s, ElemText(p[a]), i)
    ensures OccursAt(s, Spelled(p, a + 1, b), i + |ElemText(p[a])|)
  {
    OccursSplit(s, ElemText(p[a]), Spelled(p, a + 1, b), i);
  }

  /** `[a-z]*` at index k of p can take a whole run of lower-case letters. */
  lemma {:induction false} LowerStarRun(p: Pattern, k: nat, s: string, a: nat, e: nat)
    requires k < |p| && p[k] == LowerStar && a <= e <= |s|
    requires forall t :: a <= t < e ==> IsLower(s[t])
    requires MatchAt(p, k + 1, s, e)
    ensures MatchAt(p, k, s, a)
    decreases e - a
  {
    if a < e {
      LowerStarRun(p, k, s, a + 1, e);
    }
  }

  /** So re.search succeeds on any string containing the whole pattern's
      spelled-out text. */
  lemma SpelledFound(p: Pattern, s: string)
    requires Spellable(p, 0, |p|) && Contains(s, Spelled(p, 0, |p|))
    ensures Matches(p, s)
  {
    var i :| 0 <= i <= |s| - |Spelled(p, 0, |p|)| && OccursAt(s, Spelled(p, 0, |p|), i);
    SpelledThen(p, 0, |p|, s, i, i + |Spelled(p, 0, |p|)|);
  }
}
