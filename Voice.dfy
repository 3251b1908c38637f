/** The voice-input prompt enhancer: it looks for placeholders, ellipses
    and "this file"/"this directory" references in a submitted prompt and,
    when it finds one, answers with instructions for locating the files the
    prompt refers to. Each regular expression of the hook is written out as
    a sequence of matching elements. */
module Voice {
  import opened Text
  import opened Json

  const MinLongPromptLength := 200

  // --------------------------------------------------------------- matching

  /** One element of a pattern. Letters are compared after ASCII case
      folding (every pattern but the two dot patterns is case-insensitive,
      and those hold no letters). */
  datatype Elem =
    | Lit(c: char)        // one character; c is lower-case
    | Spaces              // \s*
    | Boundary            // \b
    | DotRun              // \.{3,}
    | OptDotBoundary      // \.?\b -- only ever the last element of a pattern

  type Pattern = seq<Elem>

  /** \b: a word character on exactly one side of position i. */
  predicate AtBoundary(s: string, i: nat)
    requires i <= |s|
  {
    (i > 0 && IsWordChar(s[i - 1])) != (i < |s| && IsWordChar(s[i]))
  }

  /** The first index at or after i that does not hold a dot. */
  function DotsEnd(s: string, i: nat): (j: nat)
    requires i <= |s|
    ensures i <= j <= |s|
    ensures forall k :: i <= k < j ==> s[k] == '.'
    ensures j == |s| || s[j] != '.'
    decreases |s| - i
  {
    if i == |s| || s[i] != '.' then i else DotsEnd(s, i + 1)
  }

  /** An element that cannot match whitespace or the empty string. */
  predicate SolidElem(e: Elem) {
    (e.Lit? && !IsSpace(e.c)) || e == DotRun
  }

  /** A pattern whose matches start with a non-whitespace character (after
      an optional leading \b). */
  predicate Solid(p: Pattern) {
    || (|p| >= 1 && SolidElem(p[0]))
    || (|p| >= 2 && p[0] == Boundary && SolidElem(p[1]))
  }

  /** The end of the match of p at position i, if p matches there. \s* and
      \.{3,} are taken greedily and \.? is retried without the dot when the
      dot is not followed by a boundary; for the patterns below this is the
      regular expression's backtracking, since \s* is always followed by a
      letter and \.{3,} and \.?\b end their patterns. */
  function MatchAt(p: Pattern, s: string, i: nat): (r: Option<nat>)
    requires i <= |s|
    ensures r.Some? ==> i <= r.value <= |s|
    ensures r.Some? && Solid(p) ==> i < r.value && !IsSpace(s[i])
    decreases |p|
  {
    if p == [] then Some(i)
    else
      var rest := p[1..];
      match p[0]
      case Lit(c) => if i < |s| && LowerChar(s[i]) == c then MatchAt(rest, s, i + 1) else None
      case Spaces => MatchAt(rest, s, SkipSpaces(s, i))
      case Boundary => if AtBoundary(s, i) then MatchAt(rest, s, i) else None
      case DotRun =>
        var j := DotsEnd(s, i);
        if j >= i + 3 then MatchAt(rest, s, j) else None
      case OptDotBoundary =>
        if i < |s| && s[i] == '.' && AtBoundary(s, i + 1) then MatchAt(rest, s, i + 1)
        else if AtBoundary(s, i) then MatchAt(rest, s, i)
        else None
  }

  /** pattern.search: the first position from i on where p matches. */
  function Search(p: Pattern, s: string, i: nat): (r: Option<nat>)
    requires i <= |s|
    ensures r.None? ==> forall j: nat :: i <= j <= |s| ==> MatchAt(p, s, j).None?
    ensures (forall j: nat :: i <= j <= |s| ==> MatchAt(p, s, j).None?) ==> r.None?
    ensures r.Some? ==> i <= r.value <= |s| && MatchAt(p, s, r.value).Some?
                        && forall j: nat :: i <= j < r.value ==> MatchAt(p, s, j).None?
    decreases |s| - i
  {
    if MatchAt(p, s, i).Some? then Some(i)
    else if i == |s| then None
    else Search(p, s, i + 1)
  }

  predicate Found(p: Pattern, s: string) {
    Search(p, s, 0).Some?
  }

  /** len(pattern.findall(s[i:])): matches are taken left to right, each
      scan resuming where the last match ended. */
  function CountFrom(p: Pattern, s: string, i: nat): nat
    requires Solid(p) && i <= |s|
    decreases |s| - i
  {
    match MatchAt(p, s, i)
    case Some(e) => 1 + CountFrom(p, s, e)
    case None => if i == |s| then 0 else CountFrom(p, s, i + 1)
  }

  function Count(p: Pattern, s: string): nat
    requires Solid(p)
  {
    CountFrom(p, s, 0)
  }

  /** pattern.sub("", s[i:]): the same scan, dropping every match. */
  function RemoveFrom(p: Pattern, s: string, i: nat): string
    requires Solid(p) && i <= |s|
    decreases |s| - i
  {
    match MatchAt(p, s, i)
    case Some(e) => RemoveFrom(p, s, e)
    case None => if i == |s| then [] else [s[i]] + RemoveFrom(p, s, i + 1)
  }

  /** findall finds nothing exactly when search finds nothing. */
  lemma {:induction false} CountZeroIffNotFound(p: Pattern, s: string, i: nat)
    requires Solid(p) && i <= |s|
    ensures CountFrom(p, s, i) == 0 <==> Search(p, s, i).None?
    decreases |s| - i
  {
    if MatchAt(p, s, i).None? && i < |s| {
      CountZeroIffNotFound(p, s, i + 1);
    }
  }

  /** sub leaves a text without matches as it is. */
  lemma {:induction false} RemoveNothing(p: Pattern, s: string, i: nat)
    requires Solid(p) && i <= |s|
    requires Search(p, s, i).None?
    ensures RemoveFrom(p, s, i) == s[i..]
    decreases |s| - i
  {
    if i < |s| {
      RemoveNothing(p, s, i + 1);
      assert s[i..] == [s[i]] + s[i + 1..];
    }
  }

  /** Literal characters, one element each. */
  function LitsOf(u: string): (p: Pattern)
    ensures |p| == |u| && forall k :: 0 <= k < |u| ==> p[k] == Lit(u[k])
  {
    seq(|u|, k requires 0 <= k < |u| => Lit(u[k]))
  }

  /** A pattern of literal characters and \s* only: whether it matches
      depends on nothing before its start or after its end. */
  predicate Forward(p: Pattern) {
    forall k :: 0 <= k < |p| ==> p[k].Lit? || p[k] == Spaces
  }

  function ShiftBy(r: Option<nat>, d: nat): Option<nat> {
    if r.Some? then Some(r.value + d) else None
  }

  lemma {:induction false} SkipSpacesShift(a: string, b: string, j: nat)
    requires j <= |b|
    ensures SkipSpaces(a + b, |a| + j) == |a| + SkipSpaces(b, j)
    decreases |b| - j
  {
    if j < |b| && IsSpace(b[j]) {
      SkipSpacesShift(a, b, j + 1);
    }
  }

  lemma ForwardTail(p: Pattern)
    requires Forward(p) && p != []
    ensures Forward(p[1..]) && (p[0].Lit? || p[0] == Spaces)
  {
    assert forall k :: 0 <= k < |p| - 1 ==> p[1..][k] == p[k + 1];
  }

  /** A forward pattern matches in b as it matches in a + b past a. */
  lemma {:induction false} MatchShift(p: Pattern, a: string, b: string, j: nat)
    requires Forward(p) && j <= |b|
    ensures MatchAt(p, a + b, |a| + j) == ShiftBy(MatchAt(p, b, j), |a|)
    decreases |p|
  {
    if p != [] {
      ForwardTail(p);
      var rest := p[1..];
      if p[0].Lit? {
        if j < |b| {
          assert (a + b)[|a| + j] == b[j];
          MatchShift(rest, a, b, j + 1);
        }
      } else {
        SkipSpacesShift(a, b, j);
        MatchShift(rest, a, b, SkipSpaces(b, j));
      }
    }
  }

  /** findall and sub on a + b past a see only b. */
  lemma {:induction false} CountShift(p: Pattern, a: string, b: string, j: nat)
    requires Solid(p) && Forward(p) && j <= |b|
    ensures CountFrom(p, a + b, |a| + j) == CountFrom(p, b, j)
    ensures RemoveFrom(p, a + b, |a| + j) == RemoveFrom(p, b, j)
    decreases |b| - j
  {
    MatchShift(p, a, b, j);
    match MatchAt(p, b, j)
    case Some(e) => CountShift(p, a, b, e);
    case None =>
      if j < |b| {
        CountShift(p, a, b, j + 1);
      }
  }

  /** The character every match of a solid literal-led pattern starts with. */
  predicate LitLed(p: Pattern) {
    |p| > 0 && p[0].Lit?
  }

  /** A stretch holding no lead character of p is kept and holds no match. */
  lemma {:induction false} SkipNoLead(p: Pattern, s: string, i: nat, e: nat)
    requires Solid(p) && LitLed(p) && i <= e <= |s|
    requires forall k :: i <= k < e ==> LowerChar(s[k]) != p[0].c
    ensures CountFrom(p, s, i) == CountFrom(p, s, e)
    ensures RemoveFrom(p, s, i) == s[i..e] + RemoveFrom(p, s, e)
    decreases e - i
  {
    if i < e {
      SkipNoLead(p, s, i + 1, e);
      assert s[i..e] == [s[i]] + s[i + 1..e];
    }
  }


  /** A piece w where p does not match, and whose later characters cannot
      start a match, is kept by sub and adds nothing to findall. */
  lemma SkipPast(p: Pattern, w: string, y: string)
    requires Solid(p) && Forward(p) && LitLed(p) && w != []
    requires MatchAt(p, w + y, 0).None?
    requires forall k :: 1 <= k < |w| ==> LowerChar((w + y)[k]) != p[0].c
    ensures CountFrom(p, w + y, 0) == CountFrom(p, y, 0)
    ensures RemoveFrom(p, w + y, 0) == w + RemoveFrom(p, y, 0)
  {
    var s := w + y;
    SkipNoLead(p, s, 1, |w|);
    CountShift(p, w, y, 0);
    assert |w| + 0 == |w|;
    assert CountFrom(p, s, 0) == CountFrom(p, s, 1);
    assert RemoveFrom(p, s, 0) == [s[0]] + RemoveFrom(p, s, 1);
    assert s[1..|w|] == w[1..] && s[0] == w[0];
    ConcatAssoc([w[0]], w[1..], RemoveFrom(p, y, 0));
    assert [w[0]] + w[1..] == w;
  }


  lemma {:induction false} LitsMatch(u: string, rest: Pattern, s: string, i: nat)
    requires i + |u| <= |s|
    requires forall k :: 0 <= k < |u| ==> LowerChar(s[i + k]) == u[k]
    ensures MatchAt(LitsOf(u) + rest, s, i) == MatchAt(rest, s, i + |u|)
    decreases |u|
  {
    if u != [] {
      assert (LitsOf(u) + rest)[0] == Lit(u[0]);
      assert (LitsOf(u) + rest)[1..] == LitsOf(u[1..]) + rest;
      assert forall k :: 0 <= k < |u| - 1 ==> LowerChar(s[i + 1 + k]) == u[1..][k] by {
        forall k | 0 <= k < |u| - 1 ensures LowerChar(s[i + 1 + k]) == u[1..][k] {
          assert LowerChar(s[i + (k + 1)]) == u[k + 1];
        }
      }
      LitsMatch(u[1..], rest, s, i + 1);
    } else {
      assert LitsOf(u) + rest == rest;
    }
  }

  lemma {:induction false} LitsMismatch(u: string, rest: Pattern, s: string, i: nat, k: nat)
    requires i <= |s| && k < |u|
    requires i + k < |s| ==> LowerChar(s[i + k]) != u[k]
    ensures MatchAt(LitsOf(u) + rest, s, i).None?
    decreases k
  {
    assert (LitsOf(u) + rest)[0] == Lit(u[0]);
    if k > 0 && i < |s| && LowerChar(s[i]) == u[0] {
      assert (LitsOf(u) + rest)[1..] == LitsOf(u[1..]) + rest;
      LitsMismatch(u[1..], rest, s, i + 1, k - 1);
    }
  }

  /** The literal run u at position i. */
  lemma LitsMatchSlice(u: string, rest: Pattern, s: string, i: nat)
    requires i + |u| <= |s| && s[i..i + |u|] == u && IsLowered(u)
    ensures MatchAt(LitsOf(u) + rest, s, i) == MatchAt(rest, s, i + |u|)
  {
    forall k | 0 <= k < |u| ensures LowerChar(s[i + k]) == u[k] {
      assert s[i + k] == s[i..i + |u|][k];
    }
    LitsMatch(u, rest, s, i);
  }

  lemma SkipSpacesOver(s: string, j: nat, n: nat)
    requires j + n < |s| && AllSpace(s[j..j + n]) && !IsSpace(s[j + n])
    ensures SkipSpaces(s, j) == j + n
  {
    assert forall k :: j <= k < j + n ==> s[k] == s[j..j + n][k - j];
  }

  /** \s* takes a run of n whitespace characters. */
  lemma SpacesStep(x: Pattern, s: string, j: nat, n: nat)
    requires j + n < |s| && AllSpace(s[j..j + n]) && !IsSpace(s[j + n])
    ensures MatchAt([Spaces] + x, s, j) == MatchAt(x, s, j + n)
  {
    SkipSpacesOver(s, j, n);
    assert ([Spaces] + x)[0] == Spaces && ([Spaces] + x)[1..] == x;
  }

  lemma RunSlices(u: string, sp: string, v: string, t: string)
    requires v != []
    ensures (u + (sp + (v + t)))[|u|..|u| + |sp|] == sp
    ensures (u + (sp + (v + t)))[|u| + |sp|..|u| + |sp| + |v|] == v
    ensures (u + (sp + (v + t)))[|u| + |sp|] == v[0]
  {
    var s, j := u + (sp + (v + t)), |u| + |sp|;
    assert s[|u|..] == sp + (v + t) && s[j..] == v + t;
  }

  /** Literal characters, \s* and literal characters match their own text. */
  lemma RunMatch(u: string, sp: string, v: string, t: string)
    requires IsLowered(u) && IsLowered(v) && AllSpace(sp) && v != [] && !IsSpace(v[0])
    ensures MatchAt(LitsOf(u) + ([Spaces] + LitsOf(v)), u + (sp + (v + t)), 0) == Some(|u| + |sp| + |v|)
  {
    var s := u + (sp + (v + t));
    RunSlices(u, sp, v, t);
    assert s[0..|u|] == u;
    LitsMatchSlice(u, [Spaces] + LitsOf(v), s, 0);
    SpacesStep(LitsOf(v), s, |u|, |sp|);
    assert LitsOf(v) + [] == LitsOf(v);
    LitsMatchSlice(v, [], s, |u| + |sp|);
  }

  lemma BoundaryLower(s: string, i: nat)
    requires i <= |s|
    ensures AtBoundary(Lower(s), i) == AtBoundary(s, i)
  {
  }

  lemma {:induction false} DotsEndLower(s: string, i: nat)
    requires i <= |s|
    ensures DotsEnd(Lower(s), i) == DotsEnd(s, i)
    decreases |s| - i
  {
    if i < |s| && s[i] == '.' {
      DotsEndLower(s, i + 1);
    }
  }

  lemma LowerCharTwice(c: char)
    ensures LowerChar(LowerChar(c)) == LowerChar(c)
  {
  }

  /** Every pattern matches a text and its lower-cased form alike. */
  lemma {:induction false} MatchLower(p: Pattern, s: string, i: nat)
    requires i <= |s|
    ensures MatchAt(p, Lower(s), i) == MatchAt(p, s, i)
    decreases |p|
  {
    if p != [] {
      var rest := p[1..];
      match p[0]
      case Lit(c) =>
        if i < |s| {
          LowerCharTwice(s[i]);
          MatchLower(rest, s, i + 1);
        }
      case Spaces =>
        SkipSpacesLower(s, i);
        MatchLower(rest, s, SkipSpaces(s, i));
      case Boundary =>
        BoundaryLower(s, i);
        MatchLower(rest, s, i);
      case DotRun =>
        DotsEndLower(s, i);
        MatchLower(rest, s, DotsEnd(s, i));
      case OptDotBoundary =>
        BoundaryLower(s, i);
        if i < |s| {
          BoundaryLower(s, i + 1);
          MatchLower(rest, s, i + 1);
        }
        MatchLower(rest, s, i);
    }
  }

  /** Every pattern is found in a text exactly when it is found in its
      lower-cased form. */
  lemma FoundLower(p: Pattern, s: string)
    ensures Found(p, Lower(s)) == Found(p, s)
  {
    forall j: nat | j <= |s| ensures MatchAt(p, Lower(s), j) == MatchAt(p, s, j) {
      MatchLower(p, s, j);
    }
  }

  /** A solid pattern finds nothing in a text that is all whitespace. */
  lemma BlankNotFound(p: Pattern, s: string)
    requires Solid(p) && AllSpace(s)
    ensures !Found(p, s)
  {
    forall j | 0 <= j <= |s| ensures MatchAt(p, s, j).None? {
      if j < |s| {
        assert IsSpace(s[j]);
      }
    }
  }

  // --------------------------------------------------------------- patterns

  /** The fifteen regular expressions of the hook. */
  datatype PatternName =
    | SquarePlaceholder | AnglePlaceholder | CurlyPlaceholder | ParenPlaceholder | DoubleSquarePlaceholder
    | PlainPlaceholder
    | Dots | EllipsisChar | Etc | AndSoOn | AndSoForth
    | InThisFile | ToThisFile | InThisDirectory | ToThisDirectory

  /** open + place\s*holder + close, the shape of the bracketed forms. */
  function Bracketed(open: string, close: string): (p: Pattern)
    requires open != [] && !IsSpace(open[0])
    ensures Solid(p)
  {
    LitsOf(open + "place") + ([Spaces] + LitsOf("holder" + close))
  }

  /** Each expression as a pattern; all but the two dot patterns are
      compiled case-insensitive. */
  function Elems(n: PatternName): (p: Pattern)
    ensures Solid(p)
  {
    match n
    // \[place\s*holder\], <place\s*holder>, \{place\s*holder\}, \(\(place\s*holder\)\)
    // and \[\[place\s*holder\]\]
    case SquarePlaceholder => Bracketed("[", "]")
    case AnglePlaceholder => Bracketed("<", ">")
    case CurlyPlaceholder => Bracketed("{", "}")
    case ParenPlaceholder => Bracketed("((", "))")
    case DoubleSquarePlaceholder => Bracketed("[[", "]]")
    // \bplace\s*holder\b
    case PlainPlaceholder => [Boundary] + (LitsOf("place") + ([Spaces] + (LitsOf("holder") + [Boundary])))
    // \.{3,}
    case Dots => [DotRun]
    // the ellipsis character
    case EllipsisChar => [Lit('\U{2026}')]
    // \betc\.?\b
    case Etc => [Boundary, Lit('e'), Lit('t'), Lit('c'), OptDotBoundary]
    // \band so on\b
    case AndSoOn => [Boundary, Lit('a'), Lit('n'), Lit('d'), Lit(' '), Lit('s'), Lit('o'), Lit(' '),
          Lit('o'), Lit('n'), Boundary]
    // \band so forth\b
    case AndSoForth => [Boundary, Lit('a'), Lit('n'), Lit('d'), Lit(' '), Lit('s'), Lit('o'), Lit(' '),
          Lit('f'), Lit('o'), Lit('r'), Lit('t'), Lit('h'), Boundary]
    // \bin this file\b
    case InThisFile => [Boundary, Lit('i'), Lit('n'), Lit(' '), Lit('t'), Lit('h'), Lit('i'), Lit('s'),
          Lit(' '), Lit('f'), Lit('i'), Lit('l'), Lit('e'), Boundary]
    // \bto this file\b
    case ToThisFile => [Boundary, Lit('t'), Lit('o'), Lit(' '), Lit('t'), Lit('h'), Lit('i'), Lit('s'),
          Lit(' '), Lit('f'), Lit('i'), Lit('l'), Lit('e'), Boundary]
    // \bin this directory\b
    case InThisDirectory => [Boundary, Lit('i'), Lit('n'), Lit(' '), Lit('t'), Lit('h'), Lit('i'),
          Lit('s'), Lit(' '), Lit('d'), Lit('i'), Lit('r'), Lit('e'), Lit('c'), Lit('t'), Lit('o'),
          Lit('r'), Lit('y'), Boundary]
    // \bto this directory\b
    case ToThisDirectory => [Boundary, Lit('t'), Lit('o'), Lit(' '), Lit('t'), Lit('h'), Lit('i'),
          Lit('s'), Lit(' '), Lit('d'), Lit('i'), Lit('r'), Lit('e'), Lit('c'), Lit('t'), Lit('o'),
          Lit('r'), Lit('y'), Boundary]
  }

  const PlaceholderNames: seq<PatternName> := [SquarePlaceholder, AnglePlaceholder, CurlyPlaceholder,
    ParenPlaceholder, DoubleSquarePlaceholder, PlainPlaceholder]

  /** The bracketed placeholder forms, removed before the plain word is
      counted. */
  const FormattedNames: seq<PatternName> := PlaceholderNames[..5]

  const EllipsisNames: seq<PatternName> := [Dots, EllipsisChar, Etc, AndSoOn, AndSoForth]

  const TriggerNames: seq<PatternName> := [InThisFile, ToThisFile, InThisDirectory, ToThisDirectory]

  /** The order should_enhance_prompt tries them in. */
  const AllNames: seq<PatternName> := PlaceholderNames + EllipsisNames + TriggerNames

  predicate FoundName(n: PatternName, s: string) {
    Found(Elems(n), s)
  }

  function CountName(n: PatternName, s: string): nat {
    Count(Elems(n), s)
  }

  predicate AllSolid(ps: seq<Pattern>) {
    forall k :: 0 <= k < |ps| ==> Solid(ps[k])
  }

  /** The patterns of a list of names. */
  function Pats(ns: seq<PatternName>): (ps: seq<Pattern>)
    ensures |ps| == |ns| && AllSolid(ps)
    ensures forall k :: 0 <= k < |ns| ==> ps[k] == Elems(ns[k])
  {
    seq(|ns|, k requires 0 <= k < |ns| => Elems(ns[k]))
  }

  /** The sum of the findall counts of the patterns ps. */
  function SumCounts(ps: seq<Pattern>, s: string): nat
    requires AllSolid(ps)
  {
    if ps == [] then 0 else SumCounts(ps[..|ps| - 1], s) + Count(ps[|ps| - 1], s)
  }

  /** s after pattern.sub("", ...) with each pattern of ps in turn. */
  function CleanWith(ps: seq<Pattern>, s: string): string
    requires AllSolid(ps)
  {
    if ps == [] then s else RemoveFrom(ps[|ps| - 1], CleanWith(ps[..|ps| - 1], s), 0)
  }

  /** A sum of counts is zero exactly when no pattern is found. */
  lemma {:induction false} SumCountsZero(ps: seq<Pattern>, s: string)
    requires AllSolid(ps)
    ensures SumCounts(ps, s) == 0 <==> forall k :: 0 <= k < |ps| ==> !Found(ps[k], s)
  {
    if ps != [] {
      var init := ps[..|ps| - 1];
      SumCountsZero(init, s);
      CountZeroIffNotFound(ps[|ps| - 1], s, 0);
      assert forall k :: 0 <= k < |init| ==> init[k] == ps[k];
    }
  }

  /** Removing patterns that are not found changes nothing. */
  lemma {:induction false} CleanNothing(ps: seq<Pattern>, s: string)
    requires AllSolid(ps)
    requires forall k :: 0 <= k < |ps| ==> !Found(ps[k], s)
    ensures CleanWith(ps, s) == s
  {
    if ps != [] {
      var init := ps[..|ps| - 1];
      assert forall k :: 0 <= k < |init| ==> init[k] == ps[k];
      CleanNothing(init, s);
      RemoveNothing(ps[|ps| - 1], s, 0);
    }
  }

  /** The sum over a list of names is zero exactly when none is found. */
  lemma SumNamesZero(ns: seq<PatternName>, s: string)
    ensures SumCounts(Pats(ns), s) == 0 <==> forall k :: 0 <= k < |ns| ==> !FoundName(ns[k], s)
  {
    SumCountsZero(Pats(ns), s);
  }

  // ------------------------------------------------------- the three checks

  /** count_placeholders: the bracketed forms are counted in the lowered
      prompt; the plain word only in what is left once they are removed. */
  function PlaceholderCount(prompt: string): nat {
    var low := Lower(prompt);
    SumCounts(Pats(FormattedNames), low) + CountName(PlainPlaceholder, CleanWith(Pats(FormattedNames), low))
  }

  /** count_ellipsis. */
  function EllipsisCount(prompt: string): nat {
    SumCounts(Pats(EllipsisNames), prompt)
  }

  /** The number of file and directory references. */
  function TriggerCount(prompt: string): nat {
    SumCounts(Pats(TriggerNames), prompt)
  }

  /** should_enhance_prompt: some pattern of the three lists is found. */
  predicate ShouldEnhance(prompt: string) {
    exists k :: 0 <= k < |AllNames| && FoundName(AllNames[k], prompt)
  }

  /** Some placeholder is counted exactly when some placeholder pattern is
      found in the prompt: removing the bracketed forms first never hides
      the plain word unless a bracketed form was already counted. */
  lemma PlaceholderCountPositive(prompt: string)
    ensures PlaceholderCount(prompt) > 0 <==>
              exists k :: 0 <= k < |PlaceholderNames| && FoundName(PlaceholderNames[k], prompt)
  {
    FoundNamesLower(PlaceholderNames, prompt);
    CountedIffFound(Lower(prompt));
  }

  lemma FoundNamesLower(ns: seq<PatternName>, s: string)
    ensures forall k :: 0 <= k < |ns| ==> FoundName(ns[k], Lower(s)) == FoundName(ns[k], s)
  {
    forall k | 0 <= k < |ns| ensures FoundName(ns[k], Lower(s)) == FoundName(ns[k], s) {
      FoundLower(Elems(ns[k]), s);
    }
  }

  /** The two sums of count_placeholders on a lowered prompt. */
  lemma CountedIffFound(low: string)
    ensures SumCounts(Pats(FormattedNames), low) + CountName(PlainPlaceholder, CleanWith(Pats(FormattedNames), low)) > 0
            <==> exists k :: 0 <= k < |PlaceholderNames| && FoundName(PlaceholderNames[k], low)
  {
    assert forall k :: 0 <= k < 5 ==> FormattedNames[k] == PlaceholderNames[k];
    assert PlaceholderNames[5] == PlainPlaceholder;
    SumNamesZero(FormattedNames, low);
    var cleaned := CleanWith(Pats(FormattedNames), low);
    CountZeroIffNotFound(Elems(PlainPlaceholder), cleaned, 0);
    if forall k :: 0 <= k < |FormattedNames| ==> !FoundName(FormattedNames[k], low) {
      CleanNothing(Pats(FormattedNames), low);
    }
  }

  lemma AllNamesParts(k: int)
    requires 0 <= k < |AllNames|
    ensures k < 6 ==> AllNames[k] == PlaceholderNames[k]
    ensures 6 <= k < 11 ==> AllNames[k] == EllipsisNames[k - 6]
    ensures 11 <= k ==> AllNames[k] == TriggerNames[k - 11]
  {
  }

  /** should_enhance_prompt holds exactly when one of the three counts is
      positive. */
  lemma ShouldEnhanceIff(prompt: string)
    ensures ShouldEnhance(prompt) <==> PlaceholderCount(prompt) > 0 || EllipsisCount(prompt) > 0 || TriggerCount(prompt) > 0
  {
    PlaceholderCountPositive(prompt);
    SumNamesZero(EllipsisNames, prompt);
    SumNamesZero(TriggerNames, prompt);
    if ShouldEnhance(prompt) {
      var k :| 0 <= k < |AllNames| && FoundName(AllNames[k], prompt);
      AllNamesParts(k);
      if k < 6 {
      } else if k < 11 {
        assert FoundName(EllipsisNames[k - 6], prompt);
      } else {
        assert FoundName(TriggerNames[k - 11], prompt);
      }
    }
    if EllipsisCount(prompt) > 0 {
      var k :| 0 <= k < |EllipsisNames| && FoundName(EllipsisNames[k], prompt);
      AllNamesParts(k + 6);
    }
    if TriggerCount(prompt) > 0 {
      var k :| 0 <= k < |TriggerNames| && FoundName(TriggerNames[k], prompt);
      AllNamesParts(k + 11);
    }
    if PlaceholderCount(prompt) > 0 {
      var k :| 0 <= k < |PlaceholderNames| && FoundName(PlaceholderNames[k], prompt);
      AllNamesParts(k);
    }
  }

  /** The empty prompt and prompts of whitespace only are never enhanced. */
  lemma BlankNotEnhanced(prompt: string)
    requires AllSpace(prompt)
    ensures !ShouldEnhance(prompt)
  {
    forall k | 0 <= k < |AllNames| ensures !FoundName(AllNames[k], prompt) {
      BlankNotFound(Elems(AllNames[k]), prompt);
    }
  }

  /** should_enhance_prompt as written: the patterns are tried in order and
      the first one found decides. */
  method ShouldEnhancePrompt(prompt: string) returns (r: bool)
    ensures r == ShouldEnhance(prompt)
  {
    var all := AllNames;
    for k := 0 to |all|
      invariant forall k' :: 0 <= k' < k ==> !FoundName(all[k'], prompt)
    {
      var at := Search(Elems(all[k]), prompt, 0);
      if at.Some? {
        return true;
      }
    }
    return false;
  }

  /** A total of findall counts, as the counting loops of the hook add
      them up. */
  method SumOfCounts(ps: seq<Pattern>, s: string) returns (total: nat)
    requires AllSolid(ps)
    ensures total == SumCounts(ps, s)
  {
    total := 0;
    for k := 0 to |ps|
      invariant total == SumCounts(ps[..k], s)
    {
      assert ps[..k + 1][..k] == ps[..k];
      total := total + Count(ps[k], s);
    }
    assert ps[..|ps|] == ps;
  }

  /** count_placeholders as written: one loop removing the bracketed forms,
      one counting them, then the plain word in the cleaned text. */
  method CountPlaceholders(prompt: string) returns (total: nat)
    ensures total == PlaceholderCount(prompt)
  {
    var low := Lower(prompt);
    var formatted := Pats(FormattedNames);
    var cleaned := low;
    for k := 0 to |formatted|
      invariant cleaned == CleanWith(formatted[..k], low)
    {
      assert formatted[..k + 1][..k] == formatted[..k];
      cleaned := RemoveFrom(formatted[k], cleaned, 0);
    }
    assert formatted[..|formatted|] == formatted;
    total := SumOfCounts(formatted, low);
    total := total + Count(Elems(PlainPlaceholder), cleaned);
  }

  /** count_ellipsis as written. */
  method CountEllipsis(prompt: string) returns (total: nat)
    ensures total == EllipsisCount(prompt)
  {
    total := SumOfCounts(Pats(EllipsisNames), prompt);
  }

  // ------------------------------------------------------- counting details

  /** Position j starts a maximal run of at least three dots. */
  predicate LongRunAt(s: string, j: nat)
    requires j < |s|
  {
    s[j] == '.' && (j == 0 || s[j - 1] != '.') && DotsEnd(s, j) >= j + 3
  }

  /** The number of maximal runs of three or more dots starting at or after
      i. */
  function LongRunsFrom(s: string, i: nat): nat
    requires i <= |s|
    decreases |s| - i
  {
    if i == |s| then 0 else (if LongRunAt(s, i) then 1 else 0) + LongRunsFrom(s, i + 1)
  }

  /** Inside a run of dots, the run ends where it ends from its start. */
  lemma {:induction false} DotsEndInside(s: string, a: nat, j: nat)
    requires a <= |s| && a <= j <= DotsEnd(s, a)
    ensures DotsEnd(s, j) == DotsEnd(s, a)
    decreases j - a
  {
    if j > a {
      DotsEndInside(s, a + 1, j);
    }
  }

  lemma {:induction false} LongRunsNone(s: string, i: nat, e: nat)
    requires i <= e <= |s|
    requires forall k :: i <= k < e ==> s[k] == '.'
    requires i > 0 && s[i - 1] == '.'
    ensures LongRunsFrom(s, i) == LongRunsFrom(s, e)
    decreases e - i
  {
    if i < e {
      LongRunsNone(s, i + 1, e);
    }
  }

  /** The dot pattern counts each maximal run of three or more dots once;
      shorter runs count nothing. */
  lemma {:induction false} DotCountIsRuns(s: string, i: nat)
    requires i <= |s|
    requires i > 0 && s[i - 1] == '.' ==> DotsEnd(s, i) < i + 3
    ensures CountFrom([DotRun], s, i) == LongRunsFrom(s, i)
    decreases |s| - i
  {
    assert Solid([DotRun]);
    var e := DotsEnd(s, i);
    if i < |s| {
      if e >= i + 3 {
        assert MatchAt([DotRun], s, i) == Some(e);
        assert LongRunAt(s, i);
        LongRunsNone(s, i + 1, e);
        DotCountIsRuns(s, e);
      } else {
        assert MatchAt([DotRun], s, i).None?;
        assert !LongRunAt(s, i);
        if s[i] == '.' {
          DotsEndInside(s, i, i + 1);
        }
        DotCountIsRuns(s, i + 1);
      }
    }
  }

  lemma DotsCountIsRuns(s: string)
    ensures CountName(Dots, s) == LongRunsFrom(s, 0)
  {
    DotCountIsRuns(s, 0);
  }

  /** A match of \betc\.?\b is the whole word etc: no word character
      touches it on either side (the dot, when taken, is followed by one). */
  lemma EtcIsWholeWord(s: string, j: nat)
    requires j <= |s|
    requires MatchAt(Elems(Etc), s, j).Some?
    ensures j + 3 <= |s| && LowerChar(s[j]) == 'e' && LowerChar(s[j + 1]) == 't' && LowerChar(s[j + 2]) == 'c'
    ensures j == 0 || !IsWordChar(s[j - 1])
    ensures j + 3 == |s| || !IsWordChar(s[j + 3])
  {
    var p := Elems(Etc);
    assert p == [Boundary, Lit('e'), Lit('t'), Lit('c'), OptDotBoundary];
    assert p[1..] == [Lit('e'), Lit('t'), Lit('c'), OptDotBoundary];
    assert p[2..] == [Lit('t'), Lit('c'), OptDotBoundary];
    assert p[3..] == [Lit('c'), OptDotBoundary];
    assert p[4..] == [OptDotBoundary];
  }

  /** The letters etc inside a word are not an etc. */
  lemma FetchHasNoEtc()
    ensures CountName(Etc, "fetch") == 0
  {
    var s := "fetch";
    forall j | 0 <= j <= |s| ensures MatchAt(Elems(Etc), s, j).None? {
      if MatchAt(Elems(Etc), s, j).Some? {
        EtcIsWholeWord(s, j);
        assert false;
      }
    }
    CountZeroIffNotFound(Elems(Etc), s, 0);
  }

  /** Two dots are not an ellipsis. */
  lemma ShortDotsNotEllipsis(s: string)
    requires forall j :: 0 <= j < |s| ==> DotsEnd(s, j) < j + 3
    ensures CountName(Dots, s) == 0
  {
    forall j | 0 <= j <= |s| ensures MatchAt([DotRun], s, j).None? {
    }
    CountZeroIffNotFound([DotRun], s, 0);
  }

  // ----------------------------------------------- placeholders counted once

  predicate IsOpening(c: char) { c == '[' || c == '<' || c == '{' || c == '(' }

  predicate NoOpening(s: string) {
    forall k :: 0 <= k < |s| ==> !IsOpening(s[k])
  }

  /** A prefix without opening brackets holds no match of a bracket-led
      pattern, and sub keeps it. */
  lemma PrefixKept(p: Pattern, a: string, b: string)
    requires Solid(p) && Forward(p) && LitLed(p) && IsOpening(p[0].c) && NoOpening(a)
    ensures CountFrom(p, a + b, 0) == CountFrom(p, b, 0)
    ensures RemoveFrom(p, a + b, 0) == a + RemoveFrom(p, b, 0)
  {
    SkipNoLead(p, a + b, 0, |a|);
    CountShift(p, a, b, 0);
    assert (a + b)[0..|a|] == a;
  }

  /** The four bracketed forms this hook counts once. */
  predicate SingleForm(n: PatternName) {
    n == SquarePlaceholder || n == AnglePlaceholder || n == CurlyPlaceholder || n == ParenPlaceholder
  }

  /** The patterns removed before the plain word is counted. */
  predicate Formatted(n: PatternName) {
    SingleForm(n) || n == DoubleSquarePlaceholder
  }

  function Opening(n: PatternName): string {
    match n
    case SquarePlaceholder => "["
    case AnglePlaceholder => "<"
    case CurlyPlaceholder => "{"
    case ParenPlaceholder => "(("
    case DoubleSquarePlaceholder => "[["
    case _ => ""
  }

  function Closing(n: PatternName): string {
    match n
    case SquarePlaceholder => "]"
    case AnglePlaceholder => ">"
    case CurlyPlaceholder => "}"
    case ParenPlaceholder => "))"
    case DoubleSquarePlaceholder => "]]"
    case _ => ""
  }

  /** The lower-case text of the bracketed form n, with the whitespace sp
      between "place" and "holder". */
  function Form(n: PatternName, sp: string): string {
    (Opening(n) + "place") + (sp + ("holder" + Closing(n)))
  }

  lemma FormShape(n: PatternName)
    requires Formatted(n)
    ensures Elems(n) == Bracketed(Opening(n), Closing(n))
    ensures Forward(Elems(n)) && LitLed(Elems(n)) && Elems(n)[0].c == Opening(n)[0]
    ensures IsOpening(Elems(n)[0].c)
  {
    var o, c := Opening(n), Closing(n);
    assert o != [] && !IsSpace(o[0]) && IsOpening(o[0]);
    assert Elems(n) == Bracketed(o, c);
    BracketedShape(o, c);
  }

  lemma BracketedShape(open: string, close: string)
    requires open != [] && !IsSpace(open[0])
    ensures Forward(Bracketed(open, close)) && LitLed(Bracketed(open, close))
    ensures Bracketed(open, close)[0].c == open[0]
  {
    var u := open + "place";
    assert u[0] == open[0];
  }

  lemma Regroup(u: string, sp: string, v: string, y: string)
    ensures (u + (sp + v)) + y == u + (sp + (v + y))
  {
  }

  /** The two literal runs of a bracketed form are lower-case. */
  lemma FormRuns(n: PatternName)
    requires Formatted(n)
    ensures IsLowered(Opening(n) + "place") && IsLowered("holder" + Closing(n))
  {
    assert IsLowered(Opening(n)) && IsLowered(Closing(n));
    LoweredConcat(Opening(n), "place");
    LoweredConcat("holder", Closing(n));
  }

  /** A bracketed pattern matches its own form, whatever follows. */
  lemma FormMatchOwn(n: PatternName, sp: string, y: string)
    requires Formatted(n) && AllSpace(sp)
    ensures MatchAt(Elems(n), Form(n, sp) + y, 0) == Some(|Form(n, sp)|)
  {
    var u, v := Opening(n) + "place", "holder" + Closing(n);
    FormRuns(n);
    FormShape(n);
    RunMatch(u, sp, v, y);
    Regroup(u, sp, v, y);
  }

  /** Past its first character, a single bracketed form holds no opening
      bracket but the second '(' of the parenthesised form. */
  lemma FormBody(n: PatternName, sp: string)
    requires SingleForm(n) && AllSpace(sp)
    ensures forall k :: 1 <= k < |Form(n, sp)| ==>
              !IsOpening(LowerChar(Form(n, sp)[k])) || (k == 1 && n == ParenPlaceholder)
  {
    var body := "place" + (sp + ("holder" + Closing(n)));
    assert NoOpening(body) by {
      assert forall k :: 5 <= k < 5 + |sp| ==> body[k] == sp[k - 5];
      assert forall k :: 5 + |sp| <= k < |body| ==> body[k] == ("holder" + Closing(n))[k - 5 - |sp|];
    }
    assert Form(n, sp) == Opening(n) + body;
    assert forall k :: |Opening(n)| <= k < |Form(n, sp)| ==> Form(n, sp)[k] == body[k - |Opening(n)|];
  }

  /** Another formatted pattern does not match at a single bracketed form,
      nor does its leading bracket occur later in the form. */
  lemma FormMatchOther(m: PatternName, n: PatternName, sp: string, y: string)
    requires Formatted(m) && SingleForm(n) && m != n && AllSpace(sp)
    ensures MatchAt(Elems(m), Form(n, sp) + y, 0).None?
    ensures forall k :: 1 <= k < |Form(n, sp)| ==> LowerChar((Form(n, sp) + y)[k]) != Elems(m)[0].c
  {
    var s := Form(n, sp) + y;
    FormShape(m);
    FormBody(n, sp);
    var u := Opening(m) + "place";
    var k := if Opening(m)[0] != Opening(n)[0] then 0 else 1;
    assert s[0] == Opening(n)[0] && s[1] == (Opening(n) + "place")[1];
    LitsMismatch(u, [Spaces] + LitsOf("holder" + Closing(m)), s, 0, k);
  }

  /** findall counts a single bracketed form once in its own pattern, and
      sub removes it. */
  lemma FormOwnCount(n: PatternName, sp: string, y: string)
    requires SingleForm(n) && AllSpace(sp)
    ensures CountFrom(Elems(n), Form(n, sp) + y, 0) == 1 + CountFrom(Elems(n), y, 0)
    ensures RemoveFrom(Elems(n), Form(n, sp) + y, 0) == RemoveFrom(Elems(n), y, 0)
  {
    var w, p := Form(n, sp), Elems(n);
    FormShape(n);
    CountShift(p, w, y, 0);
    FormMatchOwn(n, sp, y);
  }

  /** Every other formatted pattern counts nothing in a single bracketed
      form and sub keeps it. */
  lemma FormOtherCount(m: PatternName, n: PatternName, sp: string, y: string)
    requires Formatted(m) && SingleForm(n) && m != n && AllSpace(sp)
    ensures CountFrom(Elems(m), Form(n, sp) + y, 0) == CountFrom(Elems(m), y, 0)
    ensures RemoveFrom(Elems(m), Form(n, sp) + y, 0) == Form(n, sp) + RemoveFrom(Elems(m), y, 0)
  {
    FormShape(m);
    FormMatchOther(m, n, sp, y);
    SkipPast(Elems(m), Form(n, sp), y);
  }

  lemma PatsInit(ns: seq<PatternName>)
    requires ns != []
    ensures Pats(ns[..|ns| - 1]) == Pats(ns)[..|ns| - 1]
  {
  }

  /** Removing formatted patterns in turn keeps a prefix x without opening
      brackets. */
  lemma {:induction false} CleanFree(ns: seq<PatternName>, x: string, y: string)
    requires forall k :: 0 <= k < |ns| ==> Formatted(ns[k])
    requires NoOpening(x)
    ensures CleanWith(Pats(ns), x + y) == x + CleanWith(Pats(ns), y)
  {
    if ns != [] {
      var init := ns[..|ns| - 1];
      PatsInit(ns);
      CleanFree(init, x, y);
      FormShape(ns[|ns| - 1]);
      PrefixKept(Elems(ns[|ns| - 1]), x, CleanWith(Pats(init), y));
    }
  }

  /** One formatted pattern removed from x + form + c, or from x + c once
      the form is gone. */
  lemma CleanFormStep(m: PatternName, x: string, n: PatternName, sp: string, c: string, gone: bool)
    requires Formatted(m) && SingleForm(n) && AllSpace(sp) && NoOpening(x)
    ensures RemoveFrom(Elems(m), x + ((if gone then [] else Form(n, sp)) + c), 0)
              == x + ((if gone || m == n then [] else Form(n, sp)) + RemoveFrom(Elems(m), c, 0))
  {
    FormShape(m);
    if gone {
      assert [] + c == c;
      PrefixKept(Elems(m), x, c);
    } else {
      PrefixKept(Elems(m), x, Form(n, sp) + c);
      if m == n {
        FormOwnCount(n, sp, c);
      } else {
        FormOtherCount(m, n, sp, c);
      }
    }
    assert [] + RemoveFrom(Elems(m), c, 0) == RemoveFrom(Elems(m), c, 0);
  }

  /** Removing formatted patterns in turn from x + form + y, where x holds
      no opening bracket: x is kept, the form goes once its own pattern has
      run, and y is cleaned as it would be alone. */
  lemma {:induction false} CleanForms(ns: seq<PatternName>, x: string, n: PatternName, sp: string, y: string)
    requires forall k :: 0 <= k < |ns| ==> Formatted(ns[k])
    requires SingleForm(n) && AllSpace(sp) && NoOpening(x)
    ensures CleanWith(Pats(ns), x + (Form(n, sp) + y))
              == x + ((if n in ns then [] else Form(n, sp)) + CleanWith(Pats(ns), y))
  {
    if ns != [] {
      var init, m := ns[..|ns| - 1], ns[|ns| - 1];
      assert ns == init + [m];
      PatsInit(ns);
      CleanForms(init, x, n, sp, y);
      CleanFormStep(m, x, n, sp, CleanWith(Pats(init), y), n in init);
    }
  }

  /** The formatted patterns find nothing more in x + y than in y when x
      holds no opening bracket. */
  lemma {:induction false} SumFree(ns: seq<PatternName>, x: string, y: string)
    requires forall k :: 0 <= k < |ns| ==> Formatted(ns[k])
    requires NoOpening(x)
    ensures SumCounts(Pats(ns), x + y) == SumCounts(Pats(ns), y)
  {
    if ns != [] {
      PatsInit(ns);
      SumFree(ns[..|ns| - 1], x, y);
      FormShape(ns[|ns| - 1]);
      PrefixKept(Elems(ns[|ns| - 1]), x, y);
    }
  }

  /** The formatted patterns find a single bracketed form once for each
      time its own pattern is among them. */
  lemma {:induction false} SumForms(ns: seq<PatternName>, x: string, n: PatternName, sp: string, y: string)
    requires forall k :: 0 <= k < |ns| ==> Formatted(ns[k])
    requires SingleForm(n) && AllSpace(sp) && NoOpening(x)
    ensures SumCounts(Pats(ns), x + (Form(n, sp) + y)) == multiset(ns)[n] + SumCounts(Pats(ns), y)
  {
    if ns != [] {
      var init, m := ns[..|ns| - 1], ns[|ns| - 1];
      assert ns == init + [m];
      PatsInit(ns);
      SumForms(init, x, n, sp, y);
      FormShape(m);
      PrefixKept(Elems(m), x, Form(n, sp) + y);
      if m == n {
        FormOwnCount(n, sp, y);
      } else {
        FormOtherCount(m, n, sp, y);
      }
    }
  }

  lemma FormattedAll()
    ensures forall k :: 0 <= k < |FormattedNames| ==> Formatted(FormattedNames[k])
    ensures forall n :: SingleForm(n) ==> n in FormattedNames && multiset(FormattedNames)[n] == 1
  {
    assert FormattedNames == [SquarePlaceholder, AnglePlaceholder, CurlyPlaceholder, ParenPlaceholder,
                              DoubleSquarePlaceholder];
  }

  lemma LowerNoOpening(x: string)
    requires NoOpening(x)
    ensures NoOpening(Lower(x))
  {
  }

  lemma LowerJoin(x: string, w: string, y: string)
    ensures Lower(x + w + y) == Lower(x) + (Lower(w) + Lower(y))
    ensures Lower(x + y) == Lower(x) + Lower(y)
  {
    LowerConcat(x, y);
    LowerConcat(w, y);
    LowerConcat(x, w + y);
    assert x + w + y == x + (w + y);
  }

  /** No double counting: a bracketed placeholder, in any letter case and
      with any whitespace between "place" and "holder", adds exactly one
      to count_placeholders, provided no opening bracket comes before it.
      The plain word inside the brackets is not counted again. */
  lemma FormCountedOnce(x: string, w: string, y: string, n: PatternName, sp: string)
    requires SingleForm(n) && AllSpace(sp) && Lower(w) == Form(n, sp) && NoOpening(x)
    ensures PlaceholderCount(x + w + y) == 1 + PlaceholderCount(x + y)
  {
    var lx, ly := Lower(x), Lower(y);
    LowerJoin(x, w, y);
    LowerNoOpening(x);
    FormattedAll();
    SumForms(FormattedNames, lx, n, sp, ly);
    SumFree(FormattedNames, lx, ly);
    CleanForms(FormattedNames, lx, n, sp, ly);
    CleanFree(FormattedNames, lx, ly);
    assert [] + CleanWith(Pats(FormattedNames), ly) == CleanWith(Pats(FormattedNames), ly);
  }

  /** A prompt without opening brackets is counted by the plain word
      alone. */
  lemma OpeningFreeCount(prompt: string)
    requires NoOpening(prompt)
    ensures PlaceholderCount(prompt) == CountName(PlainPlaceholder, Lower(prompt))
  {
    var low := Lower(prompt);
    LowerNoOpening(prompt);
    FormattedAll();
    SumFree(FormattedNames, low, "");
    CleanFree(FormattedNames, low, "");
    forall k | 0 <= k < |FormattedNames| ensures !FoundName(FormattedNames[k], "") {
      BlankNotFound(Elems(FormattedNames[k]), "");
    }
    SumNamesZero(FormattedNames, "");
    CleanNothing(Pats(FormattedNames), "");
    assert low + "" == low;
  }

  /** Positions where no word starts with p hold no match of the plain
      word. */
  lemma {:induction false} PlainSkip(s: string, i: nat, e: nat)
    requires i <= e <= |s|
    requires forall k :: i <= k < e ==> LowerChar(s[k]) != 'p' || !AtBoundary(s, k)
    ensures CountFrom(Elems(PlainPlaceholder), s, i) == CountFrom(Elems(PlainPlaceholder), s, e)
    decreases e - i
  {
    if i < e {
      PlainMiss(s, i);
      PlainSkip(s, i + 1, e);
    }
  }

  /** No plain placeholder starts where no word starts with p. */
  lemma PlainMiss(s: string, i: nat)
    requires i <= |s| && (i == |s| || LowerChar(s[i]) != 'p' || !AtBoundary(s, i))
    ensures MatchAt(Elems(PlainPlaceholder), s, i).None?
  {
    var p := Elems(PlainPlaceholder);
    assert p[0] == Boundary && p[1..][0] == Lit('p');
  }

  /** A text in which no word starts with p holds no plain placeholder. */
  lemma PlainAbsent(s: string)
    requires forall k :: 0 <= k < |s| ==> LowerChar(s[k]) != 'p' || !AtBoundary(s, k)
    ensures CountName(PlainPlaceholder, s) == 0
  {
    PlainSkip(s, 0, |s|);
    assert Elems(PlainPlaceholder)[1..][0] == Lit('p');
  }

  /** \b and a literal run at a word start. */
  lemma WordStart(s: string, i: nat, u: string, x: Pattern)
    requires i + |u| <= |s| && IsLowered(u) && s[i..i + |u|] == u && AtBoundary(s, i)
    ensures MatchAt([Boundary] + (LitsOf(u) + x), s, i) == MatchAt(x, s, i + |u|)
  {
    var p := [Boundary] + (LitsOf(u) + x);
    assert MatchAt(p, s, i) == MatchAt(LitsOf(u) + x, s, i) by {
      assert p[0] == Boundary && p[1..] == LitsOf(u) + x;
    }
    LitsMatchSlice(u, x, s, i);
  }

  /** \s*, a literal run and \b at a word end. */
  lemma WordEnd(s: string, j: nat, n: nat, v: string)
    requires j + n + |v| <= |s| && AllSpace(s[j..j + n])
    requires IsLowered(v) && v != [] && !IsSpace(v[0]) && s[j + n..j + n + |v|] == v
    requires AtBoundary(s, j + n + |v|)
    ensures MatchAt([Spaces] + (LitsOf(v) + [Boundary]), s, j) == Some(j + n + |v|)
  {
    assert s[j + n] == v[0];
    SpacesStep(LitsOf(v) + [Boundary], s, j, n);
    LitsMatchSlice(v, [Boundary], s, j + n);
    assert MatchAt([Boundary], s, j + n + |v|) == Some(j + n + |v|);
  }

  /** \b u \s* v \b matches u, a run of n whitespace characters and v
      standing between word boundaries. */
  lemma WordAt(s: string, i: nat, u: string, n: nat, v: string)
    requires i + |u| + n + |v| <= |s|
    requires IsLowered(u) && s[i..i + |u|] == u
    requires AllSpace(s[i + |u|..i + |u| + n])
    requires IsLowered(v) && v != [] && !IsSpace(v[0]) && s[i + |u| + n..i + |u| + n + |v|] == v
    requires AtBoundary(s, i) && AtBoundary(s, i + |u| + n + |v|)
    ensures MatchAt([Boundary] + (LitsOf(u) + ([Spaces] + (LitsOf(v) + [Boundary]))), s, i)
              == Some(i + |u| + n + |v|)
  {
    WordStart(s, i, u, [Spaces] + (LitsOf(v) + [Boundary]));
    WordEnd(s, i + |u|, n, v);
  }

  /** \bplace\s*holder\b matches the plain word between word boundaries. */
  lemma PlainAt(s: string, i: nat, n: nat)
    requires i + 11 + n <= |s|
    requires s[i..i + 5] == "place" && AllSpace(s[i + 5..i + 5 + n]) && s[i + 5 + n..i + 11 + n] == "holder"
    requires AtBoundary(s, i) && AtBoundary(s, i + 11 + n)
    ensures MatchAt(Elems(PlainPlaceholder), s, i) == Some(i + 11 + n)
  {
    var u, v := "place", "holder";
    assert IsLowered(u) && IsLowered(v) && v[0] == 'h' && |u| == 5 && |v| == 6;
    WordAt(s, i, u, n, v);
  }

  /** An opening-free prompt in which no word starts with p counts no
      placeholder. */
  lemma PlainFree(prompt: string)
    requires NoOpening(prompt)
    requires forall k :: 0 <= k < |prompt| ==> LowerChar(prompt[k]) != 'p' || !AtBoundary(prompt, k)
    ensures PlaceholderCount(prompt) == 0
  {
    var low := Lower(prompt);
    OpeningFreeCount(prompt);
    forall k | 0 <= k < |low| ensures LowerChar(low[k]) != 'p' || !AtBoundary(low, k) {
      BoundaryLower(prompt, k);
    }
    PlainAbsent(low);
  }

  lemma SplitWord(s: string, i: nat)
    requires i + 11 == |s| && s[i..] == "placeholder"
    ensures s[i..i + 5] == "place" && s[i + 5..|s|] == "holder" && s[i] == 'p' && s[|s| - 1] == 'r'
  {
    var u, v := "place", "holder";
    assert "placeholder" == u + v;
    assert s[i..] == s[i..i + 5] + s[i + 5..];
  }

  /** The plain word closing a lowered text, where no earlier word starts
      with p, is found once. */
  lemma PlainTail(s: string, i: nat)
    requires i + 11 == |s| && s[i..] == "placeholder"
    requires i == 0 || !IsWordChar(s[i - 1])
    requires forall k :: 0 <= k < i ==> LowerChar(s[k]) != 'p' || !AtBoundary(s, k)
    ensures CountName(PlainPlaceholder, s) == 1
  {
    SplitWord(s, i);
    PlainSkip(s, 0, i);
    PlainAt(s, i, 0);
    PlainMiss(s, |s|);
  }

  lemma WordNoOpening(w: string)
    requires Lower(w) == "placeholder"
    ensures NoOpening(w)
  {
    forall k | 0 <= k < |w| ensures !IsOpening(w[k]) {
      assert LowerChar(w[k]) == "placeholder"[k];
    }
  }

  lemma BoundaryPrefix(x: string, w: string)
    requires forall k :: 0 <= k < |x| ==> LowerChar(x[k]) != 'p' || !AtBoundary(x, k)
    ensures forall k :: 0 <= k < |x| ==> LowerChar(Lower(x + w)[k]) != 'p' || !AtBoundary(Lower(x + w), k)
  {
    var s := x + w;
    forall k | 0 <= k < |x| ensures LowerChar(Lower(s)[k]) != 'p' || !AtBoundary(Lower(s), k) {
      BoundaryLower(s, k);
      assert AtBoundary(s, k) == AtBoundary(x, k);
    }
  }

  /** The plain word at the end of an opening-free prompt, in any letter
      case, counts once. */
  lemma PlainEnding(x: string, w: string)
    requires NoOpening(x) && Lower(w) == "placeholder"
    requires forall k :: 0 <= k < |x| ==> LowerChar(x[k]) != 'p' || !AtBoundary(x, k)
    requires x == [] || !IsWordChar(x[|x| - 1])
    ensures PlaceholderCount(x + w) == 1
  {
    var s := x + w;
    LowerConcat(x, w);
    assert Lower(s)[|x|..] == Lower(w);
    WordNoOpening(w);
    assert NoOpening(s);
    OpeningFreeCount(s);
    BoundaryPrefix(x, w);
    PlainTail(Lower(s), |x|);
  }

  /** Text with no opening bracket and no word starting with p. */
  predicate Clean(x: string) {
    NoOpening(x) && forall k :: 0 <= k < |x| && LowerChar(x[k]) == 'p' ==> 0 < k && IsWordChar(x[k - 1])
  }

  lemma CleanConcat(a: string, b: string)
    requires Clean(a) && Clean(b)
    ensures Clean(a + b)
  {
    var s := a + b;
    forall k | 0 <= k < |s| && LowerChar(s[k]) == 'p' ensures 0 < k && IsWordChar(s[k - 1]) {
      if k >= |a| {
        assert s[k] == b[k - |a|];
        assert k - |a| > 0 && IsWordChar(b[k - |a| - 1]);
      } else {
        assert s[k] == a[k];
      }
    }
  }

  lemma CleanNoStart(x: string)
    requires Clean(x)
    ensures forall k :: 0 <= k < |x| ==> LowerChar(x[k]) != 'p' || !AtBoundary(x, k)
  {
    forall k | 0 <= k < |x| && LowerChar(x[k]) == 'p' ensures !AtBoundary(x, k) {
      assert IsWordChar(LowerChar(x[k]));
    }
  }

  /** A prompt made of clean text holds no placeholder. */
  lemma CleanCountsNothing(x: string)
    requires Clean(x)
    ensures PlaceholderCount(x) == 0
  {
    CleanNoStart(x);
    PlainFree(x);
  }

  /** One bracketed placeholder between clean texts counts one. */
  lemma OneForm(x: string, f: string, y: string, n: PatternName)
    requires Clean(x) && Clean(y) && SingleForm(n) && Lower(f) == Form(n, "")
    ensures PlaceholderCount(x + f + y) == 1
  {
    FormCountedOnce(x, f, y, n, "");
    CleanConcat(x, y);
    CleanCountsNothing(x + y);
  }

  lemma Regroup5(a: string, b: string, c: string, d: string, e: string)
    ensures a + b + c + d + e == a + b + (c + d + e)
    ensures a + (c + d + e) == (a + c) + d + e
  {
  }

  lemma Regroup6(a: string, b: string, c: string, d: string, e: string, g: string)
    ensures a + b + c + d + e + g == a + b + (c + d + e + g)
    ensures a + (c + d + e + g) == (a + c) + d + (e + g)
    ensures (a + c) + (e + g) == (a + c + e) + g
  {
  }

  /** A bracketed placeholder on its own counts one. */
  lemma FormAlone(f: string, n: PatternName)
    requires SingleForm(n) && Lower(f) == Form(n, "")
    ensures PlaceholderCount(f) == 1
  {
    OneForm("", f, "", n);
    assert "" + f + "" == f;
  }

  /** Two bracketed placeholders among clean texts count two. */
  lemma TwoForms(x1: string, f1: string, x2: string, f2: string, y: string, n1: PatternName, n2: PatternName)
    requires Clean(x1) && Clean(x2) && Clean(y)
    requires SingleForm(n1) && Lower(f1) == Form(n1, "") && SingleForm(n2) && Lower(f2) == Form(n2, "")
    ensures PlaceholderCount(x1 + f1 + x2 + f2 + y) == 2
  {
    Regroup5(x1, f1, x2, f2, y);
    FormCountedOnce(x1, f1, x2 + f2 + y, n1, "");
    CleanConcat(x1, x2);
    OneForm(x1 + x2, f2, y, n2);
  }

  /** The plain word after clean text that ends outside a word counts
      one. */
  lemma OneWord(x: string, w: string)
    requires Clean(x) && (x == [] || !IsWordChar(x[|x| - 1])) && Lower(w) == "placeholder"
    ensures PlaceholderCount(x + w) == 1
  {
    CleanNoStart(x);
    PlainEnding(x, w);
  }

  /** Two bracketed placeholders and a closing plain word count three. */
  lemma TwoFormsAndWord(x1: string, f1: string, x2: string, f2: string, x3: string, w: string, n1: PatternName, n2: PatternName)
    requires Clean(x1) && Clean(x2) && Clean(x3) && x3 != [] && !IsWordChar(x3[|x3| - 1])
    requires SingleForm(n1) && Lower(f1) == Form(n1, "") && SingleForm(n2) && Lower(f2) == Form(n2, "")
    requires Lower(w) == "placeholder"
    ensures PlaceholderCount(x1 + f1 + x2 + f2 + x3 + w) == 3
  {
    Regroup6(x1, f1, x2, f2, x3, w);
    FormCountedOnce(x1, f1, x2 + f2 + x3 + w, n1, "");
    CleanConcat(x1, x2);
    FormCountedOnce(x1 + x2, f2, x3 + w, n2, "");
    CleanConcat(x1 + x2, x3);
    var x := x1 + x2 + x3;
    assert x[|x| - 1] == x3[|x3| - 1];
    OneWord(x, w);
  }

  // ------------------------------------------------------ the instructions

  /** A keyword category: a suggestion reads prefix + keyword + middle +
      directory + " directory". */
  datatype Category = Category(name: string, keywords: seq<string>, directories: seq<string>, prefix: string, middle: string)

  /** keyword_categories, in its insertion order. */
  const Categories: seq<Category> := [
    Category("test", ["test"], ["test", "tests", "__tests__"], "Look for ", " files in the "),
    Category("config", ["config", "setting"], ["config", "configs", "settings"], "Check ", " files in the "),
    Category("component", ["component", "ui", "interface"], ["components", "src"], "Look for ", " in the "),
    Category("service", ["service", "api", "endpoint"], ["services", "app", "apps"], "Check ", " logic in the "),
    Category("utility", ["util", "helper", "common"], ["utils", "lib"], "Look for ", " functions in the "),
    Category("tooling", ["script", "tool"], ["scripts", "tools"], "Check ", " files in the ")]

  /** The suggestions the instructions list, before they are rendered. */
  datatype Suggestion =
    | CategoryHint(category: Category, keyword: string, directory: string)
    | PlaceholderIntro
    | PlaceholderTotal(count: nat)
    | EllipsisTotal(count: nat)
    | EllipsisInfer
    | EllipsisExample

  function SuggestionText(sg: Suggestion): string {
    match sg
    case CategoryHint(c, kw, d) => c.prefix + kw + c.middle + d + " directory"
    case PlaceholderIntro =>
      "Identify all placeholder in the prompt eg. [placeholder], <placeholder>, {placeholder}, ((placeholder)), "
      + "[[placeholder]], etc. Use the related keywords (before/after the placeholder) to search for relevant files."
    case PlaceholderTotal(n) =>
      "There are " + NatToString(n) + " placeholders in the prompt. All must be replaced with relevant file/directory paths."
    case EllipsisTotal(n) =>
      "The prompt contains " + NatToString(n) + " ellipsis pattern(s) ('...', '\U{2026}', 'etc', 'and so on'). "
      + "These indicate incomplete information or examples."
    case EllipsisInfer =>
      "You must infer and fill in the missing/implied information based on context. "
      + "Look for patterns before/after the ellipsis to understand what's being referenced."
    case EllipsisExample =>
      "Example: 'Update files in src/components/... to use new API' \U{2192} Search for ALL files in "
      + "src/components/ directory, not just literal '...' files."
  }

  const BaseInstruction := "**The user prompt requires enhancement before you can proceed. "
    + "Follow the below instructions for prompt enhancement:**\n"

  const GeneralGuidance: seq<string> := [
    "Use the Glob tool to search for files by pattern (e.g., '**/*.ts', '**/*.go', '**/*.py')",
    "Use the Grep tool to search for specific class, function, interface names",
    "Check the project structure first with 'ls' or 'tree' commands if available"]

  const VoiceNote := "\nNote: The prompt may be a long transcripts of user voice input using Speech To Text. "
    + "Identify the main intent and ignore misspellings, out of context or filler words."

  /** The index of the first of keys[from..] that occurs in low, |keys|
      when there is none (matched_keywords[0]). */
  function FirstKeyword(keys: seq<string>, low: string, from: nat): (a: nat)
    requires from <= |keys|
    ensures from <= a <= |keys|
    ensures a < |keys| ==> Contains(low, keys[a])
    ensures forall a' :: from <= a' < a ==> !Contains(low, keys[a'])
    decreases |keys| - from
  {
    if from == |keys| || ContainsText(low, keys[from]) then from else FirstKeyword(keys, low, from + 1)
  }

  /** The index of the first of dirs[from..] the project has, |dirs| when
      there is none (matching_dirs[0]). */
  function FirstDirectory(dirs: seq<string>, common: set<string>, from: nat): (b: nat)
    requires from <= |dirs|
    ensures from <= b <= |dirs|
    ensures b < |dirs| ==> dirs[b] in common
    ensures forall b' :: from <= b' < b ==> dirs[b'] !in common
    decreases |dirs| - from
  {
    if from == |dirs| || dirs[from] in common then from else FirstDirectory(dirs, common, from + 1)
  }

  /** The suggestion a category contributes: none, or one with its first
      matching keyword and first present directory. */
  function HintFor(c: Category, low: string, common: set<string>): seq<Suggestion> {
    var a, b := FirstKeyword(c.keywords, low, 0), FirstDirectory(c.directories, common, 0);
    if a < |c.keywords| && b < |c.directories| then [CategoryHint(c, c.keywords[a], c.directories[b])] else []
  }

  function CategoryHints(cats: seq<Category>, low: string, common: set<string>): seq<Suggestion> {
    if cats == [] then [] else CategoryHints(cats[..|cats| - 1], low, common) + HintFor(cats[|cats| - 1], low, common)
  }

  predicate MentionsPlaceholder(low: string) {
    ContainsText(low, "placeholder") || ContainsText(low, "place holder")
  }

  /** The placeholder and ellipsis lines that follow the category hints. */
  function Extras(mentionsPlaceholder: bool, placeholders: nat, ellipses: nat): (r: seq<Suggestion>)
    ensures forall j :: 0 <= j < |r| ==> !r[j].CategoryHint?
  {
    (if mentionsPlaceholder then [PlaceholderIntro, PlaceholderTotal(placeholders)] else [])
    + (if ellipses > 0 then [EllipsisTotal(ellipses), EllipsisInfer, EllipsisExample] else [])
  }

  /** The suggestions of generate_file_finding_instructions, in order. */
  function Suggestions(prompt: string, common: set<string>): seq<Suggestion> {
    var low := Lower(prompt);
    CategoryHints(Categories, low, common) + Extras(MentionsPlaceholder(low), PlaceholderCount(prompt), EllipsisCount(prompt))
  }

  /** Each line as "- line\n". */
  function Bullets(lines: seq<string>): string {
    if lines == [] then [] else Bullets(lines[..|lines| - 1]) + "- " + lines[|lines| - 1] + "\n"
  }

  function Texts(sgs: seq<Suggestion>): (ts: seq<string>)
    ensures |ts| == |sgs| && forall k :: 0 <= k < |sgs| ==> ts[k] == SuggestionText(sgs[k])
  {
    seq(|sgs|, k requires 0 <= k < |sgs| => SuggestionText(sgs[k]))
  }

  /** The part between the base instruction and the general guidance. */
  function Middle(sgs: seq<Suggestion>): string {
    if sgs != [] then "Based on project structure, consider:\n" + Bullets(Texts(sgs)) + "\nGeneral search strategies:\n"
    else "General search strategies:\n"
  }

  /** The instructions for a list of suggestions; long says the prompt is
      longer than MinLongPromptLength. */
  function Render(sgs: seq<Suggestion>, long: bool): string {
    BaseInstruction + Middle(sgs) + Bullets(GeneralGuidance) + (if long then VoiceNote else "")
  }

  /** generate_file_finding_instructions. */
  function Instructions(prompt: string, common: set<string>): string {
    Render(Suggestions(prompt, common), |prompt| > MinLongPromptLength)
  }

  /** The hints of a list of categories are exactly the hints of its
      members. */
  lemma {:induction false} CategoryHintsMembers(cats: seq<Category>, low: string, common: set<string>, h: Suggestion)
    ensures h in CategoryHints(cats, low, common) <==> exists k :: 0 <= k < |cats| && HintFor(cats[k], low, common) == [h]
  {
    if cats != [] {
      var init := cats[..|cats| - 1];
      CategoryHintsMembers(init, low, common, h);
      assert forall k :: 0 <= k < |init| ==> init[k] == cats[k];
      if h in CategoryHints(cats, low, common) && h !in CategoryHints(init, low, common) {
        assert HintFor(cats[|cats| - 1], low, common) == [h];
      }
    }
  }

  predicate DistinctNames(cats: seq<Category>) {
    forall a, b :: 0 <= a < b < |cats| ==> cats[a].name != cats[b].name
  }

  lemma CategoriesDistinct()
    ensures DistinctNames(Categories)
  {
  }

  /** Among the hints of distinctly named categories followed by other
      lines, category k has a hint exactly when HintFor gives one, and
      every hint for it is that one. */
  lemma {:induction false} HintOfCategory(cats: seq<Category>, low: string, common: set<string>, k: nat, rest: seq<Suggestion>)
    requires k < |cats| && DistinctNames(cats)
    requires forall j :: 0 <= j < |rest| ==> !rest[j].CategoryHint?
    ensures var sgs := CategoryHints(cats, low, common) + rest;
      && ((exists j :: 0 <= j < |sgs| && sgs[j].CategoryHint? && sgs[j].category == cats[k]) <==> HintFor(cats[k], low, common) != [])
      && (forall j :: 0 <= j < |sgs| && sgs[j].CategoryHint? && sgs[j].category == cats[k] ==> HintFor(cats[k], low, common) == [sgs[j]])
  {
    var c := cats[k];
    var hints := CategoryHints(cats, low, common);
    var sgs := hints + rest;
    assert forall j :: |hints| <= j < |sgs| ==> sgs[j] == rest[j - |hints|];
    forall j | 0 <= j < |sgs| && sgs[j].CategoryHint? && sgs[j].category == c
      ensures HintFor(c, low, common) == [sgs[j]]
    {
      assert sgs[j] in hints;
      CategoryHintsMembers(cats, low, common, sgs[j]);
      var k' :| 0 <= k' < |cats| && HintFor(cats[k'], low, common) == [sgs[j]];
      assert cats[k'].name == c.name;
    }
    if HintFor(c, low, common) != [] {
      var h := HintFor(c, low, common)[0];
      CategoryHintsMembers(cats, low, common, h);
      var j :| 0 <= j < |hints| && hints[j] == h;
      assert sgs[j] == h;
    }
  }

  /** A category is suggested exactly when the lowered prompt contains one
      of its keywords and the project has one of its directories; the
      suggestion names the first such keyword and the first such
      directory. */
  lemma CategorySuggestion(prompt: string, common: set<string>, k: nat)
    requires k < |Categories|
    ensures var c, low, sgs := Categories[k], Lower(prompt), Suggestions(prompt, common);
      && ((exists j :: 0 <= j < |sgs| && sgs[j].CategoryHint? && sgs[j].category == c) <==>
            (exists a :: 0 <= a < |c.keywords| && Contains(low, c.keywords[a])) && (exists b :: 0 <= b < |c.directories| && c.directories[b] in common))
      && (forall j :: 0 <= j < |sgs| && sgs[j].CategoryHint? && sgs[j].category == c ==>
            sgs[j] == CategoryHint(c, c.keywords[FirstKeyword(c.keywords, low, 0)],
                                   c.directories[FirstDirectory(c.directories, common, 0)]))
  {
    var low := Lower(prompt);
    CategoriesDistinct();
    HintOfCategory(Categories, low, common, k,
                   Extras(MentionsPlaceholder(low), PlaceholderCount(prompt), EllipsisCount(prompt)));
  }

  /** The category loop contributes only category hints, so the other
      lines are exactly those of Extras. */
  lemma ExtraLines(cats: seq<Category>, low: string, common: set<string>, mentions: bool, p: nat, e: nat)
    ensures var sgs := CategoryHints(cats, low, common) + Extras(mentions, p, e);
      && (PlaceholderIntro in sgs <==> mentions)
      && (forall n :: PlaceholderTotal(n) in sgs ==> n == p && mentions)
      && (EllipsisTotal(e) in sgs <==> e > 0)
      && (EllipsisInfer in sgs <==> e > 0)
      && (forall n :: EllipsisTotal(n) in sgs ==> n == e && n > 0)
  {
    var sgs := CategoryHints(cats, low, common) + Extras(mentions, p, e);
    forall x: Suggestion | !x.CategoryHint?
      ensures x in sgs <==> x in Extras(mentions, p, e)
    {
      CategoryHintsMembers(cats, low, common, x);
    }
  }

  /** The two placeholder lines appear only when the lowered prompt says
      placeholder or place holder, and then report the placeholder count. */
  lemma PlaceholderSuggestions(prompt: string, common: set<string>)
    ensures PlaceholderIntro in Suggestions(prompt, common) <==> MentionsPlaceholder(Lower(prompt))
    ensures forall n :: PlaceholderTotal(n) in Suggestions(prompt, common) ==> n == PlaceholderCount(prompt) && MentionsPlaceholder(Lower(prompt))
  {
    var low := Lower(prompt);
    ExtraLines(Categories, low, common, MentionsPlaceholder(low), PlaceholderCount(prompt), EllipsisCount(prompt));
  }

  /** The three ellipsis lines appear exactly when some ellipsis pattern is
      counted. */
  lemma EllipsisSuggestions(prompt: string, common: set<string>)
    ensures EllipsisTotal(EllipsisCount(prompt)) in Suggestions(prompt, common) <==> EllipsisCount(prompt) > 0
    ensures EllipsisInfer in Suggestions(prompt, common) <==> EllipsisCount(prompt) > 0
    ensures forall n :: EllipsisTotal(n) in Suggestions(prompt, common) ==> n == EllipsisCount(prompt) && n > 0
  {
    var low := Lower(prompt);
    ExtraLines(Categories, low, common, MentionsPlaceholder(low), PlaceholderCount(prompt), EllipsisCount(prompt));
  }

  lemma BulletsEndInNewline(lines: seq<string>)
    requires lines != []
    ensures |Bullets(lines)| > 0 && Bullets(lines)[|Bullets(lines)| - 1] == '\n'
  {
  }

  /** Layout of a text made of a head, a middle, a body ending in a
      newline and an optional note that does not. */
  lemma {:induction false} PartsLayout(base: string, middle: string, body: string, note: string, long: bool)
    requires body != [] && body[|body| - 1] == '\n'
    requires note != [] && note[|note| - 1] != '\n'
    ensures var text := base + middle + body + (if long then note else "");
      && StartsWith(text, base)
      && OccursAt(text, body, |base| + |middle|)
      && (EndsWith(text, note) <==> long)
  {
    var text := base + middle + body + (if long then note else "");
    assert text[..|base|] == base;
    assert text[|base| + |middle|..|base| + |middle| + |body|] == body;
    if long {
      assert text[|text| - |note|..] == note;
    } else {
      assert text[|text| - 1] == '\n';
    }
  }

  /** The instructions start with the base instruction, always hold the
      general guidance, and end with the voice-input note exactly when the
      prompt is longer than 200 characters. */
  lemma InstructionsLayout(prompt: string, common: set<string>)
    ensures StartsWith(Instructions(prompt, common), BaseInstruction)
    ensures OccursAt(Instructions(prompt, common), Bullets(GeneralGuidance),
                     |BaseInstruction| + |Middle(Suggestions(prompt, common))|)
    ensures EndsWith(Instructions(prompt, common), VoiceNote) <==> |prompt| > MinLongPromptLength
  {
    BulletsEndInNewline(GeneralGuidance);
    assert VoiceNote[|VoiceNote| - 1] == '.';
    PartsLayout(BaseInstruction, Middle(Suggestions(prompt, common)), Bullets(GeneralGuidance), VoiceNote,
                |prompt| > MinLongPromptLength);
  }

  /** The category loop of generate_file_finding_instructions. */
  method CollectCategoryHints(cats: seq<Category>, low: string, common: set<string>) returns (hints: seq<Suggestion>)
    ensures hints == CategoryHints(cats, low, common)
  {
    hints := [];
    for i := 0 to |cats|
      invariant hints == CategoryHints(cats[..i], low, common)
    {
      assert cats[..i + 1][..i] == cats[..i];
      var c := cats[i];
      var a := FirstKeyword(c.keywords, low, 0);
      if a < |c.keywords| {
        var b := FirstDirectory(c.directories, common, 0);
        if b < |c.directories| {
          hints := hints + [CategoryHint(c, c.keywords[a], c.directories[b])];
        }
      }
    }
    assert cats[..|cats|] == cats;
  }

  /** The placeholder and ellipsis part of
      generate_file_finding_instructions. */
  method CollectExtras(prompt: string, low: string) returns (extras: seq<Suggestion>)
    requires low == Lower(prompt)
    ensures extras == Extras(MentionsPlaceholder(low), PlaceholderCount(prompt), EllipsisCount(prompt))
  {
    var placeholders: seq<Suggestion> := [];
    if ContainsText(low, "placeholder") || ContainsText(low, "place holder") {
      var n := CountPlaceholders(prompt);
      placeholders := [PlaceholderIntro, PlaceholderTotal(n)];
    }
    var ellipses: seq<Suggestion> := [];
    var e := CountEllipsis(prompt);
    if e > 0 {
      ellipses := [EllipsisTotal(e), EllipsisInfer, EllipsisExample];
    }
    extras := placeholders + ellipses;
  }

  /** The suggestion-collecting half of generate_file_finding_instructions:
      the category hints, then the placeholder and ellipsis lines. */
  method CollectSuggestions(prompt: string, common: set<string>) returns (suggestions: seq<Suggestion>)
    ensures suggestions == Suggestions(prompt, common)
  {
    var low := Lower(prompt);
    var hints := CollectCategoryHints(Categories, low, common);
    var extras := CollectExtras(prompt, low);
    suggestions := hints + extras;
  }

  /** Appends one "- line\n" per line. */
  method AppendBullets(head: string, lines: seq<string>) returns (text: string)
    ensures text == head + Bullets(lines)
  {
    text := head;
    for i := 0 to |lines|
      invariant text == head + Bullets(lines[..i])
    {
      assert lines[..i + 1][..i] == lines[..i];
      text := text + "- " + lines[i] + "\n";
    }
    assert lines[..|lines|] == lines;
  }

  /** The rendering half of generate_file_finding_instructions. */
  method RenderSuggestions(suggestions: seq<Suggestion>, long: bool) returns (instruction: string)
    ensures instruction == Render(suggestions, long)
  {
    var middle;
    if suggestions != [] {
      middle := AppendBullets("Based on project structure, consider:\n", Texts(suggestions));
      middle := middle + "\nGeneral search strategies:\n";
    } else {
      middle := "General search strategies:\n";
    }
    instruction := AppendBullets(BaseInstruction + middle, GeneralGuidance);
    if long {
      instruction := instruction + VoiceNote;
    }
  }

  /** generate_file_finding_instructions. */
  method GenerateFileFindingInstructions(prompt: string, common: set<string>) returns (instruction: string)
    ensures instruction == Instructions(prompt, common)
  {
    var suggestions := CollectSuggestions(prompt, common);
    instruction := RenderSuggestions(suggestions, |prompt| > MinLongPromptLength);
  }

  // ------------------------------------------------------------------- main

  /** What the hook does: exit 1 on bad input, exit 0 silently when the
      prompt needs nothing, or print the additional context. */
  datatype Outcome = Rejected | PassThrough | Enhanced(output: Json)

  /** The JSON the hook prints around the instructions. */
  function ContextOutput(instructions: string): Json {
    JObject(map["hookSpecificOutput" := JObject(map[
      "hookEventName" := JString("UserPromptSubmit"),
      "additionalContext" := JString(instructions)])])
  }

  /** main, for the decoded stdin (None when it is not JSON), the process's
      working directory, and the category directories found in a directory
      (None when it is not an existing directory). */
  function EnhancerMain(input: Option<Json>, processCwd: string, dirsIn: string -> Option<set<string>>): Outcome {
    match input
    case None => Rejected
    case Some(v) =>
      if !v.JObject? then Rejected
      else
        var prompt := Get(v.fields, "prompt", JString(""));
        if !Truthy(prompt) || !prompt.JString? then Rejected
        else
          var cwd := Get(v.fields, "cwd", JString(processCwd));
          if !cwd.JString? then Rejected
          else if !ShouldEnhance(prompt.s) then PassThrough
          else match dirsIn(cwd.s)
            case None => Rejected
            case Some(dirs) => Enhanced(ContextOutput(Instructions(prompt.s, dirs)))
  }

  /** Additional context is printed only for a prompt that should be
      enhanced, and it holds that prompt's instructions. */
  lemma EnhancedOnlyWhenNeeded(input: Option<Json>, processCwd: string, dirsIn: string -> Option<set<string>>)
    requires EnhancerMain(input, processCwd, dirsIn).Enhanced?
    ensures input.Some? && input.value.JObject? && "prompt" in input.value.fields
    ensures var prompt, cwd := input.value.fields["prompt"], Get(input.value.fields, "cwd", JString(processCwd));
      && prompt.JString? && ShouldEnhance(prompt.s) && cwd.JString? && dirsIn(cwd.s).Some?
      && EnhancerMain(input, processCwd, dirsIn) == Enhanced(ContextOutput(Instructions(prompt.s, dirsIn(cwd.s).value)))
  {
  }

  /** A prompt that is missing, empty or not a string is refused. */
  lemma BadPromptRejected(v: map<string, Json>, processCwd: string, dirsIn: string -> Option<set<string>>)
    requires "prompt" !in v || !v["prompt"].JString? || v["prompt"].s == []
    ensures EnhancerMain(Some(JObject(v)), processCwd, dirsIn) == Rejected
  {
  }
}
