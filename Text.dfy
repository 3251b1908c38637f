/** Characters and strings as the Python scripts see them: whitespace as
    str.isspace() and the regex class \s, word characters (\w), lower-casing,
    strip()/split()/join(), prefix and substring tests, the decimal rendering
    of a natural number and the string-to-int conversion done by int(). */
module Text {

  datatype Option<T> = None | Some(value: T)

  /** The value of an operation, or the exception it raises. */
  datatype Result<T, E> = Ok(value: T) | Err(error: E)

  /** str.isspace(), which is also what \s matches in a str pattern. */
  predicate IsSpace(c: char) {
    || ('\U{9}' <= c <= '\U{D}')
    || ('\U{1C}' <= c <= '\U{20}')
    || c == '\U{85}' || c == '\U{A0}' || c == '\U{1680}'
    || ('\U{2000}' <= c <= '\U{200A}')
    || c == '\U{2028}' || c == '\U{2029}' || c == '\U{202F}' || c == '\U{205F}' || c == '\U{3000}'
  }

  predicate IsDigit(c: char) { '0' <= c <= '9' }

  predicate IsLower(c: char) { 'a' <= c <= 'z' }

  predicate IsUpper(c: char) { 'A' <= c <= 'Z' }

  predicate IsLetter(c: char) { IsLower(c) || IsUpper(c) }

  /** A regex word character (\w), restricted to ASCII. */
  predicate IsWordChar(c: char) { IsLetter(c) || IsDigit(c) || c == '_' }

  function LowerChar(c: char): (d: char)
    ensures IsUpper(c) ==> IsLower(d)
    ensures !IsUpper(c) ==> d == c
    ensures IsWordChar(d) <==> IsWordChar(c)
    ensures IsSpace(d) <==> IsSpace(c)
  {
    if IsUpper(c) then (c as int + 32) as char else c
  }

  /** str.lower() on the ASCII range. */
  function Lower(s: string): (r: string)
    ensures |r| == |s|
    ensures forall i :: 0 <= i < |s| ==> r[i] == LowerChar(s[i])
  {
    if s == [] then [] else [LowerChar(s[0])] + Lower(s[1..])
  }

  lemma LowerIdempotent(s: string)
    ensures Lower(Lower(s)) == Lower(s)
  {
  }

  predicate IsLowered(s: string) {
    forall i :: 0 <= i < |s| ==> !IsUpper(s[i])
  }

  lemma LowerIsLowered(s: string)
    ensures IsLowered(Lower(s))
  {
  }

  lemma LoweredConcat(a: string, b: string)
    requires IsLowered(a) && IsLowered(b)
    ensures IsLowered(a + b)
  {
  }

  /** str.lower() works character by character. */
  lemma LowerConcat(a: string, b: string)
    ensures Lower(a + b) == Lower(a) + Lower(b)
  {
    assert forall i :: 0 <= i < |a + b| ==> Lower(a + b)[i] == (Lower(a) + Lower(b))[i];
  }

  predicate StartsWith(s: string, p: string) {
    |p| <= |s| && s[..|p|] == p
  }

  predicate EndsWith(s: string, p: string) {
    |p| <= |s| && s[|s| - |p|..] == p
  }

  /** p occurs in s at position i. */
  predicate OccursAt(s: string, p: string, i: int) {
    0 <= i <= |s| - |p| && s[i..i + |p|] == p
  }

  /** `p in s` for strings. */
  predicate Contains(s: string, p: string) {
    exists i :: 0 <= i <= |s| - |p| && OccursAt(s, p, i)
  }

  /** Contains, computed by scanning the positions from `from` on. */
  function ContainsFrom(s: string, p: string, from: nat): (b: bool)
    requires from <= |s|
    ensures b <==> exists i :: from <= i <= |s| - |p| && OccursAt(s, p, i)
    decreases |s| - from
  {
    if |s| - from < |p| then false
    else if OccursAt(s, p, from) then true
    else if from == |s| then false
    else ContainsFrom(s, p, from + 1)
  }

  function ContainsText(s: string, p: string): (b: bool)
    ensures b <==> Contains(s, p)
  {
    ContainsFrom(s, p, 0)
  }

  // ------------------------------------------------------ strip() / split()

  /** The first index at or after i that does not hold whitespace. */
  function SkipSpaces(s: string, i: nat): (j: nat)
    requires i <= |s|
    ensures i <= j <= |s|
    ensures forall k :: i <= k < j ==> IsSpace(s[k])
    ensures j == |s| || !IsSpace(s[j])
    decreases |s| - i
  {
    if i == |s| || !IsSpace(s[i]) then i else SkipSpaces(s, i + 1)
  }

  /** The first index at or after i that holds whitespace. */
  function SkipWord(s: string, i: nat): (j: nat)
    requires i <= |s|
    ensures i <= j <= |s|
    ensures forall k :: i <= k < j ==> !IsSpace(s[k])
    ensures j == |s| || IsSpace(s[j])
    decreases |s| - i
  {
    if i == |s| || IsSpace(s[i]) then i else SkipWord(s, i + 1)
  }

  /** The index just past the last non-whitespace character before j. */
  function TrimEnd(s: string, j: nat): (e: nat)
    requires j <= |s|
    ensures e <= j
    ensures forall k :: e <= k < j ==> IsSpace(s[k])
    ensures e == 0 || !IsSpace(s[e - 1])
  {
    if j == 0 || !IsSpace(s[j - 1]) then j else TrimEnd(s, j - 1)
  }

  /** str.strip() with no argument. */
  function Strip(s: string): (r: string)
    ensures r == [] || (!IsSpace(r[0]) && !IsSpace(r[|r| - 1]))
    ensures |r| <= |s|
  {
    var a := SkipSpaces(s, 0);
    if a == |s| then [] else s[a..TrimEnd(s, |s|)]
  }

  /** True when every character of s is whitespace (so s.strip() is empty). */
  predicate AllSpace(s: string) {
    forall i :: 0 <= i < |s| ==> IsSpace(s[i])
  }

  /** strip() removes exactly the leading and the trailing whitespace: the
      result is the slice s[a..b] with only whitespace before a and after
      b, and a non-whitespace character at each end of a non-empty slice. */
  lemma StripSlice(s: string) returns (a: nat, b: nat)
    ensures a <= b <= |s| && Strip(s) == s[a..b]
    ensures forall k :: 0 <= k < a ==> IsSpace(s[k])
    ensures forall k :: b <= k < |s| ==> IsSpace(s[k])
    ensures a < b ==> !IsSpace(s[a]) && !IsSpace(s[b - 1])
  {
    a := SkipSpaces(s, 0);
    if a == |s| {
      b := a;
    } else {
      b := TrimEnd(s, |s|);
      assert !IsSpace(s[a]);
      assert a < b;
    }
  }

  lemma StripEmptyIffAllSpace(s: string)
    ensures Strip(s) == [] <==> AllSpace(s)
  {
  }

  lemma {:induction false} LowerSlice(s: string, a: nat, b: nat)
    requires a <= b <= |s|
    ensures Lower(s)[a..b] == Lower(s[a..b])
  {
    var l, m := Lower(s), Lower(s[a..b]);
    forall t | 0 <= t < b - a ensures l[a..b][t] == m[t] {
      assert l[a..b][t] == l[a + t] == LowerChar(s[a + t]);
      assert m[t] == LowerChar(s[a..b][t]);
    }
  }

  lemma {:induction false} SkipSpacesLower(s: string, i: nat)
    requires i <= |s|
    ensures SkipSpaces(Lower(s), i) == SkipSpaces(s, i)
    decreases |s| - i
  {
    if i < |s| && IsSpace(s[i]) {
      SkipSpacesLower(s, i + 1);
    }
  }

  lemma {:induction false} TrimEndLower(s: string, j: nat)
    requires j <= |s|
    ensures TrimEnd(Lower(s), j) == TrimEnd(s, j)
  {
    if j > 0 && IsSpace(s[j - 1]) {
      TrimEndLower(s, j - 1);
    }
  }

  /** Stripping and lower-casing commute. */
  lemma StripLower(s: string)
    ensures Strip(Lower(s)) == Lower(Strip(s))
  {
    SkipSpacesLower(s, 0);
    TrimEndLower(s, |s|);
    var a := SkipSpaces(s, 0);
    if a < |s| {
      LowerSlice(s, a, TrimEnd(s, |s|));
    }
  }

  /** Stripping twice is stripping once. */
  lemma StripIdempotent(s: string)
    ensures Strip(Strip(s)) == Strip(s)
  {
    var r := Strip(s);
    if r != [] {
      assert SkipSpaces(r, 0) == 0;
      assert TrimEnd(r, |r|) == |r|;
    }
  }

  predicate NoSpace(s: string) {
    forall i :: 0 <= i < |s| ==> !IsSpace(s[i])
  }

  /** Visible ASCII characters are not whitespace. */
  lemma GraphicNoSpace(s: string)
    requires forall i :: 0 <= i < |s| ==> '!' <= s[i] <= '~'
    ensures NoSpace(s)
  {
  }

  lemma ConcatAssoc(a: string, b: string, c: string)
    ensures a + (b + c) == (a + b) + c
  {
  }

  /** The index of the last c in s[..end], or -1 when there is none. */
  function LastIndexOf(s: string, c: char, end: nat): (i: int)
    requires end <= |s|
    ensures -1 <= i < end
    ensures i >= 0 ==> s[i] == c
    ensures forall k :: i < k < end ==> s[k] != c
  {
    if end == 0 then -1 else if s[end - 1] == c then end - 1 else LastIndexOf(s, c, end - 1)
  }

  /** The words of s[i..]: the maximal runs of non-whitespace. */
  function SplitFrom(s: string, i: nat): (ws: seq<string>)
    requires i <= |s|
    ensures forall k :: 0 <= k < |ws| ==> ws[k] != [] && NoSpace(ws[k])
    decreases |s| - i
  {
    var a := SkipSpaces(s, i);
    if a == |s| then []
    else
      var b := SkipWord(s, a);
      [s[a..b]] + SplitFrom(s, b)
  }

  /** str.split() with no argument. */
  function SplitWs(s: string): (ws: seq<string>)
    ensures forall k :: 0 <= k < |ws| ==> ws[k] != [] && NoSpace(ws[k])
  {
    SplitFrom(s, 0)
  }

  /** sep.join(parts). */
  function Join(parts: seq<string>, sep: string): (r: string)
  {
    if parts == [] then []
    else if |parts| == 1 then parts[0]
    else parts[0] + sep + Join(parts[1..], sep)
  }

  /** Joining one more part adds the separator and the part at the end. */
  lemma {:induction false} JoinSnoc(parts: seq<string>, last: string, sep: string)
    ensures Join(parts + [last], sep) == if parts == [] then last else Join(parts, sep) + sep + last
  {
    if |parts| > 1 {
      assert (parts + [last])[1..] == parts[1..] + [last];
      JoinSnoc(parts[1..], last, sep);
    } else if |parts| == 1 {
      assert (parts + [last])[1..] == [last];
    }
  }

  /** ' '.join(s.split()): whitespace runs collapsed to one space, ends trimmed. */
  function CollapseSpaces(s: string): string
  {
    Join(SplitWs(s), " ")
  }

  /** Surrounding whitespace is exactly what strip() removes. */
  lemma StripPadded(p: string, t: string, q: string)
    requires AllSpace(p) && AllSpace(q)
    requires t != [] && !IsSpace(t[0]) && !IsSpace(t[|t| - 1])
    ensures Strip(p + t + q) == t
  {
    var s := p + t + q;
    assert forall k :: 0 <= k < |p| ==> s[k] == p[k];
    assert forall k :: |p| + |t| <= k < |s| ==> s[k] == q[k - |p| - |t|];
    assert s[|p|] == t[0] && s[|p| + |t| - 1] == t[|t| - 1];
    var a, e := SkipSpaces(s, 0), TrimEnd(s, |s|);
    assert a == |p|;
    assert e == |p| + |t|;
    assert s[a..e] == t;
  }

  /** A string with no whitespace at either end is its own strip(). */
  lemma StripUnchanged(s: string)
    requires s == [] || (!IsSpace(s[0]) && !IsSpace(s[|s| - 1]))
    ensures Strip(s) == s
  {
    if s != [] {
      assert SkipSpaces(s, 0) == 0;
      assert TrimEnd(s, |s|) == |s|;
    }
  }

  lemma {:induction false} SkipSpacesShift(p: string, u: string, i: nat)
    requires i <= |u|
    ensures SkipSpaces(p + u, |p| + i) == |p| + SkipSpaces(u, i)
    decreases |u| - i
  {
    if i < |u| {
      assert (p + u)[|p| + i] == u[i];
      if IsSpace(u[i]) {
        SkipSpacesShift(p, u, i + 1);
      }
    }
  }

  lemma {:induction false} SkipWordShift(p: string, u: string, i: nat)
    requires i <= |u|
    ensures SkipWord(p + u, |p| + i) == |p| + SkipWord(u, i)
    decreases |u| - i
  {
    if i < |u| {
      assert (p + u)[|p| + i] == u[i];
      if !IsSpace(u[i]) {
        SkipWordShift(p, u, i + 1);
      }
    }
  }

  /** Splitting ignores a prefix that has already been passed. */
  lemma {:induction false} SplitFromShift(p: string, u: string, i: nat)
    requires i <= |u|
    ensures SplitFrom(p + u, |p| + i) == SplitFrom(u, i)
    decreases |u| - i
  {
    SkipSpacesShift(p, u, i);
    var a := SkipSpaces(u, i);
    if a < |u| {
      var b := SkipWord(u, a);
      SplitFromShift(p, u, b);
      SplitFromShiftStep(p, u, i, a, b);
    }
  }

  /** One word of SplitFromShift: the prefix does not change the next word. */
  lemma SplitFromShiftStep(p: string, u: string, i: nat, a: nat, b: nat)
    requires i <= |u| && a == SkipSpaces(u, i) < |u| && b == SkipWord(u, a)
    requires SplitFrom(p + u, |p| + b) == SplitFrom(u, b)
    ensures SplitFrom(p + u, |p| + i) == SplitFrom(u, i)
  {
    SkipSpacesShift(p, u, i);
    SkipWordShift(p, u, a);
    ShiftSlice(p, u, a, b);
  }

  lemma ShiftSlice(p: string, u: string, a: nat, b: nat)
    requires a <= b <= |u|
    ensures (p + u)[|p| + a..|p| + b] == u[a..b]
  {
  }

  lemma {:induction false} SkipWordTo(s: string, i: nat, j: nat)
    requires i <= j <= |s|
    requires forall k :: i <= k < j ==> !IsSpace(s[k])
    requires j == |s| || IsSpace(s[j])
    ensures SkipWord(s, i) == j
    decreases j - i
  {
    if i < j {
      SkipWordTo(s, i + 1, j);
    }
  }

  lemma SplitOneWord(w: string)
    requires w != [] && NoSpace(w)
    ensures SplitWs(w) == [w]
  {
    assert SkipSpaces(w, 0) == 0;
    SkipWordTo(w, 0, |w|);
    assert w[0..|w|] == w;
    assert SplitFrom(w, |w|) == [];
  }

  lemma SplitWordThen(w: string, rest: string)
    requires w != [] && NoSpace(w)
    ensures SplitWs(w + " " + rest) == [w] + SplitWs(rest)
  {
    var s := w + " " + rest;
    assert s[0] == w[0];
    forall k | 0 <= k < |w| ensures !IsSpace(s[k]) {
      assert s[k] == w[k];
    }
    assert s[|w|] == ' ';
    assert SkipSpaces(s, 0) == 0;
    SkipWordTo(s, 0, |w|);
    assert s[0..|w|] == w;
    assert SplitFrom(s, |w|) == SplitFrom(s, |w| + 1);
    assert s == (w + " ") + rest;
    SplitFromShift(w + " ", rest, 0);
  }

  /** split() undoes a join with single spaces of words without whitespace. */
  lemma {:induction false} SplitJoin(ws: seq<string>)
    requires forall k :: 0 <= k < |ws| ==> ws[k] != [] && NoSpace(ws[k])
    ensures SplitWs(Join(ws, " ")) == ws
  {
    if |ws| == 1 {
      SplitOneWord(ws[0]);
    } else if |ws| > 1 {
      SplitJoin(ws[1..]);
      SplitWordThen(ws[0], Join(ws[1..], " "));
    }
  }

  /** A join of words has no whitespace at either end. */
  lemma {:induction false} JoinEnds(ws: seq<string>)
    requires ws != [] && forall k :: 0 <= k < |ws| ==> ws[k] != [] && NoSpace(ws[k])
    ensures var j := Join(ws, " "); j != [] && !IsSpace(j[0]) && !IsSpace(j[|j| - 1])
  {
    if |ws| > 1 {
      JoinEnds(ws[1..]);
      var j := Join(ws, " ");
      var rest := Join(ws[1..], " ");
      assert j == ws[0] + " " + rest;
      assert j[0] == ws[0][0];
      assert j[|j| - 1] == rest[|rest| - 1];
    }
  }

  /** Lower-casing a string without capitals changes nothing. */
  lemma LoweredUnchanged(s: string)
    requires IsLowered(s)
    ensures Lower(s) == s
  {
  }

  /** An occurrence inside a slice of s is an occurrence in s. */
  lemma OccursInSlice(s: string, a: nat, b: nat, l: string, i: nat)
    requires a <= b <= |s| && OccursAt(s[a..b], l, i)
    ensures OccursAt(s, l, a + i)
  {
    var u := s[a..b];
    forall t | 0 <= t < |l| ensures s[a + i + t] == l[t] {
      assert u[i..i + |l|][t] == u[i + t];
    }
    assert s[a + i..a + i + |l|] == l;
  }

  /** Every word of s[i..].split() is a slice of s. */
  lemma {:induction false} SplitFromWordIsSlice(s: string, i: nat, k: nat) returns (a: nat, b: nat)
    requires i <= |s| && k < |SplitFrom(s, i)|
    ensures i <= a <= b <= |s| && SplitFrom(s, i)[k] == s[a..b]
    decreases |s| - i
  {
    var a0 := SkipSpaces(s, i);
    var b0 := SkipWord(s, a0);
    if k == 0 {
      a, b := a0, b0;
    } else {
      assert SplitFrom(s, i)[k] == SplitFrom(s, b0)[k - 1];
      a, b := SplitFromWordIsSlice(s, b0, k - 1);
    }
  }

  /** A text without whitespace found in a space-joined list of words without
      whitespace lies inside one of the words. */
  lemma {:induction false} ContainsInJoin(parts: seq<string>, l: string)
    requires forall k :: 0 <= k < |parts| ==> NoSpace(parts[k])
    requires l != [] && NoSpace(l) && Contains(Join(parts, " "), l)
    ensures exists k :: 0 <= k < |parts| && Contains(parts[k], l)
  {
    var j := Join(parts, " ");
    var i :| 0 <= i <= |j| - |l| && OccursAt(j, l, i);
    if |parts| == 1 {
      assert Contains(parts[0], l);
    } else {
      var h, r := parts[0], Join(parts[1..], " ");
      assert j == h + " " + r;
      assert j[|h|] == ' ';
      SpaceOutsideOccurrence(j, l, i, |h|);
      if i + |l| <= |h| {
        assert h[i..i + |l|] == j[i..i + |l|];
        assert OccursAt(h, l, i);
      } else {
        assert r[i - |h| - 1..i - |h| - 1 + |l|] == j[i..i + |l|];
        assert OccursAt(r, l, i - |h| - 1);
        ContainsInJoin(parts[1..], l);
        var k :| 0 <= k < |parts[1..]| && Contains(parts[1..][k], l);
        assert Contains(parts[k + 1], l);
      }
    }
  }

  /** An occurrence of a text without whitespace does not cover a
      whitespace character. */
  lemma SpaceOutsideOccurrence(s: string, l: string, i: nat, m: nat)
    requires NoSpace(l) && OccursAt(s, l, i) && m < |s| && IsSpace(s[m])
    ensures m < i || i + |l| <= m
  {
    forall k | i <= k < i + |l| ensures !IsSpace(s[k]) {
      assert s[k] == s[i..i + |l|][k - i];
    }
  }

  /** Collapsing whitespace creates no new occurrence of a text without
      whitespace. */
  lemma ContainsAfterCollapse(s: string, l: string)
    requires l != [] && NoSpace(l) && Contains(CollapseSpaces(s), l)
    ensures Contains(s, l)
  {
    ContainsInJoin(SplitWs(s), l);
    var k :| 0 <= k < |SplitWs(s)| && Contains(SplitWs(s)[k], l);
    var a, b := SplitFromWordIsSlice(s, 0, k);
    var i :| 0 <= i <= (b - a) - |l| && OccursAt(s[a..b], l, i);
    OccursInSlice(s, a, b, l, i);
  }

  // ------------------------------------------------------- decimal rendering

  function DigitChar(d: nat): (c: char)
    requires d < 10
    ensures IsDigit(c)
  {
    ('0' as int + d) as char
  }

  function DigitValue(c: char): (d: nat)
    requires IsDigit(c)
    ensures d < 10 && DigitChar(d) == c
  {
    c as int - '0' as int
  }

  /** str(n) for a natural number: decimal digits, no leading zero. */
  function NatToString(n: nat): (s: string)
    ensures s != [] && forall i :: 0 <= i < |s| ==> IsDigit(s[i])
    ensures |s| > 1 ==> s[0] != '0'
    decreases n
  {
    if n < 10 then [DigitChar(n)] else NatToString(n / 10) + [DigitChar(n % 10)]
  }

  /** The value of a string of decimal digits. */
  function DigitsValue(s: string): (n: nat)
    requires forall i :: 0 <= i < |s| ==> IsDigit(s[i])
  {
    if s == [] then 0 else DigitsValue(s[..|s| - 1]) * 10 + DigitValue(s[|s| - 1])
  }

  lemma {:induction false} NatToStringValue(n: nat)
    ensures DigitsValue(NatToString(n)) == n
    decreases n
  {
    var s := NatToString(n);
    if n >= 10 {
      NatToStringValue(n / 10);
      assert s[..|s| - 1] == NatToString(n / 10);
    }
  }

  /** Different numbers render differently. */
  lemma NatToStringInjective(m: nat, n: nat)
    requires NatToString(m) == NatToString(n)
    ensures m == n
  {
    NatToStringValue(m);
    NatToStringValue(n);
  }

  /** Appending different numbers to one stem gives different names. */
  lemma SuffixedInjective(stem: string, m: nat, n: nat)
    requires stem + NatToString(m) == stem + NatToString(n)
    ensures m == n
  {
    var a, b := stem + NatToString(m), stem + NatToString(n);
    assert NatToString(m) == a[|stem|..];
    assert NatToString(n) == b[|stem|..];
    NatToStringInjective(m, n);
  }

  // ------------------------------------------------------ int() of a string

  predicate AllDigits(s: string) {
    forall i :: 0 <= i < |s| ==> IsDigit(s[i])
  }

  /** Python's integer literal body: digit groups joined by single '_'
      (for example "1_000"); at least one digit, no leading or trailing '_'. */
  predicate IsDigitGroups(s: string) {
    && s != []
    && IsDigit(s[0]) && IsDigit(s[|s| - 1])
    && (forall i :: 0 <= i < |s| ==> IsDigit(s[i]) || s[i] == '_')
    && (forall i :: 0 <= i < |s| - 1 && s[i] == '_' ==> s[i + 1] != '_')
  }

  /** The digits of s with the group separators removed. */
  function DropUnderscores(s: string): (r: string)
    requires forall i :: 0 <= i < |s| ==> IsDigit(s[i]) || s[i] == '_'
    ensures AllDigits(r) && |r| <= |s|
  {
    if s == [] then []
    else if s[0] == '_' then DropUnderscores(s[1..])
    else [s[0]] + DropUnderscores(s[1..])
  }

  /** int(s) for a str argument: surrounding whitespace ignored, an optional
      sign, then digit groups. None stands for the ValueError. */
  function ParseInt(s: string): (r: Option<int>)
    ensures r.Some? ==> Strip(s) != []
  {
    var t := Strip(s);
    if t == [] then None
    else
      var neg := t[0] == '-';
      var body := if t[0] == '-' || t[0] == '+' then t[1..] else t;
      if IsDigitGroups(body) then
        var v: int := DigitsValue(DropUnderscores(body));
        Some(if neg then -v else v)
      else None
  }

  lemma ParseIntOfNat(n: nat)
    ensures ParseInt(NatToString(n)) == Some(n)
  {
    var s := NatToString(n);
    assert !IsSpace(s[0]) && !IsSpace(s[|s| - 1]);
    assert SkipSpaces(s, 0) == 0 && TrimEnd(s, |s|) == |s|;
    assert Strip(s) == s;
    assert IsDigitGroups(s);
    DropNoUnderscores(s);
    NatToStringValue(n);
  }

  lemma DropNoUnderscores(s: string)
    requires AllDigits(s)
    ensures DropUnderscores(s) == s
  {
    if s != [] {
      DropNoUnderscores(s[1..]);
    }
  }

  /** An optional sign in front of an integer literal. */
  predicate IsSign(sign: string) {
    sign == "" || sign == "+" || sign == "-"
  }

  /** The value of a literal of magnitude v written after that sign. */
  function Signed(sign: string, v: int): int {
    if sign == "-" then -v else v
  }

  /** Digit groups such as ["1", "000"]: at least one group, each a
      non-empty run of decimal digits. */
  predicate DigitGroupList(gs: seq<string>) {
    gs != [] && forall k :: 0 <= k < |gs| ==> gs[k] != [] && AllDigits(gs[k])
  }

  /** The digits of the groups, written one after another. */
  function GroupDigits(gs: seq<string>): (r: string)
    requires forall k :: 0 <= k < |gs| ==> AllDigits(gs[k])
    ensures AllDigits(r)
  {
    if gs == [] then []
    else
      var g, rest := gs[0], GroupDigits(gs[1..]);
      assert AllDigits(g) && AllDigits(rest);
      assert forall i :: 0 <= i < |g + rest| ==> (g + rest)[i] == if i < |g| then g[i] else rest[i - |g|];
      g + rest
  }

  lemma {:induction false} DropConcat(a: string, b: string)
    requires forall i :: 0 <= i < |a| ==> IsDigit(a[i]) || a[i] == '_'
    requires forall i :: 0 <= i < |b| ==> IsDigit(b[i]) || b[i] == '_'
    ensures DropUnderscores(a + b) == DropUnderscores(a) + DropUnderscores(b)
  {
    if a == [] {
      assert a + b == b;
    } else {
      TailConcat(a, b);
      DropConcat(a[1..], b);
    }
  }

  lemma TailConcat(a: string, b: string)
    requires a != []
    ensures (a + b)[0] == a[0] && (a + b)[1..] == a[1..] + b
  {
  }

  /** Digit groups joined by single underscores form a literal body, and
      dropping the underscores gives back the groups' digits. */
  lemma {:induction false} JoinGroups(gs: seq<string>)
    requires DigitGroupList(gs)
    ensures IsDigitGroups(Join(gs, "_"))
    ensures DropUnderscores(Join(gs, "_")) == GroupDigits(gs)
    decreases |gs|
  {
    var g := gs[0];
    DropNoUnderscores(g);
    if |gs| == 1 {
      assert GroupDigits(gs) == g + GroupDigits([]);
    } else {
      var rest := gs[1..];
      assert forall k :: 0 <= k < |rest| ==> rest[k] == gs[k + 1];
      JoinGroups(rest);
      assert Join(gs, "_") == g + "_" + Join(rest, "_");
      JoinGroup(g, Join(rest, "_"));
    }
  }

  /** One more group in front of a literal body. */
  lemma JoinGroup(g: string, j: string)
    requires g != [] && AllDigits(g) && IsDigitGroups(j)
    ensures IsDigitGroups(g + "_" + j)
    ensures DropUnderscores(g + "_" + j) == DropUnderscores(g) + DropUnderscores(j)
  {
    var s := g + "_" + j;
    assert forall i :: 0 <= i < |g| ==> s[i] == g[i];
    assert s[|g|] == '_';
    assert forall i :: |g| < i < |s| ==> s[i] == j[i - |g| - 1];
    assert s == g + ("_" + j);
    DropConcat(g, "_" + j);
    assert ("_" + j)[1..] == j;
  }

  /** Every literal body splits into its digit groups. */
  lemma {:induction false} GroupsOf(b: string) returns (gs: seq<string>)
    requires IsDigitGroups(b)
    ensures DigitGroupList(gs) && Join(gs, "_") == b
    decreases |b|
  {
    var i := LastIndexOf(b, '_', |b|);
    if i < 0 {
      gs := [b];
    } else {
      var head, tail := b[..i], b[i + 1..];
      assert i > 0 && i < |b| - 1;
      assert forall k :: 0 <= k < |head| ==> head[k] == b[k];
      assert IsDigitGroups(head);
      var hs := GroupsOf(head);
      gs := hs + [tail];
      JoinSnoc(hs, tail, "_");
      assert b == head + "_" + tail;
    }
  }

  /** int() reads an optionally signed literal of underscore-joined digit
      groups with whitespace around it, leading zeros included: " -3 "
      gives -3, "+7" gives 7, "1_000" gives 1000 and "007" gives 7. */
  lemma ParseIntLiteral(p: string, sign: string, gs: seq<string>, q: string)
    requires AllSpace(p) && AllSpace(q) && IsSign(sign) && DigitGroupList(gs)
    ensures ParseInt(p + (sign + Join(gs, "_")) + q) == Some(Signed(sign, DigitsValue(GroupDigits(gs))))
  {
    JoinGroups(gs);
    var body := Join(gs, "_");
    var t := sign + body;
    SignedLiteral(sign, body);
    StripPadded(p, t, q);
    ParseIntStripped(p + t + q, sign, body);
  }

  /** What ParseInt makes of a text that strips to a sign and a body. */
  lemma ParseIntStripped(s: string, sign: string, body: string)
    requires IsSign(sign) && IsDigitGroups(body) && Strip(s) == sign + body
    ensures ParseInt(s) == Some(Signed(sign, DigitsValue(DropUnderscores(body))))
  {
    SignedLiteral(sign, body);
  }

  /** A sign and a literal body: no whitespace at either end, and the sign
      is read back as ParseInt reads it. */
  lemma SignedLiteral(sign: string, body: string)
    requires IsSign(sign) && IsDigitGroups(body)
    ensures var t := sign + body;
      && t != [] && !IsSpace(t[0]) && !IsSpace(t[|t| - 1]) && IsDigit(t[|t| - 1])
      && (t[0] == '-' <==> sign == "-")
      && (if t[0] == '-' || t[0] == '+' then t[1..] else t) == body
  {
    var t := sign + body;
    assert t[0] == (if sign == "" then body[0] else sign[0]);
    assert t[|t| - 1] == body[|body| - 1];
  }

  /** int() accepts nothing else: a successful conversion strips to an
      optional sign and underscore-joined digit groups, and its value is
      theirs. So "12a", "1__2", "_1", "1_" and "-" are refused. */
  lemma ParseIntShape(s: string) returns (sign: string, gs: seq<string>)
    requires ParseInt(s).Some?
    ensures IsSign(sign) && DigitGroupList(gs)
    ensures Strip(s) == sign + Join(gs, "_")
    ensures ParseInt(s).value == Signed(sign, DigitsValue(GroupDigits(gs)))
  {
    var body;
    sign, body := ParseIntSplit(s);
    gs := GroupsOf(body);
    JoinGroups(gs);
  }

  /** A successful conversion reads a sign and a literal body. */
  lemma ParseIntSplit(s: string) returns (sign: string, body: string)
    requires ParseInt(s).Some?
    ensures IsSign(sign) && IsDigitGroups(body) && Strip(s) == sign + body
    ensures ParseInt(s).value == Signed(sign, DigitsValue(DropUnderscores(body)))
  {
    var t := Strip(s);
    sign := if t[0] == '-' || t[0] == '+' then [t[0]] else "";
    body := if sign != "" then t[1..] else t;
    assert t == sign + body;
  }
}
