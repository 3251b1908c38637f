/** The naming half of the git worktree script: the branch name made from a
    task prompt, the first free numbered variant of a taken branch name,
    and the first free `-noN` variant of a worktree path. What git lists
    and what exists on disk are parameters. */
module Worktree {
  import opened Text

  // ------------------------------------------------------------ branch name

  /** The end of the run of ASCII letters that starts at i. */
  function LetterRunEnd(s: string, i: nat): (e: nat)
    requires i <= |s|
    ensures i <= e <= |s|
    ensures forall k :: i <= k < e ==> IsLetter(s[k])
    ensures e == |s| || !IsLetter(s[e])
    decreases |s| - i
  {
    if i == |s| || !IsLetter(s[i]) then i else LetterRunEnd(s, i + 1)
  }

  /** Where \b[a-zA-Z]+\b matches at i: a letter run with a non-word
      character (or an end of the text) on each side. */
  predicate WordAt(s: string, i: nat)
    requires i <= |s|
  {
    && i < |s| && IsLetter(s[i])
    && (i == 0 || !IsWordChar(s[i - 1]))
    && (LetterRunEnd(s, i) == |s| || !IsWordChar(s[LetterRunEnd(s, i)]))
  }

  /** re.findall(r'\b[a-zA-Z]+\b', s[i..]) scanning from the left. */
  function LetterWordsFrom(s: string, i: nat): (ws: seq<string>)
    requires i <= |s|
    ensures forall k :: 0 <= k < |ws| ==> ws[k] != [] && forall c :: 0 <= c < |ws[k]| ==> IsLetter(ws[k][c])
    decreases |s| - i
  {
    if i == |s| then []
    else if WordAt(s, i) then
      var e := LetterRunEnd(s, i);
      [s[i..e]] + LetterWordsFrom(s, e)
    else LetterWordsFrom(s, i + 1)
  }

  /** The words longer than two letters, in order. */
  function LongWords(ws: seq<string>): (r: seq<string>)
    ensures |r| <= |ws|
    ensures forall k :: 0 <= k < |r| ==> |r[k]| > 2 && r[k] in ws
    ensures forall w :: w in ws && |w| > 2 ==> w in r
  {
    if ws == [] then []
    else if |ws[0]| > 2 then [ws[0]] + LongWords(ws[1..])
    else LongWords(ws[1..])
  }

  /** The filter keeps the words in their order: filtering a concatenation
      is concatenating the filtered parts. */
  lemma {:induction false} LongWordsConcat(xs: seq<string>, ys: seq<string>)
    ensures LongWords(xs + ys) == LongWords(xs) + LongWords(ys)
    decreases |xs|
  {
    if xs == [] {
      assert xs + ys == ys;
    } else {
      assert (xs + ys)[1..] == xs[1..] + ys;
      LongWordsConcat(xs[1..], ys);
    }
  }

  /** The words the branch name is made of. */
  function BranchWords(prompt: string): seq<string> {
    var long := LongWords(LetterWordsFrom(Lower(prompt), 0));
    if long == [] then ["task"] else long[..if |long| < 3 then |long| else 3]
  }

  /** generate_branch_name. */
  function GenerateBranchName(prompt: string): string {
    "agent/" + Join(BranchWords(prompt), "-")
  }

  /** Every letter of a lowered text is lower-case. */
  lemma {:induction false} LowerLetterWords(s: string, i: nat, k: nat)
    requires i <= |s| && IsLowered(s)
    requires k < |LetterWordsFrom(s, i)|
    ensures forall c :: 0 <= c < |LetterWordsFrom(s, i)[k]| ==> IsLower(LetterWordsFrom(s, i)[k][c])
    decreases |s| - i
  {
    if WordAt(s, i) {
      var e := LetterRunEnd(s, i);
      if k > 0 {
        LowerLetterWords(s, e, k - 1);
      }
    } else {
      LowerLetterWords(s, i + 1, k);
    }
  }

  /** The branch name is agent/ followed by one to three words joined by
      '-': the first three lower-case letter words of the prompt longer
      than two letters, or "task" when there is none. */
  lemma BranchNameShape(prompt: string)
    ensures StartsWith(GenerateBranchName(prompt), "agent/")
    ensures var ws := BranchWords(prompt);
      && 1 <= |ws| <= 3
      && GenerateBranchName(prompt) == "agent/" + Join(ws, "-")
      && (ws == ["task"] || forall k :: 0 <= k < |ws| ==>
            |ws[k]| > 2 && forall c :: 0 <= c < |ws[k]| ==> IsLower(ws[k][c]))
  {
    var name := GenerateBranchName(prompt);
    assert name[..6] == "agent/";
    var low := Lower(prompt);
    LowerIsLowered(prompt);
    var words := LetterWordsFrom(low, 0);
    var long := LongWords(words);
    var ws := BranchWords(prompt);
    if long != [] {
      forall k | 0 <= k < |ws|
        ensures forall c :: 0 <= c < |ws[k]| ==> IsLower(ws[k][c])
      {
        var j :| 0 <= j < |words| && words[j] == long[k];
        LowerLetterWords(low, 0, j);
      }
    }
  }

  /** A prompt without words of three or more letters gives agent/task. */
  lemma EmptyPromptBranch()
    ensures GenerateBranchName("") == "agent/task"
  {
  }

  predicate LetterWord(w: string) {
    w != [] && forall c :: 0 <= c < |w| ==> IsLetter(w[c])
  }

  /** A separator between words: no word character in it. */
  predicate Gap(g: string) {
    g != [] && forall c :: 0 <= c < |g| ==> !IsWordChar(g[c])
  }

  /** words[0] + gaps[0] + words[1] + ... + words[|words| - 1]. */
  function Weave(words: seq<string>, gaps: seq<string>): string
    requires |words| == |gaps| + 1
    decreases |gaps|
  {
    if gaps == [] then words[0] else words[0] + gaps[0] + Weave(words[1..], gaps[1..])
  }

  lemma {:induction false} RunOfWord(w: string, rest: string, i: nat)
    requires LetterWord(w) && i <= |w|
    requires rest == [] || !IsLetter(rest[0])
    ensures LetterRunEnd(w + rest, i) == |w|
    decreases |w| - i
  {
    if i < |w| {
      RunOfWord(w, rest, i + 1);
    }
  }

  lemma {:induction false} ShiftRun(p: string, r: string, i: nat)
    requires i <= |r|
    ensures LetterRunEnd(p + r, |p| + i) == |p| + LetterRunEnd(r, i)
    decreases |r| - i
  {
    if i < |r| {
      assert (p + r)[|p| + i] == r[i];
      ShiftRun(p, r, i + 1);
    }
  }

  /** Words found after a non-word character do not depend on what came
      before it. */
  lemma {:induction false} ShiftWords(p: string, r: string, i: nat)
    requires i <= |r|
    requires p == [] || !IsWordChar(p[|p| - 1])
    ensures LetterWordsFrom(p + r, |p| + i) == LetterWordsFrom(r, i)
    decreases |r| - i
  {
    var s := p + r;
    if i < |r| {
      ShiftRun(p, r, i);
      assert s[|p| + i] == r[i];
      if i > 0 {
        assert s[|p| + i - 1] == r[i - 1];
      }
      var e := LetterRunEnd(r, i);
      if e < |r| {
        assert s[|p| + e] == r[e];
      }
      assert WordAt(s, |p| + i) == WordAt(r, i);
      if WordAt(r, i) {
        assert s[|p| + i..|p| + e] == r[i..e];
        ShiftWords(p, r, e);
      } else {
        ShiftWords(p, r, i + 1);
      }
    }
  }

  /** No word starts inside a run of non-letters. */
  lemma {:induction false} SkipNonLetters(s: string, i: nat, j: nat)
    requires i <= j <= |s| && forall k :: i <= k < j ==> !IsLetter(s[k])
    ensures LetterWordsFrom(s, i) == LetterWordsFrom(s, j)
    decreases j - i
  {
    if i < j {
      SkipNonLetters(s, i + 1, j);
    }
  }

  /** A letter word at the start of a text, followed by a non-word
      character, is a match ending where the word ends. */
  lemma WordAtStart(w: string, rest: string)
    requires LetterWord(w) && rest != [] && !IsWordChar(rest[0])
    ensures WordAt(w + rest, 0) && LetterRunEnd(w + rest, 0) == |w|
    ensures LetterWordsFrom(w + rest, 0) == [w] + LetterWordsFrom(w + rest, |w|)
  {
    var s := w + rest;
    RunOfWord(w, rest, 0);
    assert s[|w|] == rest[0];
    assert s[0..|w|] == w;
  }

  /** A letter word followed by a gap is found first, and the rest is
      scanned afresh. */
  lemma WordThenGap(w: string, g: string, t: string)
    requires LetterWord(w) && Gap(g)
    ensures LetterWordsFrom(w + g + t, 0) == [w] + LetterWordsFrom(t, 0)
  {
    var s := w + g + t;
    assert s == w + (g + t);
    WordAtStart(w, g + t);
    GapSkipped(w, g, t);
  }

  /** After the word, the scan skips the gap and goes on in the rest as if
      it started there. */
  lemma GapSkipped(w: string, g: string, t: string)
    requires Gap(g)
    ensures LetterWordsFrom(w + g + t, |w|) == LetterWordsFrom(t, 0)
  {
    var s := w + g + t;
    assert forall k :: |w| <= k < |w| + |g| ==> s[k] == g[k - |w|];
    SkipNonLetters(s, |w|, |w| + |g|);
    assert (w + g)[|w + g| - 1] == g[|g| - 1];
    ShiftWords(w + g, t, 0);
  }

  /** A letter word alone is the one word found. */
  lemma LastWord(w: string)
    requires LetterWord(w)
    ensures LetterWordsFrom(w, 0) == [w]
  {
    assert w == w + [];
    RunOfWord(w, [], 0);
    assert w[0..|w|] == w;
  }

  /** The words found in letter words woven with gaps are those words. */
  lemma {:induction false} WovenWords(words: seq<string>, gaps: seq<string>)
    requires |words| == |gaps| + 1
    requires forall k :: 0 <= k < |words| ==> LetterWord(words[k])
    requires forall k :: 0 <= k < |gaps| ==> Gap(gaps[k])
    ensures LetterWordsFrom(Weave(words, gaps), 0) == words
    decreases |gaps|
  {
    if gaps == [] {
      LastWord(words[0]);
    } else {
      WordThenGap(words[0], gaps[0], Weave(words[1..], gaps[1..]));
      WovenWords(words[1..], gaps[1..]);
      assert words == [words[0]] + words[1..];
    }
  }

  /** For a prompt whose lowered form is letter words woven with gaps
      (spaces, punctuation), the branch is built from exactly those words:
      agent/ and the first three longer than two letters, or agent/task. */
  lemma BranchOfWords(prompt: string, words: seq<string>, gaps: seq<string>)
    requires |words| == |gaps| + 1 && Lower(prompt) == Weave(words, gaps)
    requires forall k :: 0 <= k < |words| ==> LetterWord(words[k])
    requires forall k :: 0 <= k < |gaps| ==> Gap(gaps[k])
    ensures var long := LongWords(words);
      GenerateBranchName(prompt) == "agent/" + Join(if long == [] then ["task"] else long[..if |long| < 3 then |long| else 3], "-")
  {
    WovenWords(words, gaps);
  }

  // ------------------------------------------------------ unique branch name

  /** name-K. */
  function Numbered(name: string, k: nat): string {
    name + "-" + NatToString(k)
  }

  /** make_branch_unique, for the set of branches git lists: the name
      itself when it is free, else name-K for the smallest K >= 1 that is
      free. */
  method MakeBranchUnique(name: string, branches: set<string>) returns (unique: string)
    ensures unique !in branches
    ensures name !in branches ==> unique == name
    ensures name in branches ==>
      exists k: nat :: k >= 1 && unique == Numbered(name, k) && forall j :: 1 <= j < k ==> Numbered(name, j) in branches
  {
    if name !in branches {
      return name;
    }
    var counter: nat := 1;
    ghost var left := branches;
    while Numbered(name, counter) in branches
      invariant counter >= 1
      invariant forall j :: 1 <= j < counter ==> Numbered(name, j) in branches
      invariant forall j: nat :: j >= counter && Numbered(name, j) in branches ==> Numbered(name, j) in left
      decreases left
    {
      var taken := Numbered(name, counter);
      forall j: nat | j > counter && Numbered(name, j) in branches
        ensures Numbered(name, j) in left - {taken}
      {
        if Numbered(name, j) == taken {
          SuffixedInjective(name + "-", j, counter);
        }
      }
      left := left - {taken};
      counter := counter + 1;
    }
    unique := Numbered(name, counter);
  }

  // -------------------------------------------------------------- paths

  /** Path(p).parent as a string. */
  function Parent(p: string): string {
    var i := LastIndexOf(p, '/', |p|);
    if i < 0 then "." else if i == 0 then "/" else p[..i]
  }

  /** Path(p).name. */
  function Name(p: string): (n: string)
    ensures forall k :: 0 <= k < |n| ==> n[k] != '/'
  {
    p[LastIndexOf(p, '/', |p|) + 1..]
  }

  /** Path.stem: the name without its last suffix; a leading or trailing
      dot is not a suffix. */
  function Stem(n: string): string {
    var i := LastIndexOf(n, '.', |n|);
    if 0 < i < |n| - 1 then n[..i] else n
  }

  /** str(Path(parent) / name) for a name without '/'. */
  function JoinPath(parent: string, name: string): string {
    if parent == "." then name else if parent == "/" then "/" + name else parent + "/" + name
  }

  /** The end of the run of decimal digits that starts at i. */
  function DigitRunEnd(s: string, i: nat): (e: nat)
    requires i <= |s|
    ensures i <= e <= |s|
    ensures forall k :: i <= k < e ==> IsDigit(s[k])
    ensures e == |s| || !IsDigit(s[e])
    decreases |s| - i
  {
    if i == |s| || !IsDigit(s[i]) then i else DigitRunEnd(s, i + 1)
  }

  /** Where -no(\d+)$ matches at i ($ also matches before a final
      newline). */
  predicate NumberMarkAt(s: string, i: nat)
    requires i <= |s|
  {
    && i + 4 <= |s| && s[i..i + 3] == "-no"
    && var e := DigitRunEnd(s, i + 3);
    && e > i + 3
    && (e == |s| || (e == |s| - 1 && s[e] == '\n'))
  }

  /** re.search(r'-no(\d+)$', s[i..]): the first position of a match. */
  function FindNumberMark(s: string, i: nat): (r: Option<nat>)
    requires i <= |s|
    ensures r.Some? ==> i <= r.value < |s| && NumberMarkAt(s, r.value)
    ensures r.None? ==> forall j :: i <= j <= |s| ==> !NumberMarkAt(s, j)
    ensures r.Some? ==> forall j :: i <= j < r.value ==> !NumberMarkAt(s, j)
    decreases |s| - i
  {
    if NumberMarkAt(s, i) then Some(i)
    else if i == |s| then None
    else FindNumberMark(s, i + 1)
  }

  /** The prefix and the first number of find_unique_worktree_path. */
  datatype Numbering = Numbering(parent: string, prefix: string, start: nat)

  function NumberingOf(basePath: string): (nb: Numbering)
    ensures nb.prefix == Stem(Name(basePath)) || nb.prefix + "-no" <= Stem(Name(basePath))
  {
    var stem := Stem(Name(basePath));
    match FindNumberMark(stem, 0)
    case None => Numbering(Parent(basePath), stem, 1)
    case Some(i) =>
      var digits := stem[i + 3..DigitRunEnd(stem, i + 3)];
      assert stem[..i] + "-no" == stem[..i + 3];
      Numbering(Parent(basePath), stem[..i], DigitsValue(digits))
  }

  /** parent / f"{prefix}-no{k}". */
  function Candidate(nb: Numbering, k: nat): string {
    JoinPath(nb.parent, nb.prefix + "-no" + NatToString(k))
  }

  /** The paths `git worktree list` reports: the first field of each
      non-blank line; nothing when the command fails. */
  function SplitLines(s: string): (lines: seq<string>)
    ensures |lines| >= 1
  {
    SplitLinesFrom(s, 0, 0)
  }

  /** s[start..].split('\n'), with the current line begun at start and
      scanned up to i. */
  function SplitLinesFrom(s: string, start: nat, i: nat): (lines: seq<string>)
    requires start <= i <= |s|
    ensures |lines| >= 1
    decreases |s| - i
  {
    if i == |s| then [s[start..]]
    else if s[i] == '\n' then [s[start..i]] + SplitLinesFrom(s, i + 1, i + 1)
    else SplitLinesFrom(s, start, i + 1)
  }

  /** The first field of a line, if it is not blank. */
  function FieldOf(line: string): (r: seq<string>)
    ensures |r| <= 1
  {
    if Strip(line) == [] then []
    else
      StripEmptyIffAllSpace(line);
      NonBlankHasField(line);
      [SplitWs(line)[0]]
  }

  /** The first field of each non-blank line. */
  function FirstFields(lines: seq<string>): (paths: seq<string>)
    ensures |paths| <= |lines|
  {
    if lines == [] then [] else FirstFields(lines[..|lines| - 1]) + FieldOf(lines[|lines| - 1])
  }

  /** A line that is not blank has a first field. */
  lemma NonBlankHasField(line: string)
    requires !AllSpace(line)
    ensures SplitWs(line) != []
  {
    assert SkipSpaces(line, 0) < |line|;
  }

  function ListedPaths(listing: Option<string>): seq<string> {
    match listing
    case None => []
    case Some(out) => FirstFields(SplitLines(Strip(out)))
  }

  /** A candidate is free when git does not list it and nothing is at it
      on disk. */
  predicate Free(path: string, listed: seq<string>, onDisk: set<string>) {
    path !in listed && path !in onDisk
  }

  /** The worktree list loop of find_unique_worktree_path. */
  method WorktreeListPaths(listing: Option<string>) returns (paths: seq<string>)
    ensures paths == ListedPaths(listing)
  {
    paths := [];
    if listing.Some? {
      var lines := SplitLines(Strip(listing.value));
      for i := 0 to |lines|
        invariant paths == FirstFields(lines[..i])
      {
        assert lines[..i + 1][..i] == lines[..i];
        paths := paths + FieldOf(lines[i]);
      }
      assert lines[..|lines|] == lines;
    }
  }

  /** The search loop of find_unique_worktree_path: the candidate for the
      smallest number from nb.start on that is free. */
  method FirstFreeCandidate(nb: Numbering, existing: seq<string>, onDisk: set<string>) returns (path: string)
    ensures Free(path, existing, onDisk)
    ensures exists k: nat :: k >= nb.start && path == Candidate(nb, k)
              && forall j :: nb.start <= j < k ==> !Free(Candidate(nb, j), existing, onDisk)
    ensures Free(Candidate(nb, nb.start), existing, onDisk) ==> path == Candidate(nb, nb.start)
  {
    var current := nb.start;
    ghost var left := (set x | x in existing) + onDisk;
    while !Free(Candidate(nb, current), existing, onDisk)
      invariant current >= nb.start
      invariant forall j :: nb.start <= j < current ==> !Free(Candidate(nb, j), existing, onDisk)
      invariant forall j: nat :: j >= current && !Free(Candidate(nb, j), existing, onDisk) ==> Candidate(nb, j) in left
      decreases left
    {
      var taken := Candidate(nb, current);
      forall j: nat | j > current && !Free(Candidate(nb, j), existing, onDisk)
        ensures Candidate(nb, j) in left - {taken}
      {
        if Candidate(nb, j) == taken {
          CandidateInjective(nb, j, current);
        }
      }
      left := left - {taken};
      current := current + 1;
    }
    path := Candidate(nb, current);
  }

  /** The stem parsing of find_unique_worktree_path. */
  method ParseNumbering(basePath: string) returns (nb: Numbering)
    ensures nb == NumberingOf(basePath)
  {
    var stem := Stem(Name(basePath));
    var mark := FindNumberMark(stem, 0);
    if mark.Some? {
      var digits := stem[mark.value + 3..DigitRunEnd(stem, mark.value + 3)];
      assert forall k :: 0 <= k < |digits| ==> digits[k] == stem[mark.value + 3 + k];
      nb := Numbering(Parent(basePath), stem[..mark.value], DigitsValue(digits));
    } else {
      nb := Numbering(Parent(basePath), stem, 1);
    }
  }

  /** find_unique_worktree_path, for the output of `git worktree list`
      (None when it fails) and the paths that exist on disk: the candidate
      for the smallest number from the start on that is free, which is the
      base path itself when that is the first candidate and free. */
  method FindUniqueWorktreePath(basePath: string, listing: Option<string>, onDisk: set<string>) returns (path: string)
    ensures Free(path, ListedPaths(listing), onDisk)
    ensures exists k: nat :: k >= NumberingOf(basePath).start && path == Candidate(NumberingOf(basePath), k)
              && forall j :: NumberingOf(basePath).start <= j < k ==> !Free(Candidate(NumberingOf(basePath), j), ListedPaths(listing), onDisk)
    ensures var nb := NumberingOf(basePath);
      Candidate(nb, nb.start) == basePath && Free(basePath, ListedPaths(listing), onDisk) ==> path == basePath
  {
    var nb := ParseNumbering(basePath);
    var existing := WorktreeListPaths(listing);
    path := FirstFreeCandidate(nb, existing, onDisk);
  }

  /** Different numbers give different candidates. */
  lemma CandidateInjective(nb: Numbering, m: nat, n: nat)
    requires Candidate(nb, m) == Candidate(nb, n)
    ensures m == n
  {
    var head := if nb.parent == "." then nb.prefix + "-no"
                else if nb.parent == "/" then "/" + nb.prefix + "-no"
                else nb.parent + "/" + nb.prefix + "-no";
    assert Candidate(nb, m) == head + NatToString(m);
    assert Candidate(nb, n) == head + NatToString(n);
    SuffixedInjective(head, m, n);
  }

  /** A base path already in the canonical form parent/prefix-noN, with N
      written without leading zeros and no suffix after it, is the first
      candidate; so it is the result whenever it is free. */
  lemma CanonicalBaseIsFirst(parent: string, prefix: string, n: nat)
    requires parent == "/" || (parent != [] && parent[|parent| - 1] != '/')
    requires forall k :: 0 <= k < |prefix| ==> prefix[k] != '/' && prefix[k] != '.'
    ensures var basePath := JoinPath(parent, prefix + "-no" + NatToString(n));
      Candidate(NumberingOf(basePath), NumberingOf(basePath).start) == basePath
  {
    var digits := NatToString(n);
    var name := prefix + "-no" + digits;
    var basePath := JoinPath(parent, name);
    assert forall k :: 0 <= k < |name| ==> name[k] != '/' && name[k] != '.' by {
      assert forall k :: |prefix| + 3 <= k < |name| ==> name[k] == digits[k - |prefix| - 3];
    }
    PathParts(parent, name);
    assert Stem(Name(basePath)) == name;
    MarkedName(prefix, digits);
    NumberingFromParts(basePath, prefix, digits);
    NatToStringValue(n);
  }

  /** The numbering of a path whose stem is prefix-noD. */
  lemma NumberingFromParts(basePath: string, prefix: string, digits: string)
    requires forall k :: 0 <= k < |digits| ==> IsDigit(digits[k])
    requires var name := prefix + "-no" + digits;
      && Stem(Name(basePath)) == name
      && FindNumberMark(name, 0) == Some(|prefix|) && DigitRunEnd(name, |prefix| + 3) == |name|
    ensures NumberingOf(basePath) == Numbering(Parent(basePath), prefix, DigitsValue(digits))
  {
    var name := prefix + "-no" + digits;
    assert name[..|prefix|] == prefix;
    assert name[|prefix| + 3..|name|] == digits;
  }

  /** The mark search finds prefix-noD's mark right after the prefix and
      its digits run to the end. */
  lemma MarkedName(prefix: string, digits: string)
    requires digits != [] && forall k :: 0 <= k < |digits| ==> IsDigit(digits[k])
    ensures var name := prefix + "-no" + digits;
      FindNumberMark(name, 0) == Some(|prefix|) && DigitRunEnd(name, |prefix| + 3) == |name|
  {
    MarkBeforeDigits(prefix, digits);
    NumberMarkFirst(prefix + "-no" + digits, |prefix|);
  }

  /** prefix-noD, for digits D, has its mark right after the prefix. */
  lemma MarkBeforeDigits(prefix: string, digits: string)
    requires digits != [] && forall k :: 0 <= k < |digits| ==> IsDigit(digits[k])
    ensures var name := prefix + "-no" + digits;
      NumberMarkAt(name, |prefix|) && DigitRunEnd(name, |prefix| + 3) == |name|
  {
    var name := prefix + "-no" + digits;
    var i := |prefix|;
    assert name[i..i + 3] == "-no";
    assert forall k :: i + 3 <= k < |name| ==> name[k] == digits[k - i - 3];
    DigitRunWhole(name, i + 3);
  }

  /** The last '/' of head + name is the one that ends head. */
  lemma SlashBeforeName(head: string, name: string)
    requires head != [] && head[|head| - 1] == '/'
    requires forall k :: 0 <= k < |name| ==> name[k] != '/'
    ensures LastIndexOf(head + name, '/', |head + name|) == |head| - 1
  {
    var p := head + name;
    assert p[|head| - 1] == '/';
    assert forall k :: |head| <= k < |p| ==> p[k] == name[k - |head|];
  }

  /** Joining a parent and a name splits back into the two. */
  lemma PathParts(parent: string, name: string)
    requires parent == "/" || (parent != [] && parent[|parent| - 1] != '/')
    requires forall k :: 0 <= k < |name| ==> name[k] != '/'
    ensures Parent(JoinPath(parent, name)) == parent
    ensures Name(JoinPath(parent, name)) == name
  {
    var p := JoinPath(parent, name);
    if parent == "." {
    } else {
      var head := if parent == "/" then "/" else parent + "/";
      assert p == head + name;
      SlashBeforeName(head, name);
      assert p[|head|..] == name;
      if parent != "/" {
        assert p[..|head| - 1] == parent;
      }
    }
  }

  lemma {:induction false} DigitRunWhole(s: string, i: nat)
    requires i <= |s| && forall k :: i <= k < |s| ==> IsDigit(s[k])
    ensures DigitRunEnd(s, i) == |s|
    decreases |s| - i
  {
    if i < |s| {
      DigitRunWhole(s, i + 1);
    }
  }

  /** No "-no" before a mark is followed by digits up to the end. */
  lemma NoEarlierMark(s: string, i: nat, j: nat)
    requires j < i <= |s| && NumberMarkAt(s, i)
    ensures !NumberMarkAt(s, j)
  {
    if j + 4 <= |s| && s[j..j + 3] == "-no" {
      assert forall k :: j <= k < j + 3 ==> s[k] == "-no"[k - j];
      assert s[i] == '-';
      assert DigitRunEnd(s, j + 3) <= i;
    }
  }

  /** A mark is the one the search finds. */
  lemma NumberMarkFirst(s: string, i: nat)
    requires i <= |s| && NumberMarkAt(s, i)
    ensures FindNumberMark(s, 0) == Some(i)
  {
    forall j | 0 <= j < i ensures !NumberMarkAt(s, j) {
      NoEarlierMark(s, i, j);
    }
  }

}
