/** The vocabulary of the Markdown task lists: the five task statuses with
    their checkbox spelling, the task record, and the algebra of dotted
    hierarchical task IDs (`1`, `1.2`, `1.2.3`): validation, parent, direct
    sub-tasks and the numeric sort key. */
module Tasks {
  import opened Text

  datatype TaskStatus = Pending | InProgress | Done | Review | Deferred

  /** The status's value, as written on the command line. */
  function StatusValue(s: TaskStatus): string {
    match s
    case Pending => "pending"
    case InProgress => "in-progress"
    case Done => "done"
    case Review => "review"
    case Deferred => "deferred"
  }

  /** `TaskStatus(v)`; None stands for the ValueError of an unknown value. */
  function ParseStatus(v: string): (r: Option<TaskStatus>)
    ensures r.Some? ==> StatusValue(r.value) == v
    ensures r.None? ==> forall s :: StatusValue(s) != v
  {
    if v == "pending" then Some(Pending)
    else if v == "in-progress" then Some(InProgress)
    else if v == "done" then Some(Done)
    else if v == "review" then Some(Review)
    else if v == "deferred" then Some(Deferred)
    else None
  }

  /** The checkbox that shows a status in the Markdown file. */
  function ToCheckbox(s: TaskStatus): (c: string)
    ensures |c| == 3 && c[0] == '[' && c[2] == ']'
  {
    match s
    case Pending => "[ ]"
    case InProgress => "[-]"
    case Done => "[x]"
    case Review => "[+]"
    case Deferred => "[*]"
  }

  /** The status a checkbox stands for; an unknown checkbox reads as
      pending. */
  function FromCheckbox(c: string): (s: TaskStatus)
    ensures s != Pending ==> c == ToCheckbox(s)
  {
    if c == "[ ]" then Pending
    else if c == "[-]" then InProgress
    else if c == "[x]" then Done
    else if c == "[+]" then Review
    else if c == "[*]" then Deferred
    else Pending
  }

  /** Reading back the checkbox of a status gives that status. */
  lemma CheckboxRoundTrip(s: TaskStatus)
    ensures FromCheckbox(ToCheckbox(s)) == s
  {
    var c := ToCheckbox(s);
    assert c[1] == (match s
      case Pending => ' ' case InProgress => '-' case Done => 'x'
      case Review => '+' case Deferred => '*');
    assert "[ ]"[1] == ' ' && "[-]"[1] == '-' && "[x]"[1] == 'x' && "[+]"[1] == '+';
  }

  /** A checkbox that belongs to no status reads as pending. */
  lemma UnknownCheckboxPending(c: string)
    requires forall t :: c != ToCheckbox(t)
    ensures FromCheckbox(c) == Pending
  {
    assert c != ToCheckbox(FromCheckbox(c));
  }

  /** So different statuses have different checkboxes. */
  lemma CheckboxInjective(s: TaskStatus, t: TaskStatus)
    requires ToCheckbox(s) == ToCheckbox(t)
    ensures s == t
  {
    CheckboxRoundTrip(s);
    CheckboxRoundTrip(t);
  }

  /** A status counts as completed in the statistics and the tracking
      conditions. */
  predicate IsCompleted(s: TaskStatus) {
    s == Done || s == Review || s == Deferred
  }

  /** A dependency is satisfied by a task in one of these statuses. */
  predicate SatisfiesDependency(s: TaskStatus) {
    s == Done || s == Review
  }

  /** A parent in one of these statuses holds its sub-tasks back. */
  predicate HoldsBack(s: TaskStatus) {
    s == Pending || s == Done
  }

  /** One task of the list. The line number, indentation and raw content
      belong to the file rewriting, which is not modelled. */
  datatype Task = Task(
    id: string,
    description: string,
    status: TaskStatus,
    requirements: seq<string>,
    dependencies: seq<string>)

  // ------------------------------------------------------------- task IDs

  /** The index of the last dot of s. */
  function LastDot(s: string): (i: nat)
    requires '.' in s
    ensures i < |s| && s[i] == '.' && '.' !in s[i + 1..]
  {
    var i := LastIndexOf(s, '.', |s|);
    assert i >= 0 by {
      var j :| 0 <= j < |s| && s[j] == '.';
    }
    assert '.' !in s[i + 1..] by {
      var t := s[i + 1..];
      assert forall k :: 0 <= k < |t| ==> t[k] == s[i + 1 + k];
    }
    i
  }

  /** `s.split('.')`. */
  function SplitDot(s: string): (parts: seq<string>)
    ensures |parts| >= 1
    ensures forall k :: 0 <= k < |parts| ==> '.' !in parts[k]
    decreases |s|
  {
    if '.' !in s then [s]
    else SplitDot(s[..LastDot(s)]) + [s[LastDot(s) + 1..]]
  }

  /** `'.'.join(s.split('.')) == s`. */
  lemma {:induction false} JoinSplitDot(s: string)
    ensures Join(SplitDot(s), ".") == s
    decreases |s|
  {
    if '.' in s {
      var i := LastDot(s);
      JoinSplitDot(s[..i]);
      JoinSnoc(SplitDot(s[..i]), s[i + 1..], ".");
      assert s == s[..i] + "." + s[i + 1..];
    }
  }

  /** `^\d+(\.\d+)*$`: every dot-separated segment is a non-empty run of
      decimal digits. */
  predicate IsTaskId(s: string) {
    forall k :: 0 <= k < |SplitDot(s)| ==> SplitDot(s)[k] != [] && AllDigits(SplitDot(s)[k])
  }

  /** The same grammar read character by character: digits and dots,
      starting and ending with a digit, never two dots in a row. */
  predicate DottedDigits(s: string) {
    && s != [] && IsDigit(s[0]) && IsDigit(s[|s| - 1])
    && (forall i :: 0 <= i < |s| ==> IsDigit(s[i]) || s[i] == '.')
    && (forall i :: 0 <= i < |s| - 1 && s[i] == '.' ==> s[i + 1] != '.')
  }

  /** The segment reading and the character reading of the ID grammar
      agree. */
  lemma {:induction false} TaskIdShape(s: string)
    ensures IsTaskId(s) <==> DottedDigits(s)
    decreases |s|
  {
    if '.' !in s {
      assert SplitDot(s) == [s];
      if IsTaskId(s) {
        assert SplitDot(s)[0] == s;
      }
      if DottedDigits(s) {
        forall i | 0 <= i < |s| ensures IsDigit(s[i]) {
          assert s[i] != '.';
        }
      }
    } else {
      var i := LastDot(s);
      var a, b := s[..i], s[i + 1..];
      TaskIdShape(a);
      assert SplitDot(s) == SplitDot(a) + [b];
      SegmentsSnoc(a, b, SplitDot(a));
      DottedSnoc(s, i);
    }
  }

  /** IsTaskId of `a.b`, where b holds no dot, in terms of a and b. */
  lemma SegmentsSnoc(a: string, b: string, ps: seq<string>)
    requires ps == SplitDot(a)
    ensures (forall k :: 0 <= k < |ps + [b]| ==> (ps + [b])[k] != [] && AllDigits((ps + [b])[k]))
      <==> IsTaskId(a) && b != [] && AllDigits(b)
  {
    if IsTaskId(a) && b != [] && AllDigits(b) {
      forall k | 0 <= k < |ps + [b]| ensures (ps + [b])[k] != [] && AllDigits((ps + [b])[k]) {
        if k < |ps| {
          assert (ps + [b])[k] == ps[k];
        }
      }
    }
    if forall k :: 0 <= k < |ps + [b]| ==> (ps + [b])[k] != [] && AllDigits((ps + [b])[k]) {
      assert (ps + [b])[|ps|] == b;
      forall k | 0 <= k < |ps| ensures ps[k] != [] && AllDigits(ps[k]) {
        assert (ps + [b])[k] == ps[k];
      }
    }
  }

  /** DottedDigits of s, split at its last dot i. */
  lemma DottedSnoc(s: string, i: nat)
    requires i < |s| && s[i] == '.' && '.' !in s[i + 1..]
    ensures DottedDigits(s) <==> DottedDigits(s[..i]) && s[i + 1..] != [] && AllDigits(s[i + 1..])
  {
    var a, b := s[..i], s[i + 1..];
    if DottedDigits(s) {
      assert i > 0;
      assert s[i - 1] != '.';
      assert i < |s| - 1;
      forall t | 0 <= t < |b| ensures IsDigit(b[t]) {
        assert b[t] == s[i + 1 + t];
        assert b[t] != '.';
      }
    }
    if DottedDigits(a) && b != [] && AllDigits(b) {
      assert s[|s| - 1] == b[|b| - 1];
      assert s[i - 1] == a[|a| - 1];
      forall t | 0 <= t < |s| ensures IsDigit(s[t]) || s[t] == '.' {
        if t < i { assert s[t] == a[t]; }
        else if t > i { assert s[t] == b[t - i - 1]; }
      }
      forall t | 0 <= t < |s| - 1 && s[t] == '.' ensures s[t + 1] != '.' {
        if t < i - 1 { assert s[t] == a[t] && s[t + 1] == a[t + 1]; }
        else if t >= i { assert s[t + 1] == b[t - i]; }
      }
    }
  }

  /** validate_task_id: a non-empty string that, once stripped, is digit
      groups joined by single dots. */
  function ValidateTaskId(taskId: string): (ok: bool)
    ensures ok <==> DottedDigits(Strip(taskId))
  {
    TaskIdShape(Strip(taskId));
    taskId != [] && IsTaskId(Strip(taskId))
  }

  /** _is_sub_task: the ID holds a dot. */
  predicate IsSubTask(id: string) {
    '.' in id
  }

  /** _get_parent_task_id: the ID without its last segment, or None for a
      top-level ID. */
  function ParentId(id: string): (r: Option<string>)
    ensures r.Some? <==> IsSubTask(id)
    ensures r.Some? ==> r.value == id[..LastDot(id)]
  {
    if !IsSubTask(id) then None
    else
      var parts := SplitDot(id);
      assert parts[..|parts| - 1] == SplitDot(id[..LastDot(id)]);
      JoinSplitDot(id[..LastDot(id)]);
      Some(Join(parts[..|parts| - 1], "."))
  }

  /** The last dot is the one with no dot after it. */
  lemma LastDotAt(s: string, i: nat)
    requires i < |s| && s[i] == '.' && '.' !in s[i + 1..]
    ensures LastDot(s) == i
  {
  }

  /** The parent of `p.n` is p. */
  lemma ParentOfChild(p: string, n: string)
    requires '.' !in n
    ensures ParentId(p + "." + n) == Some(p)
  {
    var s := p + "." + n;
    assert s[|p|] == '.';
    assert s[|p| + 1..] == n;
    LastDotAt(s, |p|);
    assert s[..|p|] == p;
  }

  /** The number of dots in s (`s.count('.')`). */
  function DotCount(s: string): (n: nat)
    ensures n <= |s|
  {
    if s == [] then 0 else DotCount(s[..|s| - 1]) + (if s[|s| - 1] == '.' then 1 else 0)
  }

  /** The condition _get_sub_tasks and _has_sub_tasks test: t starts with
      `id.` and has exactly one more dot. */
  predicate IsDirectChild(t: string, id: string) {
    StartsWith(t, id + ".") && DotCount(t) == DotCount(id) + 1
  }

  lemma {:induction false} DotCountConcat(a: string, b: string)
    ensures DotCount(a + b) == DotCount(a) + DotCount(b)
    decreases |b|
  {
    if b != [] {
      assert (a + b)[..|a + b| - 1] == a + b[..|b| - 1];
      DotCountConcat(a, b[..|b| - 1]);
    } else {
      assert a + b == a;
    }
  }

  lemma {:induction false} NoDotCount(s: string)
    ensures DotCount(s) == 0 <==> '.' !in s
    decreases |s|
  {
    if s != [] {
      NoDotCount(s[..|s| - 1]);
      if '.' in s[..|s| - 1] {
        var j :| 0 <= j < |s| - 1 && s[..|s| - 1][j] == '.';
        assert s[j] == '.';
      }
      if '.' in s && s[|s| - 1] != '.' {
        var j :| 0 <= j < |s| && s[j] == '.';
        assert s[..|s| - 1][j] == '.';
      }
    }
  }

  lemma DotCountDotted(id: string, n: string)
    ensures DotCount(id + "." + n) == DotCount(id) + 1 + DotCount(n)
  {
    DotCountConcat(id + ".", n);
    DotCountConcat(id, ".");
    assert DotCount(".") == 1 by {
      assert "."[..0] == [];
    }
  }

  /** The direct-sub-task test says the same as "the parent is id". */
  lemma DirectChildIffParent(t: string, id: string)
    ensures IsDirectChild(t, id) <==> ParentId(t) == Some(id)
  {
    if IsDirectChild(t, id) {
      DirectChildHasParent(t, id);
    }
    if ParentId(t) == Some(id) {
      ParentMakesDirectChild(t, id);
    }
  }

  lemma DirectChildHasParent(t: string, id: string)
    requires IsDirectChild(t, id)
    ensures ParentId(t) == Some(id)
  {
    var n := t[|id| + 1..];
    assert t == id + "." + n;
    DotCountDotted(id, n);
    NoDotCount(n);
    ParentOfChild(id, n);
  }

  lemma ParentMakesDirectChild(t: string, id: string)
    requires ParentId(t) == Some(id)
    ensures IsDirectChild(t, id)
  {
    var i := LastDot(t);
    var n := t[i + 1..];
    assert t == id + "." + n;
    DotCountDotted(id, n);
    NoDotCount(n);
    assert t[..|id + "."|] == id + ".";
  }

  // ------------------------------------------------------------- sort key

  /** `[int(part) for part in parts]` on digit segments. */
  function SegmentValues(parts: seq<string>): (key: seq<nat>)
    requires forall k :: 0 <= k < |parts| ==> AllDigits(parts[k])
    ensures |key| == |parts|
  {
    if parts == [] then []
    else
      assert forall k :: 0 <= k < |parts| - 1 ==> parts[..|parts| - 1][k] == parts[k];
      assert AllDigits(parts[|parts| - 1]);
      SegmentValues(parts[..|parts| - 1]) + [DigitsValue(parts[|parts| - 1])]
  }

  /** _sort_key: the ID's segments as numbers. */
  function SortKey(id: string): (key: seq<nat>)
    requires IsTaskId(id)
    ensures |key| == |SplitDot(id)| && key != []
  {
    SegmentValues(SplitDot(id))
  }

  /** Python's `<` on lists of integers: lexicographic, a proper prefix
      first. */
  predicate KeyLess(a: seq<nat>, b: seq<nat>) {
    if a == [] then b != []
    else if b == [] then false
    else if a[0] != b[0] then a[0] < b[0]
    else KeyLess(a[1..], b[1..])
  }

  lemma {:induction false} KeyLessIrreflexive(a: seq<nat>)
    ensures !KeyLess(a, a)
  {
    if a != [] {
      KeyLessIrreflexive(a[1..]);
    }
  }

  lemma {:induction false} KeyLessTransitive(a: seq<nat>, b: seq<nat>, c: seq<nat>)
    requires KeyLess(a, b) && KeyLess(b, c)
    ensures KeyLess(a, c)
  {
    if a != [] && a[0] == b[0] && b[0] == c[0] {
      KeyLessTransitive(a[1..], b[1..], c[1..]);
    }
  }

  /** Different keys are ordered one way or the other. */
  lemma {:induction false} KeyLessTotal(a: seq<nat>, b: seq<nat>)
    requires a != b
    ensures KeyLess(a, b) || KeyLess(b, a)
  {
    if a != [] && b != [] && a[0] == b[0] {
      assert a == [a[0]] + a[1..] && b == [b[0]] + b[1..];
      KeyLessTotal(a[1..], b[1..]);
    }
  }

  /** A key comes before its extensions. */
  lemma {:induction false} KeyLessPrefix(k: seq<nat>, n: nat)
    ensures KeyLess(k, k + [n])
  {
    if k != [] {
      assert (k + [n])[1..] == k[1..] + [n];
      KeyLessPrefix(k[1..], n);
    }
  }

  /** Keys that differ only in their last number are ordered by it. */
  lemma {:induction false} KeyLessLast(k: seq<nat>, m: nat, n: nat)
    ensures KeyLess(k + [m], k + [n]) <==> m < n
  {
    if k != [] {
      assert (k + [m])[1..] == k[1..] + [m];
      assert (k + [n])[1..] == k[1..] + [n];
      KeyLessLast(k[1..], m, n);
    }
  }

  /** The key of `p.n` extends the key of p by the number n. */
  lemma SortKeyChild(p: string, n: nat)
    requires IsTaskId(p)
    ensures IsTaskId(p + "." + NatToString(n))
    ensures SortKey(p + "." + NatToString(n)) == SortKey(p) + [n]
  {
    var d := NatToString(n);
    var s := p + "." + d;
    assert forall t :: 0 <= t < |d| ==> d[t] != '.';
    ParentOfChild(p, d);
    assert s[..LastDot(s)] == p;
    var i := LastDot(s);
    assert s[i + 1..] == d by {
      assert i == |p|;
    }
    assert SplitDot(s) == SplitDot(p) + [d];
    SegmentsSnoc(p, d, SplitDot(p));
    NatToStringValue(n);
    assert SplitDot(s)[..|SplitDot(s)| - 1] == SplitDot(p);
  }

  /** The key of a one-segment ID n is [n]. */
  lemma SortKeyRoot(n: nat)
    ensures IsTaskId(NatToString(n)) && SortKey(NatToString(n)) == [n]
  {
    var d := NatToString(n);
    assert forall t :: 0 <= t < |d| ==> d[t] != '.';
    assert SplitDot(d) == [d];
    NatToStringValue(n);
    assert SplitDot(d)[..0] == [];
  }
}
