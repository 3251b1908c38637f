/** The rules the task-list commands apply to the parsed task dictionary:
    ordering by the numeric sort key, readiness of a task, the promotion of
    a parent whose sub-tasks all share one status, and the add / remove
    editing of dependency and requirement lists. */
module TaskRules {
  import opened Text
  import opened Tasks

  type TaskMap = map<string, Task>

  /** What the Markdown parser produces: every key is a dotted-digit task
      ID and names the task it maps to. */
  predicate WellFormed(tasks: TaskMap) {
    forall id :: id in tasks ==> IsTaskId(id) && tasks[id].id == id
  }

  predicate NoDup(s: seq<string>) {
    forall i, j :: 0 <= i < j < |s| ==> s[i] != s[j]
  }

  // ------------------------------------------------------ sort by key

  predicate AllIds(s: seq<string>) {
    forall i :: 0 <= i < |s| ==> IsTaskId(s[i])
  }

  /** Ordered by _sort_key: no later ID has a smaller key. */
  predicate SortedById(s: seq<string>)
    requires AllIds(s)
  {
    forall i, j :: 0 <= i < j < |s| ==> !KeyLess(SortKey(s[j]), SortKey(s[i]))
  }

  /** Insert x after every element whose key is not greater than its own. */
  function InsertById(s: seq<string>, x: string): (r: seq<string>)
    requires AllIds(s) && IsTaskId(x)
    ensures multiset(r) == multiset(s) + multiset{x}
    ensures AllIds(r)
  {
    if s == [] then [x]
    else if KeyLess(SortKey(x), SortKey(s[0])) then [x] + s
    else
      assert s == [s[0]] + s[1..];
      [s[0]] + InsertById(s[1..], x)
  }

  lemma {:induction false} InsertSorted(s: seq<string>, x: string)
    requires AllIds(s) && IsTaskId(x) && SortedById(s)
    ensures SortedById(InsertById(s, x))
  {
    if s == [] {
    } else if KeyLess(SortKey(x), SortKey(s[0])) {
      InsertFrontSorted(s, x);
    } else {
      assert SortedById(s[1..]) by {
        forall i, j | 0 <= i < j < |s[1..]| ensures !KeyLess(SortKey(s[1..][j]), SortKey(s[1..][i])) {
          assert s[1..][j] == s[j + 1] && s[1..][i] == s[i + 1];
        }
      }
      InsertSorted(s[1..], x);
      InsertBehindBound(s, x);
      SortedCons(s[0], InsertById(s[1..], x));
    }
  }

  /** An ID with a smaller key than the first goes in front. */
  lemma InsertFrontSorted(s: seq<string>, x: string)
    requires AllIds(s) && IsTaskId(x) && SortedById(s) && s != [] && KeyLess(SortKey(x), SortKey(s[0]))
    ensures SortedById([x] + s)
  {
    forall j | 0 <= j < |s| ensures !KeyLess(SortKey(s[j]), SortKey(x)) {
      if j > 0 {
        KeyLessOrder(SortKey(x), SortKey(s[0]), SortKey(s[j]));
      } else {
        KeyLessAsym(SortKey(x), SortKey(s[0]));
      }
    }
    SortedCons(x, s);
  }

  /** A head whose key no element of a sorted tail undercuts keeps the
      sequence sorted. */
  lemma SortedCons(h: string, tail: seq<string>)
    requires IsTaskId(h) && AllIds(tail) && SortedById(tail)
    requires forall j :: 0 <= j < |tail| ==> !KeyLess(SortKey(tail[j]), SortKey(h))
    ensures AllIds([h] + tail) && SortedById([h] + tail)
  {
    var r := [h] + tail;
    forall i, j | 0 <= i < j < |r| ensures !KeyLess(SortKey(r[j]), SortKey(r[i])) {
      assert r[j] == tail[j - 1];
      if i > 0 {
        assert r[i] == tail[i - 1];
      }
    }
  }

  /** The elements of s after its first do not undercut it, and nor does an
      x that does not. */
  lemma InsertBehindBound(s: seq<string>, x: string)
    requires AllIds(s) && IsTaskId(x) && SortedById(s) && s != [] && !KeyLess(SortKey(x), SortKey(s[0]))
    ensures forall j :: 0 <= j < |InsertById(s[1..], x)| ==> !KeyLess(SortKey(InsertById(s[1..], x)[j]), SortKey(s[0]))
  {
    var tail := InsertById(s[1..], x);
    forall j | 0 <= j < |tail| ensures !KeyLess(SortKey(tail[j]), SortKey(s[0])) {
      assert tail[j] in multiset(tail);
      if tail[j] != x {
        assert tail[j] in multiset(s[1..]);
        var m :| 0 <= m < |s[1..]| && s[1..][m] == tail[j];
        assert s[m + 1] == tail[j];
      }
    }
  }

  /** `a <= b <= c` in key order, one step strict, gives not `c < a`. */
  lemma KeyLessOrder(a: seq<nat>, b: seq<nat>, c: seq<nat>)
    requires KeyLess(a, b) && !KeyLess(c, b)
    ensures !KeyLess(c, a)
  {
    if KeyLess(c, a) {
      KeyLessTransitive(c, a, b);
    }
  }

  lemma KeyLessAsym(a: seq<nat>, b: seq<nat>)
    requires KeyLess(a, b)
    ensures !KeyLess(b, a)
  {
    if KeyLess(b, a) {
      KeyLessTransitive(a, b, a);
      KeyLessIrreflexive(a);
    }
  }

  /** sorted(ids, key=_sort_key): a stable insertion of the IDs in their
      order. */
  function SortIds(s: seq<string>): (r: seq<string>)
    requires AllIds(s)
    ensures multiset(r) == multiset(s) && AllIds(r)
  {
    if s == [] then []
    else
      var init := s[..|s| - 1];
      assert s == init + [s[|s| - 1]];
      InsertById(SortIds(init), s[|s| - 1])
  }

  lemma {:induction false} SortIdsSorted(s: seq<string>)
    requires AllIds(s)
    ensures SortedById(SortIds(s))
  {
    if s != [] {
      SortIdsSorted(s[..|s| - 1]);
      InsertSorted(SortIds(s[..|s| - 1]), s[|s| - 1]);
    }
  }

  /** A sequence with no repeated element has no element counted twice. */
  lemma {:induction false} NoDupCount(s: seq<string>)
    requires NoDup(s)
    ensures forall x :: multiset(s)[x] <= 1
  {
    if s != [] {
      assert NoDup(s[1..]) by {
        forall i, j | 0 <= i < j < |s[1..]| ensures s[1..][i] != s[1..][j] {
          assert s[1..][i] == s[i + 1] && s[1..][j] == s[j + 1];
        }
      }
      NoDupCount(s[1..]);
      assert s == [s[0]] + s[1..];
      assert s[0] !in s[1..];
    }
  }

  lemma {:induction false} CountNoDup(s: seq<string>)
    requires forall x :: multiset(s)[x] <= 1
    ensures NoDup(s)
  {
    if s != [] {
      assert s == [s[0]] + s[1..];
      assert multiset(s) == multiset{s[0]} + multiset(s[1..]);
      assert forall x :: multiset(s[1..])[x] <= multiset(s)[x];
      CountNoDup(s[1..]);
      assert s[0] !in multiset(s[1..]);
      forall i, j | 0 <= i < j < |s| ensures s[i] != s[j] {
        if i == 0 {
          assert s[j] == s[1..][j - 1];
        } else {
          assert s[i] == s[1..][i - 1] && s[j] == s[1..][j - 1];
        }
      }
    }
  }

  /** Sorting keeps the IDs and their distinctness. */
  lemma SortIdsSpec(s: seq<string>)
    requires AllIds(s) && NoDup(s)
    ensures SortedById(SortIds(s)) && NoDup(SortIds(s))
    ensures forall x :: x in SortIds(s) <==> x in s
  {
    SortIdsSorted(s);
    NoDupCount(s);
    CountNoDup(SortIds(s));
    forall x ensures x in SortIds(s) <==> x in s {
      assert x in SortIds(s) <==> x in multiset(SortIds(s));
    }
  }

  // ------------------------------------------------------------ readiness

  /** Every dependency exists and is done or in review. */
  predicate DepsSatisfied(tasks: TaskMap, deps: seq<string>) {
    forall i :: 0 <= i < |deps| ==> deps[i] in tasks && SatisfiesDependency(tasks[deps[i]].status)
  }

  /** The parent (when it is a known task) does not hold the task back:
      `if parent_id and parent_id in self.tasks` with the parent pending or
      done blocks it. */
  predicate ParentAllows(tasks: TaskMap, id: string) {
    var p := ParentId(id);
    !(p.Some? && p.value != [] && p.value in tasks && HoldsBack(tasks[p.value].status))
  }

  /** ready_tasks keeps a task exactly when this holds. */
  predicate IsReady(tasks: TaskMap, id: string) {
    && id in tasks && tasks[id].status == Pending
    && DepsSatisfied(tasks, tasks[id].dependencies)
    && ParentAllows(tasks, id)
  }

  /** get_next_task's candidates: pending or in progress, with the same
      dependency and parent conditions. */
  predicate IsCandidate(tasks: TaskMap, id: string) {
    && id in tasks && (tasks[id].status == Pending || tasks[id].status == InProgress)
    && DepsSatisfied(tasks, tasks[id].dependencies)
    && ParentAllows(tasks, id)
  }

  /** A sub-task whose parent is in progress. */
  predicate UnderActiveParent(tasks: TaskMap, id: string) {
    var p := ParentId(id);
    p.Some? && p.value != [] && p.value in tasks && tasks[p.value].status == InProgress
  }

  function ReadySet(tasks: TaskMap): set<string> {
    set id | id in tasks && IsReady(tasks, id)
  }

  function CandidateSet(tasks: TaskMap): set<string> {
    set id | id in tasks && IsCandidate(tasks, id)
  }

  /** The IDs get_next_task chooses among: the candidates under an
      in-progress parent when there are any, else all candidates. */
  function NextPool(tasks: TaskMap): (pool: set<string>)
    ensures pool <= CandidateSet(tasks)
    ensures pool == {} <==> CandidateSet(tasks) == {}
  {
    var preferred := set id | id in CandidateSet(tasks) && UnderActiveParent(tasks, id);
    if preferred != {} then preferred else CandidateSet(tasks)
  }

  /** A ready task is a candidate, and a candidate is ready unless it is in
      progress. */
  lemma ReadyAreCandidates(tasks: TaskMap, id: string)
    ensures IsReady(tasks, id) <==> IsCandidate(tasks, id) && tasks[id].status == Pending
  {
  }

  // ------------------------------------------------------------ promotion

  /** The direct sub-tasks of id among the tasks. */
  function SubTaskSet(tasks: TaskMap, id: string): set<string> {
    set t | t in tasks && IsDirectChild(t, id)
  }

  predicate AllHave(tasks: TaskMap, ids: set<string>, st: TaskStatus) {
    forall c :: c in ids ==> c in tasks && tasks[c].status == st
  }

  /** `len(set(sub_statuses)) == 1`: the one status all of ids share. */
  function UniformStatus(tasks: TaskMap, ids: set<string>): (r: Option<TaskStatus>)
    ensures r.Some? ==> ids != {} && AllHave(tasks, ids, r.value)
    ensures forall st :: ids != {} && AllHave(tasks, ids, st) ==> r == Some(st)
  {
    UniformUnique(tasks, ids);
    if ids == {} then None
    else if AllHave(tasks, ids, Pending) then Some(Pending)
    else if AllHave(tasks, ids, InProgress) then Some(InProgress)
    else if AllHave(tasks, ids, Done) then Some(Done)
    else if AllHave(tasks, ids, Review) then Some(Review)
    else if AllHave(tasks, ids, Deferred) then Some(Deferred)
    else None
  }

  /** A non-empty set shares at most one status. */
  lemma UniformUnique(tasks: TaskMap, ids: set<string>)
    ensures forall s, t :: ids != {} && AllHave(tasks, ids, s) && AllHave(tasks, ids, t) ==> s == t
  {
    if ids != {} {
      var c :| c in ids;
      forall s, t | AllHave(tasks, ids, s) && AllHave(tasks, ids, t) ensures s == t {
        assert tasks[c].status == s && tasks[c].status == t;
      }
    }
  }

  /** _auto_update_parent_status: a known parent whose direct sub-tasks all
      share one status takes that status. */
  function Promote(tasks: TaskMap, parent: string): (r: TaskMap)
    ensures r.Keys == tasks.Keys
    ensures forall k :: k in tasks && k != parent ==> r[k] == tasks[k]
    ensures forall k :: k in tasks ==> r[k] == tasks[k].(status := r[k].status)
    ensures parent in tasks && r[parent].status != tasks[parent].status ==>
              SubTaskSet(tasks, parent) != {} && AllHave(tasks, SubTaskSet(tasks, parent), r[parent].status)
    ensures forall st :: parent in tasks && SubTaskSet(tasks, parent) != {} && AllHave(tasks, SubTaskSet(tasks, parent), st)
                         ==> r[parent].status == st
  {
    if parent !in tasks then tasks
    else
      var st := UniformStatus(tasks, SubTaskSet(tasks, parent));
      if st.Some? && tasks[parent].status != st.value then
        tasks[parent := tasks[parent].(status := st.value)]
      else tasks
  }

  /** Promoting the parents in order, one after the other. */
  function PromoteAll(tasks: TaskMap, parents: seq<string>): (r: TaskMap)
    ensures r.Keys == tasks.Keys
    ensures forall k :: k in tasks ==> r[k] == tasks[k].(status := r[k].status)
    ensures forall k :: k in tasks && k !in parents ==> r[k] == tasks[k]
  {
    if parents == [] then tasks
    else Promote(PromoteAll(tasks, parents[..|parents| - 1]), parents[|parents| - 1])
  }

  // ----------------------------------------------------------- list edits

  /** `for x in adds: if x not in list: list.append(x)`. */
  function AddAll(list: seq<string>, adds: seq<string>): (r: seq<string>)
    ensures |list| <= |r| && r[..|list|] == list
    ensures forall x :: x in r <==> x in list || x in adds
    decreases |adds|
  {
    if adds == [] then list
    else
      var next := if adds[0] in list then list else list + [adds[0]];
      var r := AddAll(next, adds[1..]);
      assert r[..|list|] == next[..|list|];
      assert forall x :: x in adds <==> x == adds[0] || x in adds[1..];
      r
  }

  lemma {:induction false} AddAllNoDup(list: seq<string>, adds: seq<string>)
    requires NoDup(list)
    ensures NoDup(AddAll(list, adds))
    decreases |adds|
  {
    if adds != [] {
      var next := if adds[0] in list then list else list + [adds[0]];
      AddAllNoDup(next, adds[1..]);
    }
  }

  /** `list.remove(x)`: the first occurrence goes, everything else stays. */
  function RemoveFirst(list: seq<string>, x: string): (r: seq<string>)
    ensures multiset(r) == multiset(list) - multiset{x}
    ensures forall y :: y != x ==> (y in r <==> y in list)
  {
    if list == [] then []
    else if list[0] == x then
      assert list == [x] + list[1..];
      list[1..]
    else
      assert list == [list[0]] + list[1..];
      [list[0]] + RemoveFirst(list[1..], x)
  }

  /** On a list without repeats, remove() deletes the one occurrence. */
  lemma {:induction false} RemoveFirstNoDup(list: seq<string>, x: string)
    requires NoDup(list)
    ensures NoDup(RemoveFirst(list, x)) && x !in RemoveFirst(list, x)
  {
    if list != [] {
      assert NoDup(list[1..]) by {
        forall i, j | 0 <= i < j < |list| - 1 ensures list[1..][i] != list[1..][j] {
          assert list[1..][i] == list[i + 1] && list[1..][j] == list[j + 1];
        }
      }
      assert list[0] !in list[1..];
      if list[0] != x {
        RemoveFirstNoDup(list[1..], x);
      }
    }
  }

  /** `for x in removes: if x in list: list.remove(x)`. */
  function RemoveAll(list: seq<string>, removes: seq<string>): (r: seq<string>)
    ensures forall x :: x in r ==> x in list
    decreases |removes|
  {
    if removes == [] then list
    else
      var next := if removes[0] in list then RemoveFirst(list, removes[0]) else list;
      assert forall x :: x in next ==> x in list by {
        if removes[0] in list {
          forall x | x in next ensures x in list {
            assert multiset(next)[x] <= multiset(list)[x];
          }
        }
      }
      RemoveAll(next, removes[1..])
  }

  /** On a list without repeats, removing deletes exactly the removed
      items. */
  lemma {:induction false} RemoveAllNoDup(list: seq<string>, removes: seq<string>)
    requires NoDup(list)
    ensures NoDup(RemoveAll(list, removes))
    ensures forall x :: x in RemoveAll(list, removes) <==> x in list && x !in removes
    decreases |removes|
  {
    if removes != [] {
      var next := if removes[0] in list then RemoveFirst(list, removes[0]) else list;
      if removes[0] in list {
        RemoveFirstNoDup(list, removes[0]);
      }
      assert forall x :: x in next <==> x in list && x != removes[0];
      RemoveAllNoDup(next, removes[1..]);
      assert forall x :: x in removes <==> x == removes[0] || x in removes[1..];
    }
  }

  /** The edit update_task applies to one list: cleared, or added to and
      then removed from. */
  function EditList(list: seq<string>, adds: seq<string>, removes: seq<string>, clear: bool): seq<string> {
    if clear then [] else RemoveAll(AddAll(list, adds), removes)
  }

  /** With no repeats to begin with, the edited list has no repeats and
      holds exactly the old and added items that were not removed. */
  lemma EditListSpec(list: seq<string>, adds: seq<string>, removes: seq<string>, clear: bool)
    requires NoDup(list)
    ensures NoDup(EditList(list, adds, removes, clear))
    ensures clear ==> EditList(list, adds, removes, clear) == []
    ensures !clear ==> forall x :: x in EditList(list, adds, removes, clear) <==> (x in list || x in adds) && x !in removes
  {
    if !clear {
      AddAllNoDup(list, adds);
      RemoveAllNoDup(AddAll(list, adds), removes);
    }
  }

  // ---------------------------------------------------- update validation

  /** Why update_task refuses an edit, in the order it checks. */
  datatype UpdateError =
    | TaskNotFound(id: string)
    | ClearWithEditDependencies
    | ClearWithEditRequirements
    | MissingDependency(dep: string)
    | SelfDependency(dep: string)
    | CircularDependency(dep: string)
    | NotADependency(dep: string)
    | NotARequirement(req: string)

  /** The options of update_task; an empty list is an option not given. */
  datatype Edit = Edit(
    addDependencies: seq<string>,
    addRequirements: seq<string>,
    removeDependencies: seq<string>,
    removeRequirements: seq<string>,
    clearDependencies: bool,
    clearRequirements: bool)

  /** A dependency the task may take on: it exists, is not the task itself
      and does not already depend on the task. */
  predicate AcceptableDependency(tasks: TaskMap, id: string, dep: string) {
    dep in tasks && dep != id && id !in tasks[dep].dependencies
  }

  /** The three checks on one added dependency, in the source's order. */
  function DependencyProblem(tasks: TaskMap, id: string, dep: string): (r: Option<UpdateError>)
    ensures r.None? <==> AcceptableDependency(tasks, id, dep)
  {
    if dep !in tasks then Some(MissingDependency(dep))
    else if dep == id then Some(SelfDependency(dep))
    else if id in tasks[dep].dependencies then Some(CircularDependency(dep))
    else None
  }

  /** The index of the first added dependency from k on that is refused,
      or |adds| when there is none. */
  function BadDependencyFrom(tasks: TaskMap, id: string, adds: seq<string>, k: nat): (i: nat)
    requires k <= |adds|
    ensures k <= i <= |adds|
    ensures forall j :: k <= j < i ==> AcceptableDependency(tasks, id, adds[j])
    ensures i < |adds| ==> !AcceptableDependency(tasks, id, adds[i])
    decreases |adds| - k
  {
    if k == |adds| || !AcceptableDependency(tasks, id, adds[k]) then k
    else BadDependencyFrom(tasks, id, adds, k + 1)
  }

  /** The refusal of the first added dependency that is refused. */
  function FirstBadDependency(tasks: TaskMap, id: string, adds: seq<string>): (r: Option<UpdateError>)
    ensures r.None? <==> forall i :: 0 <= i < |adds| ==> AcceptableDependency(tasks, id, adds[i])
    ensures r.Some? ==> exists i :: 0 <= i < |adds| && r == DependencyProblem(tasks, id, adds[i])
                                    && forall j :: 0 <= j < i ==> AcceptableDependency(tasks, id, adds[j])
  {
    var i := BadDependencyFrom(tasks, id, adds, 0);
    if i < |adds| then DependencyProblem(tasks, id, adds[i]) else None
  }

  /** The index of the first of items from k on that is not in list, or
      |items| when there is none. */
  function AbsentFrom(list: seq<string>, items: seq<string>, k: nat): (i: nat)
    requires k <= |items|
    ensures k <= i <= |items|
    ensures forall j :: k <= j < i ==> items[j] in list
    ensures i < |items| ==> items[i] !in list
    decreases |items| - k
  {
    if k == |items| || items[k] !in list then k
    else AbsentFrom(list, items, k + 1)
  }

  /** The first of items that is not in list. */
  function FirstAbsent(list: seq<string>, items: seq<string>): (r: Option<string>)
    ensures r.None? <==> forall i :: 0 <= i < |items| ==> items[i] in list
    ensures r.Some? ==> exists i :: 0 <= i < |items| && items[i] == r.value && r.value !in list
                                    && forall j :: 0 <= j < i ==> items[j] in list
  {
    var i := AbsentFrom(list, items, 0);
    if i < |items| then Some(items[i]) else None
  }

  /** update_task's checks, in its order, on an existing task. */
  function CheckEdit(tasks: TaskMap, id: string, e: Edit): (r: Option<UpdateError>)
    requires id in tasks
  {
    var task := tasks[id];
    if e.clearDependencies && (e.addDependencies != [] || e.removeDependencies != []) then
      Some(ClearWithEditDependencies)
    else if e.clearRequirements && (e.addRequirements != [] || e.removeRequirements != []) then
      Some(ClearWithEditRequirements)
    else if FirstBadDependency(tasks, id, e.addDependencies).Some? then
      FirstBadDependency(tasks, id, e.addDependencies)
    else if FirstAbsent(task.dependencies, e.removeDependencies).Some? then
      Some(NotADependency(FirstAbsent(task.dependencies, e.removeDependencies).value))
    else if FirstAbsent(task.requirements, e.removeRequirements).Some? then
      Some(NotARequirement(FirstAbsent(task.requirements, e.removeRequirements).value))
    else None
  }

  /** An edit update_task carries out: no clear next to an add or remove
      of the same list, every added dependency acceptable, and every
      removed item present. */
  predicate EditAllowed(tasks: TaskMap, id: string, e: Edit)
    requires id in tasks
  {
    && !(e.clearDependencies && (e.addDependencies != [] || e.removeDependencies != []))
    && !(e.clearRequirements && (e.addRequirements != [] || e.removeRequirements != []))
    && (forall i :: 0 <= i < |e.addDependencies| ==> AcceptableDependency(tasks, id, e.addDependencies[i]))
    && (forall i :: 0 <= i < |e.removeDependencies| ==> e.removeDependencies[i] in tasks[id].dependencies)
    && (forall i :: 0 <= i < |e.removeRequirements| ==> e.removeRequirements[i] in tasks[id].requirements)
  }

  /** The task update_task writes back, or why it refuses. */
  function ApplyEdit(tasks: TaskMap, id: string, e: Edit): (r: Result<Task, UpdateError>)
  {
    if id !in tasks then Err(TaskNotFound(id))
    else match CheckEdit(tasks, id, e)
      case Some(err) => Err(err)
      case None =>
        var t := tasks[id];
        Ok(t.(dependencies := EditList(t.dependencies, e.addDependencies, e.removeDependencies, e.clearDependencies),
              requirements := EditList(t.requirements, e.addRequirements, e.removeRequirements, e.clearRequirements)))
  }

  /** update_task succeeds exactly on existing tasks and allowed edits. */
  lemma ApplyEditOk(tasks: TaskMap, id: string, e: Edit)
    ensures ApplyEdit(tasks, id, e).Ok? <==> id in tasks && EditAllowed(tasks, id, e)
  {
  }

  /** With no clear, only the old and the added items can be in an edited
      list. */
  lemma EditListMembers(list: seq<string>, adds: seq<string>, removes: seq<string>, clear: bool)
    ensures forall x :: x in EditList(list, adds, removes, clear) ==> x in list || x in adds
  {
  }

  /** A successful edit changes only the two lists; every dependency it
      leaves is an old one or an acceptable added one. */
  lemma ApplyEditResult(tasks: TaskMap, id: string, e: Edit)
    requires ApplyEdit(tasks, id, e).Ok?
    ensures id in tasks
    ensures var t := ApplyEdit(tasks, id, e).value;
      && t == tasks[id].(dependencies := t.dependencies, requirements := t.requirements)
      && t.dependencies == EditList(tasks[id].dependencies, e.addDependencies, e.removeDependencies, e.clearDependencies)
      && t.requirements == EditList(tasks[id].requirements, e.addRequirements, e.removeRequirements, e.clearRequirements)
      && (forall d :: d in t.dependencies ==> d in tasks[id].dependencies || AcceptableDependency(tasks, id, d))
  {
    ApplyEditOk(tasks, id, e);
    var before := tasks[id];
    EditListMembers(before.dependencies, e.addDependencies, e.removeDependencies, e.clearDependencies);
  }
}
