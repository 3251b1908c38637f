/** The task-list commands of TaskParser that change or query the parsed
    tasks: setting one or many statuses (with the sub-task guard and the
    parent's automatic promotion), editing a task's dependencies and
    requirements, and listing the ready tasks and the next task. */
module TaskList {
  import opened Text
  import opened Tasks
  import opened TaskRules
  import opened Progress

  // ------------------------------------------------------ specification

  /** The tasks with one task's status replaced. */
  function WithStatus(tasks: TaskMap, id: string, st: TaskStatus): (r: TaskMap)
    requires id in tasks
    ensures r.Keys == tasks.Keys
    ensures r[id] == Task(tasks[id].id, tasks[id].description, st, tasks[id].requirements, tasks[id].dependencies)
    ensures forall k :: k in tasks && k != id ==> r[k] == tasks[k]
  {
    tasks[id := tasks[id].(status := st)]
  }

  /** The parent that keeps a pending sub-task from leaving pending: it is
      a known task that is pending or done. */
  function Blocker(tasks: TaskMap, id: string, st: TaskStatus): (r: Option<string>)
    requires id in tasks
    ensures r.Some? <==> tasks[id].status == Pending && st != Pending && !ParentAllows(tasks, id)
    ensures r.Some? ==> ParentId(id) == Some(r.value) && r.value in tasks && HoldsBack(tasks[r.value].status)
  {
    var p := ParentId(id);
    if tasks[id].status == Pending && st != Pending && p.Some? && p.value != []
       && p.value in tasks && HoldsBack(tasks[p.value].status)
    then Some(p.value)
    else None
  }

  /** The parent of id, when id has one the promotion applies to. */
  function PromotedParent(id: string): (r: Option<string>)
    ensures r.Some? ==> ParentId(id) == r && r.value != [] && r.value != id
  {
    var p := ParentId(id);
    if p.Some? && p.value != [] then p else None
  }

  /** _auto_update_parent_status of the parent of id, if any. */
  function PromoteParentOf(tasks: TaskMap, id: string): TaskMap {
    match PromotedParent(id)
    case Some(p) => Promote(tasks, p)
    case None => tasks
  }

  /** What set_status reports. */
  datatype StatusOutcome =
    | NotFound
    | InvalidStatus
    | Blocked(parent: string, parentStatus: TaskStatus)
    | Changed(from: TaskStatus, to: TaskStatus)

  /** set_status's checks in its order: the task exists, the status is one
      of the five, and the parent does not block the change. */
  function SetStatusOutcome(tasks: TaskMap, id: string, value: string): (r: StatusOutcome)
    ensures r.NotFound? <==> id !in tasks
    ensures r.InvalidStatus? <==> id in tasks && ParseStatus(value).None?
    ensures r.Blocked? ==> id in tasks && ParseStatus(value).Some?
                           && Blocker(tasks, id, ParseStatus(value).value) == Some(r.parent)
                           && r.parentStatus == tasks[r.parent].status
    ensures r.Changed? ==> id in tasks && r.from == tasks[id].status && ParseStatus(value) == Some(r.to)
                           && Blocker(tasks, id, r.to).None?
  {
    if id !in tasks then NotFound
    else match ParseStatus(value)
      case None => InvalidStatus
      case Some(st) =>
        match Blocker(tasks, id, st)
        case Some(p) => Blocked(p, tasks[p].status)
        case None => Changed(tasks[id].status, st)
  }

  /** The tasks after set_status: after a change, the new status and then
      the promotion of the parent. */
  function SetStatusTasks(tasks: TaskMap, id: string, value: string): TaskMap {
    match SetStatusOutcome(tasks, id, value)
    case Changed(_, to) => PromoteParentOf(WithStatus(tasks, id, to), id)
    case _ => tasks
  }

  /** The sub-tasks of a parent depend only on which IDs exist. */
  lemma SubTaskSetKeys(a: TaskMap, b: TaskMap, id: string)
    requires a.Keys == b.Keys
    ensures SubTaskSet(a, id) == SubTaskSet(b, id)
  {
  }

  /** set_status changes a task only when it reports the change; then the
      task has its new status, the parent alone may change besides it, and
      the parent changes only to a status its direct sub-tasks all share;
      no pending sub-task leaves pending under a pending or done parent. */
  lemma SetStatusEffect(tasks: TaskMap, id: string, value: string)
    ensures var r := SetStatusTasks(tasks, id, value);
      && r.Keys == tasks.Keys
      && (forall k :: k in tasks ==> r[k] == tasks[k].(status := r[k].status))
      && (!SetStatusOutcome(tasks, id, value).Changed? ==> r == tasks)
  {
  }

  lemma SetStatusChanged(tasks: TaskMap, id: string, value: string)
    requires SetStatusOutcome(tasks, id, value).Changed?
    ensures var o := SetStatusOutcome(tasks, id, value);
            var r := SetStatusTasks(tasks, id, value);
      && r[id].status == o.to
      && !(o.from == Pending && o.to != Pending && !ParentAllows(tasks, id))
      && (forall k :: k in tasks && k != id && Some(k) != PromotedParent(id) ==> r[k] == tasks[k])
      && (forall p :: PromotedParent(id) == Some(p) && p in tasks && r[p].status != tasks[p].status ==>
            SubTaskSet(tasks, p) != {} && AllHave(WithStatus(tasks, id, o.to), SubTaskSet(tasks, p), r[p].status))
  {
    var o := SetStatusOutcome(tasks, id, value);
    var mid := WithStatus(tasks, id, o.to);
    match PromotedParent(id)
    case None =>
    case Some(p) =>
      SubTaskSetKeys(mid, tasks, p);
  }

  // ---------------------------------------------------------- bulk

  /** What set_status_bulk reports. */
  datatype BulkOutcome =
    | BulkInvalidStatus
    | BulkNotFound(id: string)
    | BulkUpdated(updated: seq<string>)

  /** One turn of the status loop of set_status_bulk: the task x takes the
      status and is listed as updated unless the guard, judged against the
      tasks as updated so far, blocks it. */
  function BulkNext(prev: (TaskMap, seq<string>), x: string, st: TaskStatus): (TaskMap, seq<string>)
    requires x in prev.0
  {
    if Blocker(prev.0, x, st).Some? then prev
    else (WithStatus(prev.0, x, st), prev.1 + [x])
  }

  /** The status loop of set_status_bulk over ids, in order. */
  function BulkApply(tasks: TaskMap, ids: seq<string>, st: TaskStatus): (r: (TaskMap, seq<string>))
    requires forall i :: 0 <= i < |ids| ==> ids[i] in tasks
    ensures r.0.Keys == tasks.Keys
    decreases |ids|
  {
    if ids == [] then (tasks, [])
    else BulkNext(BulkApply(tasks, ids[..|ids| - 1], st), ids[|ids| - 1], st)
  }

  /** What the status loop has done after the ids in done. */
  predicate BulkDone(tasks: TaskMap, done: seq<string>, st: TaskStatus, r: (TaskMap, seq<string>))
    requires r.0.Keys == tasks.Keys
  {
    && (forall k :: k in tasks ==> r.0[k] == if k in r.1 then tasks[k].(status := st) else tasks[k])
    && (forall x :: x in r.1 ==> x in done)
    && (forall x :: x in done && x in tasks && x !in r.1 ==> tasks[x].status == Pending && st != Pending)
  }

  /** One more turn keeps BulkDone. */
  lemma BulkStep(tasks: TaskMap, done: seq<string>, prev: (TaskMap, seq<string>), x: string, st: TaskStatus)
    requires prev.0.Keys == tasks.Keys && x in tasks
    requires BulkDone(tasks, done, st, prev)
    ensures BulkNext(prev, x, st).0.Keys == tasks.Keys
    ensures BulkDone(tasks, done + [x], st, BulkNext(prev, x, st))
  {
    var r := BulkNext(prev, x, st);
    assert forall y :: y in done + [x] <==> y in done || y == x;
    if Blocker(prev.0, x, st).Some? {
      assert x !in prev.1 ==> tasks[x] == prev.0[x];
    } else {
      assert r.0[x] == tasks[x].(status := st);
      assert forall y :: y in r.1 <==> y in prev.1 || y == x;
    }
  }

  /** BulkDone holds after every prefix of the ids. */
  lemma {:induction false} BulkApplyDone(tasks: TaskMap, ids: seq<string>, st: TaskStatus)
    requires forall i :: 0 <= i < |ids| ==> ids[i] in tasks
    ensures BulkDone(tasks, ids, st, BulkApply(tasks, ids, st))
    decreases |ids|
  {
    if ids != [] {
      var pre := ids[..|ids| - 1];
      assert pre + [ids[|ids| - 1]] == ids;
      BulkApplyDone(tasks, pre, st);
      BulkStep(tasks, pre, BulkApply(tasks, pre, st), ids[|ids| - 1], st);
    }
  }

  /** The loop sets the status of exactly the updated tasks and changes
      nothing else; a task of ids it skipped is one that was pending. */
  lemma BulkApplySpec(tasks: TaskMap, ids: seq<string>, st: TaskStatus)
    requires forall i :: 0 <= i < |ids| ==> ids[i] in tasks
    ensures var r := BulkApply(tasks, ids, st);
      && (forall k :: k in tasks ==> r.0[k] == if k in r.1 then tasks[k].(status := st) else tasks[k])
      && (forall x :: x in r.1 ==> x in ids)
      && (forall x :: x in ids && x !in r.1 ==> tasks[x].status == Pending && st != Pending)
  {
    BulkApplyDone(tasks, ids, st);
  }

  /** The parents set_status_bulk re-examines: those of the updated
      sub-tasks. */
  function ParentsOf(updated: seq<string>): set<string> {
    set u | u in updated && PromotedParent(u).Some? :: PromotedParent(u).value
  }

  function BulkOutcomeOf(tasks: TaskMap, ids: seq<string>, value: string): (r: BulkOutcome)
    ensures r.BulkInvalidStatus? <==> ParseStatus(value).None?
    ensures r.BulkNotFound? ==> ParseStatus(value).Some? && FirstMissing(ids, tasks) == Some(r.id)
    ensures r.BulkUpdated? ==> ParseStatus(value).Some? && forall i :: 0 <= i < |ids| ==> ids[i] in tasks
  {
    match ParseStatus(value)
    case None => BulkInvalidStatus
    case Some(st) =>
      match FirstMissing(ids, tasks)
      case Some(m) => BulkNotFound(m)
      case None => BulkUpdated(BulkApply(tasks, ids, st).1)
  }

  // ------------------------------------------------------ loop helpers

  /** The dependency loop: every dependency is known and done or in review. */
  method DepsMet(tasks: TaskMap, deps: seq<string>) returns (ok: bool)
    ensures ok == DepsSatisfied(tasks, deps)
  {
    for i := 0 to |deps|
      invariant DepsSatisfied(tasks, deps[..i])
    {
      if deps[i] !in tasks || !SatisfiesDependency(tasks[deps[i]].status) {
        return false;
      }
    }
    assert deps[..|deps|] == deps;
    return true;
  }

  /** The first refused added dependency, checked one at a time. */
  method FindBadDependency(tasks: TaskMap, id: string, adds: seq<string>) returns (r: Option<UpdateError>)
    ensures r == FirstBadDependency(tasks, id, adds)
  {
    for i := 0 to |adds|
      invariant BadDependencyFrom(tasks, id, adds, i) == BadDependencyFrom(tasks, id, adds, 0)
    {
      var dep := adds[i];
      if dep !in tasks {
        return Some(MissingDependency(dep));
      }
      if dep == id {
        return Some(SelfDependency(dep));
      }
      if id in tasks[dep].dependencies {
        return Some(CircularDependency(dep));
      }
    }
    return None;
  }

  /** The first of items missing from list. */
  method FindAbsent(list: seq<string>, items: seq<string>) returns (r: Option<string>)
    ensures r == FirstAbsent(list, items)
  {
    for i := 0 to |items|
      invariant AbsentFrom(list, items, i) == AbsentFrom(list, items, 0)
    {
      if items[i] !in list {
        return Some(items[i]);
      }
    }
    return None;
  }

  /** `for x in adds: if x not in list: list.append(x)`. */
  method AppendMissing(list: seq<string>, adds: seq<string>) returns (r: seq<string>)
    ensures r == AddAll(list, adds)
  {
    r := list;
    for i := 0 to |adds|
      invariant AddAll(r, adds[i..]) == AddAll(list, adds)
    {
      assert adds[i..][1..] == adds[i + 1..];
      if adds[i] !in r {
        r := r + [adds[i]];
      }
    }
    assert adds[|adds|..] == [];
  }

  /** `for x in removes: if x in list: list.remove(x)`. */
  method RemoveEach(list: seq<string>, removes: seq<string>) returns (r: seq<string>)
    ensures r == RemoveAll(list, removes)
  {
    r := list;
    for i := 0 to |removes|
      invariant RemoveAll(r, removes[i..]) == RemoveAll(list, removes)
    {
      assert removes[i..][1..] == removes[i + 1..];
      if removes[i] in r {
        r := RemoveFirst(r, removes[i]);
      }
    }
    assert removes[|removes|..] == [];
  }

  /** The checks of update_task on an existing task, in its order. */
  method CheckUpdate(tasks: TaskMap, id: string, e: Edit) returns (r: Option<UpdateError>)
    requires id in tasks
    ensures r == CheckEdit(tasks, id, e)
  {
    var task := tasks[id];
    if e.clearDependencies && (e.addDependencies != [] || e.removeDependencies != []) {
      return Some(ClearWithEditDependencies);
    }
    if e.clearRequirements && (e.addRequirements != [] || e.removeRequirements != []) {
      return Some(ClearWithEditRequirements);
    }
    var bad := FindBadDependency(tasks, id, e.addDependencies);
    if bad.Some? {
      return bad;
    }
    var absent := FindAbsent(task.dependencies, e.removeDependencies);
    if absent.Some? {
      return Some(NotADependency(absent.value));
    }
    absent := FindAbsent(task.requirements, e.removeRequirements);
    if absent.Some? {
      return Some(NotARequirement(absent.value));
    }
    return None;
  }

  /** The edits of update_task: each list is cleared, or extended and then
      reduced. */
  method EditedTask(task: Task, e: Edit) returns (r: Task)
    ensures r == task.(dependencies := EditList(task.dependencies, e.addDependencies, e.removeDependencies, e.clearDependencies),
                       requirements := EditList(task.requirements, e.addRequirements, e.removeRequirements, e.clearRequirements))
  {
    var deps: seq<string> := [];
    if !e.clearDependencies {
      deps := AppendMissing(task.dependencies, e.addDependencies);
      deps := RemoveEach(deps, e.removeDependencies);
    }
    var reqs: seq<string> := [];
    if !e.clearRequirements {
      reqs := AppendMissing(task.requirements, e.addRequirements);
      reqs := RemoveEach(reqs, e.removeRequirements);
    }
    return task.(dependencies := deps, requirements := reqs);
  }

  /** The status loop of set_status_bulk. */
  method ApplyBulk(tasks: TaskMap, ids: seq<string>, st: TaskStatus) returns (r: TaskMap, updated: seq<string>)
    requires WellFormed(tasks)
    requires forall i :: 0 <= i < |ids| ==> ids[i] in tasks
    ensures (r, updated) == BulkApply(tasks, ids, st) && WellFormed(r)
  {
    r, updated := tasks, [];
    for i := 0 to |ids|
      invariant r.Keys == tasks.Keys && WellFormed(r)
      invariant (r, updated) == BulkApply(tasks, ids[..i], st)
    {
      assert ids[..i + 1][..i] == ids[..i];
      if Blocker(r, ids[i], st).None? {
        r := WithStatus(r, ids[i], st);
        updated := updated + [ids[i]];
      }
    }
    assert ids[..|ids|] == ids;
  }

  /** The parents of the updated sub-tasks, gathered into a set. */
  method CollectParents(updated: seq<string>) returns (parents: set<string>)
    ensures parents == ParentsOf(updated)
  {
    parents := {};
    for j := 0 to |updated|
      invariant parents == ParentsOf(updated[..j])
    {
      assert updated[..j + 1] == updated[..j] + [updated[j]];
      var p := PromotedParent(updated[j]);
      if p.Some? {
        parents := parents + {p.value};
      }
    }
    assert updated[..|updated|] == updated;
  }

  /** Collect the keys of tasks that are ready to start. */
  method CollectReady(tasks: TaskMap) returns (ids: seq<string>)
    ensures NoDup(ids)
    ensures forall x :: x in ids <==> x in ReadySet(tasks)
  {
    ids := [];
    var left := tasks.Keys;
    while left != {}
      invariant left <= tasks.Keys && NoDup(ids)
      invariant forall x :: x in ids <==> x in tasks && x !in left && IsReady(tasks, x)
      decreases left
    {
      var k :| k in left;
      if tasks[k].status == Pending {
        var ok := DepsMet(tasks, tasks[k].dependencies);
        if ok && ParentAllows(tasks, k) {
          ids := ids + [k];
        }
      }
      left := left - {k};
    }
  }

  /** Collect the keys of tasks get_next_task considers. */
  method CollectCandidates(tasks: TaskMap) returns (ids: seq<string>)
    ensures NoDup(ids)
    ensures forall x :: x in ids <==> x in CandidateSet(tasks)
  {
    ids := [];
    var left := tasks.Keys;
    while left != {}
      invariant left <= tasks.Keys && NoDup(ids)
      invariant forall x :: x in ids <==> x in tasks && x !in left && IsCandidate(tasks, x)
      decreases left
    {
      var k :| k in left;
      if tasks[k].status == Pending || tasks[k].status == InProgress {
        var ok := DepsMet(tasks, tasks[k].dependencies);
        if ok && ParentAllows(tasks, k) {
          ids := ids + [k];
        }
      }
      left := left - {k};
    }
  }

  /** Keep the candidates whose parent is in progress. */
  method FilterPreferred(tasks: TaskMap, cands: seq<string>) returns (pref: seq<string>)
    requires NoDup(cands)
    ensures NoDup(pref)
    ensures forall x :: x in pref <==> x in cands && UnderActiveParent(tasks, x)
  {
    pref := [];
    for i := 0 to |cands|
      invariant NoDup(pref)
      invariant forall x :: x in pref <==> x in cands[..i] && UnderActiveParent(tasks, x)
    {
      assert cands[..i + 1] == cands[..i] + [cands[i]];
      if UnderActiveParent(tasks, cands[i]) {
        pref := pref + [cands[i]];
      }
    }
    assert cands[..|cands|] == cands;
  }

  /** Collect the direct sub-tasks of id. */
  method CollectSubTasks(tasks: TaskMap, id: string) returns (subs: seq<string>)
    ensures NoDup(subs)
    ensures forall x :: x in subs <==> x in SubTaskSet(tasks, id)
  {
    subs := [];
    var left := tasks.Keys;
    while left != {}
      invariant left <= tasks.Keys && NoDup(subs)
      invariant forall x :: x in subs <==> x in tasks && x !in left && IsDirectChild(x, id)
      decreases left
    {
      var k :| k in left;
      if IsDirectChild(k, id) {
        subs := subs + [k];
      }
      left := left - {k};
    }
  }

  /** The pool get_next_task chooses from: the preferred candidates when
      there are any, else all candidates. */
  method CollectPool(tasks: TaskMap) returns (pool: seq<string>)
    requires WellFormed(tasks)
    ensures NoDup(pool) && AllIds(pool)
    ensures forall x :: x in pool <==> x in NextPool(tasks)
  {
    var cands := CollectCandidates(tasks);
    var pref := FilterPreferred(tasks, cands);
    var preferredSet := set id | id in CandidateSet(tasks) && UnderActiveParent(tasks, id);
    assert forall x :: x in pref <==> x in preferredSet;
    if pref != [] {
      assert pref[0] in preferredSet;
      pool := pref;
    } else {
      assert preferredSet == {};
      pool := cands;
    }
    assert AllIds(pool) by {
      forall i | 0 <= i < |pool| ensures IsTaskId(pool[i]) {
        assert pool[i] in CandidateSet(tasks);
      }
    }
  }

  /** The head of a list sorted by key has no greater key than any member. */
  lemma SortedFirstLeast(s: seq<string>)
    requires AllIds(s) && SortedById(s) && s != []
    ensures forall o :: o in s ==> !KeyLess(SortKey(o), SortKey(s[0]))
  {
    forall o | o in s ensures !KeyLess(SortKey(o), SortKey(s[0])) {
      var k :| 0 <= k < |s| && s[k] == o;
      if k == 0 {
        KeyLessIrreflexive(SortKey(o));
      }
    }
  }

  /** Two sub-tasks with different statuses leave no status to share. */
  lemma NotUniform(tasks: TaskMap, ids: set<string>, a: string, b: string)
    requires a in ids && b in ids && a in tasks && b in tasks && tasks[a].status != tasks[b].status
    ensures UniformStatus(tasks, ids).None?
  {
  }

  /** The status the listed sub-tasks of parent all share, found by
      comparing each with the first. */
  method SharedStatus(tasks: TaskMap, parent: string, subs: seq<string>) returns (st: Option<TaskStatus>)
    requires forall x :: x in subs <==> x in SubTaskSet(tasks, parent)
    ensures st == UniformStatus(tasks, SubTaskSet(tasks, parent))
  {
    var subSet := SubTaskSet(tasks, parent);
    if subs == [] {
      assert subSet == {};
      return None;
    }
    assert forall i :: 0 <= i < |subs| ==> subs[i] in subSet;
    var first := tasks[subs[0]].status;
    var same := true;
    for i := 0 to |subs|
      invariant same <==> forall j :: 0 <= j < i ==> tasks[subs[j]].status == first
    {
      if tasks[subs[i]].status != first {
        same := false;
      }
    }
    if same {
      assert AllHave(tasks, subSet, first);
      return Some(first);
    } else {
      var j :| 0 <= j < |subs| && tasks[subs[j]].status != first;
      NotUniform(tasks, subSet, subs[0], subs[j]);
      return None;
    }
  }

  // ------------------------------------------------------------ parser

  /** The parsed task file and its progress store. Reading and rewriting
      the Markdown file is not modelled: the constructor takes the parsed
      tasks and the stored progress data. */
  class TaskParser {
    const filePath: string
    const tracker: ProgressTracker
    var tasks: TaskMap

    predicate Valid()
      reads this
    {
      WellFormed(tasks)
    }

    /** __init__: parse, then recount the statistics of the file. */
    constructor(filePath: string, parsed: TaskMap, stored: map<string, FileRecord>)
      requires WellFormed(parsed)
      ensures Valid() && this.filePath == filePath && tasks == parsed && fresh(tracker)
      ensures tracker.data == Recount(stored, filePath, parsed)
    {
      this.filePath := filePath;
      tasks := parsed;
      tracker := new ProgressTracker(stored);
      new;
      tracker.CalculateStatistics(filePath, parsed);
    }

    /** _has_sub_tasks. */
    method HasSubTasks(id: string) returns (b: bool)
      ensures b <==> SubTaskSet(tasks, id) != {}
    {
      var left := tasks.Keys;
      while left != {}
        invariant left <= tasks.Keys
        invariant forall x :: x in tasks && x !in left ==> !IsDirectChild(x, id)
        decreases left
      {
        var k :| k in left;
        if IsDirectChild(k, id) {
          assert k in SubTaskSet(tasks, id);
          return true;
        }
        left := left - {k};
      }
      return false;
    }

    /** _get_sub_tasks: the direct sub-tasks in sort-key order. */
    method GetSubTasks(id: string) returns (subs: seq<string>)
      requires Valid()
      ensures NoDup(subs) && AllIds(subs) && SortedById(subs)
      ensures forall x :: x in subs <==> x in SubTaskSet(tasks, id)
    {
      var found := CollectSubTasks(tasks, id);
      assert AllIds(found) by {
        forall i | 0 <= i < |found| ensures IsTaskId(found[i]) {
          assert found[i] in SubTaskSet(tasks, id);
        }
      }
      SortIdsSpec(found);
      subs := SortIds(found);
    }

    /** _auto_update_parent_status. */
    method AutoUpdateParentStatus(parent: string)
      requires Valid()
      modifies this
      ensures Valid()
      ensures tasks == Promote(old(tasks), parent)
    {
      if parent !in tasks {
        return;
      }
      var subs := GetSubTasks(parent);
      var st := SharedStatus(tasks, parent, subs);
      if st.Some? && tasks[parent].status != st.value {
        tasks := tasks[parent := tasks[parent].(status := st.value)];
      }
    }

    /** set_status: check, change, recount the statistics, then promote
        the parent. The statistics are taken before the promotion. */
    method SetStatus(id: string, value: string) returns (outcome: StatusOutcome)
      requires Valid()
      modifies this, tracker
      ensures Valid()
      ensures outcome == SetStatusOutcome(old(tasks), id, value)
      ensures tasks == SetStatusTasks(old(tasks), id, value)
      ensures outcome.Changed? ==>
                tracker.data == Recount(old(tracker.data), filePath, WithStatus(old(tasks), id, outcome.to))
      ensures !outcome.Changed? ==> tracker.data == old(tracker.data)
    {
      if id !in tasks {
        return NotFound;
      }
      var st := ParseStatus(value);
      if st.None? {
        return InvalidStatus;
      }
      var blocker := Blocker(tasks, id, st.value);
      if blocker.Some? {
        return Blocked(blocker.value, tasks[blocker.value].status);
      }
      outcome := Changed(tasks[id].status, st.value);
      tasks := WithStatus(tasks, id, st.value);
      tracker.CalculateStatistics(filePath, tasks);
      var p := PromotedParent(id);
      if p.Some? {
        AutoUpdateParentStatus(p.value);
      }
    }

    /** set_status_bulk: check the status and every ID, run the status
        loop, recount once, then promote the parents of the updated tasks.
        The parents are a Python set, visited in an order the model leaves
        open; parentOrder is the order taken. */
    method SetStatusBulk(ids: seq<string>, value: string) returns (outcome: BulkOutcome, parentOrder: seq<string>)
      requires Valid()
      modifies this, tracker
      ensures Valid()
      ensures outcome == BulkOutcomeOf(old(tasks), ids, value)
      ensures !outcome.BulkUpdated? ==> tasks == old(tasks) && tracker.data == old(tracker.data)
      ensures outcome.BulkUpdated? ==>
                var mid := BulkApply(old(tasks), ids, ParseStatus(value).value).0;
                && tracker.data == Recount(old(tracker.data), filePath, mid)
                && NoDup(parentOrder)
                && (forall p :: p in parentOrder <==> p in ParentsOf(outcome.updated))
                && tasks == PromoteAll(mid, parentOrder)
    {
      parentOrder := [];
      var st := ParseStatus(value);
      if st.None? {
        return BulkInvalidStatus, [];
      }
      var missing := FindMissing(ids, tasks);
      if missing.Some? {
        return BulkNotFound(missing.value), [];
      }
      var updated;
      tasks, updated := ApplyBulk(tasks, ids, st.value);
      outcome := BulkUpdated(updated);
      tracker.CalculateStatistics(filePath, tasks);
      var parents := CollectParents(updated);

      parentOrder := PromoteParents(parents);
    }

    /** The loop over the set of parents of set_status_bulk: each parent is
        promoted once, in the order order. */
    method PromoteParents(parents: set<string>) returns (order: seq<string>)
      requires Valid()
      modifies this
      ensures Valid()
      ensures NoDup(order) && (forall p :: p in order <==> p in parents)
      ensures tasks == PromoteAll(old(tasks), order)
    {
      order := [];
      var left := parents;
      while left != {}
        invariant left <= parents && Valid() && tasks.Keys == old(tasks).Keys
        invariant NoDup(order)
        invariant forall p :: p in order <==> p in parents && p !in left
        invariant tasks == PromoteAll(old(tasks), order)
        decreases left
      {
        var p :| p in left;
        AutoUpdateParentStatus(p);
        assert (order + [p])[..|order|] == order;
        order := order + [p];
        left := left - {p};
      }
    }

    /** update_task: every check first, then the edits of both lists, then
        the statistics recount. */
    method UpdateTask(id: string, e: Edit) returns (r: Result<Task, UpdateError>)
      requires Valid()
      modifies this, tracker
      ensures Valid()
      ensures r == ApplyEdit(old(tasks), id, e)
      ensures r.Ok? ==> tasks == old(tasks)[id := r.value]
                        && tracker.data == Recount(old(tracker.data), filePath, tasks)
      ensures r.Err? ==> tasks == old(tasks) && tracker.data == old(tracker.data)
    {
      if id !in tasks {
        return Err(TaskNotFound(id));
      }
      var problem := CheckUpdate(tasks, id, e);
      if problem.Some? {
        return Err(problem.value);
      }
      var updated := EditedTask(tasks[id], e);
      tasks := tasks[id := updated];
      tracker.CalculateStatistics(filePath, tasks);
      return Ok(updated);
    }

    /** ready_tasks: the ready tasks in sort-key order. */
    method ReadyTasks() returns (ready: seq<string>)
      requires Valid()
      ensures NoDup(ready) && AllIds(ready) && SortedById(ready)
      ensures forall x :: x in ready <==> x in ReadySet(tasks)
    {
      var found := CollectReady(tasks);
      assert AllIds(found) by {
        forall i | 0 <= i < |found| ensures IsTaskId(found[i]) {
          assert found[i] in ReadySet(tasks);
        }
      }
      SortIdsSpec(found);
      ready := SortIds(found);
    }

    /** get_next_task: none when no task is a candidate; otherwise one of
        the preferred pool with no smaller sort key in that pool. */
    method GetNextTask() returns (next: Option<string>)
      requires Valid()
      ensures next.None? <==> CandidateSet(tasks) == {}
      ensures next.Some? ==> next.value in NextPool(tasks)
                             && forall o :: o in NextPool(tasks) ==> !KeyLess(SortKey(o), SortKey(next.value))
    {
      var pool := CollectPool(tasks);
      if pool == [] {
        assert forall x :: x !in NextPool(tasks);
        assert NextPool(tasks) == {};
        return None;
      }
      assert pool[0] in NextPool(tasks);
      SortIdsSpec(pool);
      var sorted := SortIds(pool);
      SortedFirstLeast(sorted);
      next := Some(sorted[0]);
    }
  }
}
