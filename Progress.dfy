/** The progress store of the task-list tool: per task file, the status
    statistics and the list of tracking conditions ("complete these tasks
    before this time"), with the duration syntax those conditions use.
    Times are whole seconds on one clock; the current time is a parameter. */
module Progress {
  import opened Text
  import opened Tasks

  // ------------------------------------------------------------- durations

  /** The unit suffixes of a duration; Plain is a bare number of seconds. */
  datatype Unit = Hours | Minutes | Seconds | Plain

  function UnitSeconds(u: Unit): nat {
    match u
    case Hours => 3600
    case Minutes => 60
    case _ => 1
  }

  function UnitSuffix(u: Unit): string {
    match u
    case Hours => "h"
    case Minutes => "m"
    case Seconds => "s"
    case Plain => ""
  }

  function Scaled(v: Option<int>, factor: int): (r: Option<int>)
    ensures r.Some? <==> v.Some?
    ensures v.Some? ==> r.value == v.value * factor
  {
    if v.Some? then Some(v.value * factor) else None
  }

  /** The number part of a stripped duration and the seconds per unit its
      final letter gives (a bare number is in seconds). */
  function SplitUnit(t: string): (r: (string, nat))
    ensures r.1 == 1 || r.1 == 60 || r.1 == 3600
    ensures |r.0| <= |t|
  {
    if t == [] then (t, 1)
    else if t[|t| - 1] == 'h' then (t[..|t| - 1], 3600)
    else if t[|t| - 1] == 'm' then (t[..|t| - 1], 60)
    else if t[|t| - 1] == 's' then (t[..|t| - 1], 1)
    else (t, 1)
  }

  /** _parse_duration: the number of seconds a duration stands for; None
      stands for the ValueError raised for any other text. */
  function ParseDuration(d: string): (r: Option<int>)
    ensures Strip(d) == [] ==> r.None?
    ensures var (number, unit) := SplitUnit(Strip(d));
      && (r.Some? <==> ParseInt(number).Some?)
      && (r.Some? ==> r.value == ParseInt(number).value * unit)
  {
    var split := SplitUnit(Strip(d));
    Scaled(ParseInt(split.0), split.1)
  }

  /** Digits followed by a unit suffix split into the digits and the unit. */
  lemma SplitUnitOf(digits: string, u: Unit)
    requires digits != [] && AllDigits(digits)
    ensures Strip(digits + UnitSuffix(u)) == digits + UnitSuffix(u)
    ensures SplitUnit(digits + UnitSuffix(u)) == (digits, UnitSeconds(u))
  {
    var t := digits + UnitSuffix(u);
    assert t[0] == digits[0];
    if u == Plain {
      assert t == digits;
      assert IsDigit(t[|t| - 1]);
    } else {
      assert t[..|t| - 1] == digits;
    }
    StripUnchanged(t);
  }

  /** The duration `N` followed by a unit suffix is N times the unit. */
  lemma DurationRoundTrip(n: nat, u: Unit)
    ensures ParseDuration(NatToString(n) + UnitSuffix(u)) == Some(n * UnitSeconds(u))
  {
    var digits := NatToString(n);
    ParseIntOfNat(n);
    SplitUnitOf(digits, u);
  }

  /** Any other final letter makes the duration invalid. */
  lemma UnknownUnitRejected(d: string)
    requires Strip(d) != []
    requires var c := Strip(d)[|Strip(d)| - 1]; c != 'h' && c != 'm' && c != 's' && !IsDigit(c)
    ensures ParseDuration(d) == None
  {
    StripIdempotent(d);
  }

  /** A duration is an integer literal as int() reads it (sign, digit
      groups, whitespace before a unit letter) followed by a unit, inside
      whitespace: "2h", " -1m", "1_000s", "90 m" and "007" are accepted. */
  lemma DurationOf(p: string, sign: string, gs: seq<string>, sp: string, u: Unit, q: string)
    requires AllSpace(p) && AllSpace(sp) && AllSpace(q) && IsSign(sign) && DigitGroupList(gs)
    requires u == Plain ==> sp == []
    ensures ParseDuration(p + (sign + Join(gs, "_") + sp + UnitSuffix(u)) + q)
         == Some(Signed(sign, DigitsValue(GroupDigits(gs))) * UnitSeconds(u))
  {
    JoinGroups(gs);
    SignedLiteral(sign, Join(gs, "_"));
    DurationSplit(p, sign + Join(gs, "_"), sp, u, q);
    ParseIntLiteral("", sign, gs, sp);
  }

  /** Such a text strips to the literal and its unit, and splits there. */
  lemma DurationSplit(p: string, x: string, sp: string, u: Unit, q: string)
    requires x != [] && !IsSpace(x[0]) && IsDigit(x[|x| - 1])
    requires AllSpace(p) && AllSpace(sp) && AllSpace(q) && (u == Plain ==> sp == [])
    ensures SplitUnit(Strip(p + (x + sp + UnitSuffix(u)) + q)) == ("" + x + sp, UnitSeconds(u))
  {
    assert "" + x + sp == x + sp;
    UnitText(x, sp, u);
    StripSplit(p, x + sp + UnitSuffix(u), q, ("" + x + sp, UnitSeconds(u)));
  }

  lemma StripSplit(p: string, t: string, q: string, r: (string, nat))
    requires AllSpace(p) && AllSpace(q) && t != [] && !IsSpace(t[0]) && !IsSpace(t[|t| - 1])
    requires SplitUnit(t) == r
    ensures SplitUnit(Strip(p + t + q)) == r
  {
    StripPadded(p, t, q);
  }

  /** A literal, whitespace and a unit suffix split back into the first two and the unit. */
  lemma UnitText(x: string, sp: string, u: Unit)
    requires x != [] && !IsSpace(x[0]) && IsDigit(x[|x| - 1]) && AllSpace(sp)
    requires u == Plain ==> sp == []
    ensures var t := x + sp + UnitSuffix(u);
      && t != [] && !IsSpace(t[0]) && !IsSpace(t[|t| - 1])
      && SplitUnit(t) == (x + sp, UnitSeconds(u))
  {
    var t := x + sp + UnitSuffix(u);
    assert t[0] == x[0];
    if u == Plain {
      assert t == x == x + sp;
    } else {
      assert t[|t| - 1] == UnitSuffix(u)[0];
      assert t[..|t| - 1] == x + sp;
    }
  }

  /** Conversely, every accepted duration has that form, so "xh", "1.5h",
      "h" and "2 hours" are refused. */
  lemma DurationShape(d: string) returns (sign: string, gs: seq<string>, sp: string, u: Unit)
    requires ParseDuration(d).Some?
    ensures IsSign(sign) && DigitGroupList(gs) && AllSpace(sp) && (u == Plain ==> sp == [])
    ensures Strip(d) == sign + Join(gs, "_") + sp + UnitSuffix(u)
    ensures ParseDuration(d).value == Signed(sign, DigitsValue(GroupDigits(gs))) * UnitSeconds(u)
  {
    var t := Strip(d);
    var number := SplitUnit(t).0;
    sign, gs := ParseIntShape(number);
    sp, u := UnitSplit(t, sign + Join(gs, "_"));
  }

  /** A stripped text whose number part strips to x is x, whitespace and a unit. */
  lemma UnitSplit(t: string, x: string) returns (sp: string, u: Unit)
    requires t != [] && !IsSpace(t[0]) && !IsSpace(t[|t| - 1])
    requires Strip(SplitUnit(t).0) == x && x != []
    ensures AllSpace(sp) && (u == Plain ==> sp == [])
    ensures t == x + sp + UnitSuffix(u) && SplitUnit(t).1 == UnitSeconds(u)
  {
    var number := SplitUnit(t).0;
    u := if t[|t| - 1] == 'h' then Hours else if t[|t| - 1] == 'm' then Minutes
         else if t[|t| - 1] == 's' then Seconds else Plain;
    assert t == number + UnitSuffix(u);
    var a, b := StripSlice(number);
    assert number[0] == t[0];
    assert a == 0;
    sp := number[b..];
    assert number == number[a..b] + sp;
    if u == Plain {
      assert number[|number| - 1] == t[|t| - 1];
      assert b == |number|;
    }
  }

  // ------------------------------------------------------------ statistics

  /** The per-file statistics block (the percentage is not modelled). */
  datatype Stats = Stats(
    total: nat, completed: nat,
    done: nat, inProgress: nat, pending: nat, review: nat, deferred: nat)

  const NoStats := Stats(0, 0, 0, 0, 0, 0, 0)

  predicate HasStatus(tasks: map<string, Task>, k: string, st: TaskStatus) {
    k in tasks && tasks[k].status == st
  }

  /** The number of tasks among `keys` that have status st. */
  function CountIn(tasks: map<string, Task>, keys: set<string>, st: TaskStatus): nat {
    |set k | k in keys && HasStatus(tasks, k, st)|
  }

  /** Taking one more task into the count raises the count of its status
      only. */
  lemma CountInAdd(tasks: map<string, Task>, keys: set<string>, k: string, st: TaskStatus)
    requires k in tasks && k !in keys
    ensures CountIn(tasks, keys + {k}, st) == CountIn(tasks, keys, st) + (if tasks[k].status == st then 1 else 0)
  {
    var before := set j | j in keys && HasStatus(tasks, j, st);
    var after := set j | j in keys + {k} && HasStatus(tasks, j, st);
    if tasks[k].status == st {
      assert after == before + {k};
    } else {
      assert after == before;
    }
  }

  /** Every task has exactly one of the five statuses. */
  lemma {:induction false} CountsPartition(tasks: map<string, Task>, keys: set<string>)
    requires keys <= tasks.Keys
    ensures CountIn(tasks, keys, Pending) + CountIn(tasks, keys, InProgress) + CountIn(tasks, keys, Done)
            + CountIn(tasks, keys, Review) + CountIn(tasks, keys, Deferred) == |keys|
    decreases |keys|
  {
    if keys != {} {
      var k :| k in keys;
      var rest := keys - {k};
      CountsPartition(tasks, rest);
      assert keys == rest + {k};
      CountInAdd(tasks, rest, k, Pending);
      CountInAdd(tasks, rest, k, InProgress);
      CountInAdd(tasks, rest, k, Done);
      CountInAdd(tasks, rest, k, Review);
      CountInAdd(tasks, rest, k, Deferred);
    }
  }

  /** The statistics of a set of tasks. */
  function StatsOf(tasks: map<string, Task>): (r: Stats)
    ensures r.total == |tasks|
    ensures r.pending + r.inProgress + r.done + r.review + r.deferred == r.total
    ensures r.completed == r.done + r.review + r.deferred
  {
    var c := (st: TaskStatus) => CountIn(tasks, tasks.Keys, st);
    CountsPartition(tasks, tasks.Keys);
    Stats(|tasks|, c(Done) + c(Review) + c(Deferred),
          c(Done), c(InProgress), c(Pending), c(Review), c(Deferred))
  }

  /** The statistics a recount leaves behind hold together. */
  predicate Consistent(s: Stats) {
    && s.pending + s.inProgress + s.done + s.review + s.deferred == s.total
    && s.completed == s.done + s.review + s.deferred
  }

  // ------------------------------------------------- tracking conditions

  /** One tracking condition: the time it is good until, the tasks to
      complete and, optionally, the number of completed tasks expected. */
  datatype Condition = Condition(validBefore: int, tasksToComplete: seq<string>, expectCompleted: Option<int>)

  /** What the store keeps for one task file (the per-task status history
      and the timestamps are not modelled). `tracking` is None when the
      record has no "tracking" key. */
  datatype FileRecord = FileRecord(stats: Stats, tracking: Option<seq<Condition>>)

  function TrackedIn(r: FileRecord): seq<Condition> {
    if r.tracking.Some? then r.tracking.value else []
  }

  /** Why add_tracking_condition refuses a condition. */
  datatype AddError =
    | UnknownTask(id: string)
    | BadDuration(text: string)
    | TooManyExpected(completed: int, completeMore: int, total: int)

  /** One listed task that keeps a condition unmet. */
  datatype TaskIssue = Missing(id: string) | NotCompleted(id: string, status: TaskStatus)

  /** The expected and the actual number of completed tasks. */
  datatype Shortfall = Shortfall(expected: int, actual: int)

  /** A live condition that is not met, with what is missing. */
  datatype Unmet = Unmet(condition: Condition, unmetTasks: seq<TaskIssue>, countIssue: Option<Shortfall>)

  /** The first of ids that `tasks` does not hold. */
  function FirstMissing(ids: seq<string>, tasks: map<string, Task>): (r: Option<string>)
    ensures r.None? <==> forall i :: 0 <= i < |ids| ==> ids[i] in tasks
    ensures r.Some? ==> exists i :: 0 <= i < |ids| && ids[i] == r.value && r.value !in tasks
                                    && forall j :: 0 <= j < i ==> ids[j] in tasks
  {
    if ids == [] then None
    else if ids[0] !in tasks then
      assert ids[0] == ids[0];
      Some(ids[0])
    else
      var r := FirstMissing(ids[1..], tasks);
      if r.Some? then
        var i :| 0 <= i < |ids[1..]| && ids[1..][i] == r.value && r.value !in tasks
                 && forall j :: 0 <= j < i ==> ids[1..][j] in tasks;
        assert ids[i + 1] == r.value;
        assert forall j :: 0 <= j < i + 1 ==> ids[j] in tasks by {
          forall j | 0 <= j < i + 1 ensures ids[j] in tasks {
            if j > 0 { assert ids[j] == ids[1..][j - 1]; }
          }
        }
        r
      else
        assert forall j :: 1 <= j < |ids| ==> ids[j] == ids[1..][j - 1];
        None
  }

  /** The condition add_tracking_condition builds from its arguments, given
      the file's current statistics, the parsed task list and `seconds`,
      the parse of the duration text validFor: the ID check (only when the
      task list is non-empty), then the duration, then the expected count. */
  function NewCondition(stats: Stats, taskIds: seq<string>, validFor: string, seconds: Option<int>,
                        completeMore: Option<int>, tasks: map<string, Task>, now: int): (r: Result<Condition, AddError>)
    ensures r.Ok? ==> r.value.tasksToComplete == taskIds
  {
    var missing := if |tasks| > 0 then FirstMissing(taskIds, tasks) else None;
    if missing.Some? then Err(UnknownTask(missing.value))
    else
      if seconds.None? then Err(BadDuration(validFor))
      else if completeMore.Some? && stats.completed + completeMore.value > stats.total then
        Err(TooManyExpected(stats.completed, completeMore.value, stats.total))
      else
        var expected := if completeMore.Some? then Some(stats.completed + completeMore.value) else None;
        Ok(Condition(now + seconds.value, taskIds, expected))
  }

  /** Each refusal of add_tracking_condition names what is wrong: an ID
      that is not a task (checked only against a non-empty task list), a
      duration that does not parse, or an expected count above the total. */
  lemma ConditionRefused(stats: Stats, taskIds: seq<string>, validFor: string, seconds: Option<int>,
                         completeMore: Option<int>, tasks: map<string, Task>, now: int, e: AddError)
    requires NewCondition(stats, taskIds, validFor, seconds, completeMore, tasks, now) == Err(e)
    ensures e.UnknownTask? ==> |tasks| > 0 && e.id !in tasks && exists i :: 0 <= i < |taskIds| && taskIds[i] == e.id
    ensures e.BadDuration? ==> seconds.None? && e.text == validFor
    ensures e.TooManyExpected? ==> && completeMore.Some? && e.completeMore == completeMore.value
                                   && e.completed == stats.completed && e.total == stats.total
                                   && stats.completed + completeMore.value > stats.total
  {
  }

  /** An accepted condition lists known tasks (when the task list is
      non-empty), ends the parsed duration after `now`, and expects no more
      completed tasks than there are. */
  lemma ConditionAccepted(stats: Stats, taskIds: seq<string>, validFor: string, seconds: Option<int>,
                          completeMore: Option<int>, tasks: map<string, Task>, now: int, c: Condition)
    requires NewCondition(stats, taskIds, validFor, seconds, completeMore, tasks, now) == Ok(c)
    ensures |tasks| > 0 ==> forall i :: 0 <= i < |taskIds| ==> taskIds[i] in tasks
    ensures seconds.Some? && c.validBefore == now + seconds.value
    ensures c.tasksToComplete == taskIds
    ensures completeMore.None? <==> c.expectCompleted.None?
    ensures completeMore.Some? ==> c.expectCompleted == Some(stats.completed + completeMore.value)
    ensures c.expectCompleted.Some? ==> c.expectCompleted.value <= stats.total
  {
  }

  /** What one listed task contributes to a condition's unmet list. */
  function TaskIssueOf(id: string, tasks: map<string, Task>): (r: seq<TaskIssue>)
    ensures r == [] <==> id in tasks && IsCompleted(tasks[id].status)
    ensures |r| <= 1
  {
    if id !in tasks then [Missing(id)]
    else if !IsCompleted(tasks[id].status) then [NotCompleted(id, tasks[id].status)]
    else []
  }

  /** The unmet tasks of a condition, in the order they are listed. */
  function UnmetTasks(ids: seq<string>, tasks: map<string, Task>): (r: seq<TaskIssue>)
    ensures r == [] <==> forall i :: 0 <= i < |ids| ==> ids[i] in tasks && IsCompleted(tasks[ids[i]].status)
  {
    if ids == [] then []
    else
      var init := ids[..|ids| - 1];
      assert forall i :: 0 <= i < |init| ==> init[i] == ids[i];
      UnmetTasks(init, tasks) + TaskIssueOf(ids[|ids| - 1], tasks)
  }

  /** The count issue of a condition, given the stored completed count. */
  function CountIssue(c: Condition, completed: int): (r: Option<Shortfall>)
    ensures r.Some? <==> c.expectCompleted.Some? && completed < c.expectCompleted.value
  {
    if c.expectCompleted.Some? && completed < c.expectCompleted.value then
      Some(Shortfall(c.expectCompleted.value, completed))
    else None
  }

  /** The verdict on one condition at time `now`: None when it has expired
      or is met. */
  function Assess(c: Condition, tasks: map<string, Task>, completed: int, now: int): (r: Option<Unmet>)
    ensures r.Some? <==>
              && now <= c.validBefore
              && ((exists i :: 0 <= i < |c.tasksToComplete| && (c.tasksToComplete[i] !in tasks
                                                                || !IsCompleted(tasks[c.tasksToComplete[i]].status)))
                  || (c.expectCompleted.Some? && completed < c.expectCompleted.value))
    ensures r.Some? ==> r.value.condition == c
  {
    if now > c.validBefore then None
    else
      var issues := UnmetTasks(c.tasksToComplete, tasks);
      var count := CountIssue(c, completed);
      if issues != [] || count.Some? then Some(Unmet(c, issues, count)) else None
  }

  /** The unmet live conditions among conds, in their order. */
  function Report(conds: seq<Condition>, tasks: map<string, Task>, completed: int, now: int): (r: seq<Unmet>)
    ensures |r| <= |conds|
  {
    if conds == [] then []
    else
      var last := Assess(conds[|conds| - 1], tasks, completed, now);
      Report(conds[..|conds| - 1], tasks, completed, now) + (if last.Some? then [last.value] else [])
  }

  /** Every reported entry is the verdict on one of the conditions. */
  lemma {:induction false} ReportSound(conds: seq<Condition>, tasks: map<string, Task>, completed: int, now: int, u: Unmet)
    requires u in Report(conds, tasks, completed, now)
    ensures exists k :: 0 <= k < |conds| && Assess(conds[k], tasks, completed, now) == Some(u)
  {
    var init := conds[..|conds| - 1];
    var last := Assess(conds[|conds| - 1], tasks, completed, now);
    if u in Report(init, tasks, completed, now) {
      ReportSound(init, tasks, completed, now, u);
      var k :| 0 <= k < |init| && Assess(init[k], tasks, completed, now) == Some(u);
      assert conds[k] == init[k];
    } else {
      assert last == Some(u);
    }
  }

  /** Every live, unmet condition is reported. */
  lemma {:induction false} ReportComplete(conds: seq<Condition>, tasks: map<string, Task>, completed: int, now: int, k: nat)
    requires k < |conds| && Assess(conds[k], tasks, completed, now).Some?
    ensures Assess(conds[k], tasks, completed, now).value in Report(conds, tasks, completed, now)
  {
    var init := conds[..|conds| - 1];
    if k < |conds| - 1 {
      assert init[k] == conds[k];
      ReportComplete(init, tasks, completed, now, k);
    }
  }

  /** The status_counts dictionary: one count per status. */
  datatype Counts = Counts(pending: nat, inProgress: nat, done: nat, review: nat, deferred: nat)

  /** `status_counts[status] += 1`. */
  function Tally(c: Counts, st: TaskStatus): Counts {
    match st
    case Pending => c.(pending := c.pending + 1)
    case InProgress => c.(inProgress := c.inProgress + 1)
    case Done => c.(done := c.done + 1)
    case Review => c.(review := c.review + 1)
    case Deferred => c.(deferred := c.deferred + 1)
  }

  /** The per-status counts of the tasks among keys. */
  function CountsOf(tasks: map<string, Task>, keys: set<string>): Counts {
    Counts(CountIn(tasks, keys, Pending), CountIn(tasks, keys, InProgress), CountIn(tasks, keys, Done),
           CountIn(tasks, keys, Review), CountIn(tasks, keys, Deferred))
  }

  lemma CountsOfNone(tasks: map<string, Task>)
    ensures CountsOf(tasks, {}) == Counts(0, 0, 0, 0, 0)
  {
    forall st ensures CountIn(tasks, {}, st) == 0 {
      assert (set k | k in {} && HasStatus(tasks, k, st)) == {};
    }
  }

  /** Counting one more task bumps the count of its status. */
  lemma CountsOfAdd(tasks: map<string, Task>, keys: set<string>, k: string)
    requires k in tasks && k !in keys
    ensures CountsOf(tasks, keys + {k}) == Tally(CountsOf(tasks, keys), tasks[k].status)
  {
    CountInAdd(tasks, keys, k, Pending);
    CountInAdd(tasks, keys, k, InProgress);
    CountInAdd(tasks, keys, k, Done);
    CountInAdd(tasks, keys, k, Review);
    CountInAdd(tasks, keys, k, Deferred);
  }

  /** The status counting loop of calculate_statistics. */
  method CountStatuses(tasks: map<string, Task>) returns (stats: Stats)
    ensures stats == StatsOf(tasks)
  {
    var counts := Counts(0, 0, 0, 0, 0);
    CountsOfNone(tasks);
    var left := tasks.Keys;
    ghost var seen: set<string> := {};
    while left != {}
      invariant left + seen == tasks.Keys && left !! seen
      invariant counts == CountsOf(tasks, seen)
      decreases left
    {
      var k :| k in left;
      CountsOfAdd(tasks, seen, k);
      counts := Tally(counts, tasks[k].status);
      left := left - {k};
      seen := seen + {k};
    }
    assert seen == tasks.Keys;
    assert counts == CountsOf(tasks, tasks.Keys);
    stats := Stats(|tasks|, counts.done + counts.review + counts.deferred,
                   counts.done, counts.inProgress, counts.pending, counts.review, counts.deferred);
  }

  /** The task-ID loop of add_tracking_condition: the first listed ID that
      is not a task. */
  method FindMissing(ids: seq<string>, tasks: map<string, Task>) returns (m: Option<string>)
    ensures m == FirstMissing(ids, tasks)
  {
    var i := 0;
    while i < |ids|
      invariant 0 <= i <= |ids|
      invariant FirstMissing(ids, tasks) == FirstMissing(ids[i..], tasks)
    {
      if ids[i] !in tasks {
        return Some(ids[i]);
      }
      assert ids[i..][1..] == ids[i + 1..];
      i := i + 1;
    }
    return None;
  }

  /** The inner loop of check_tracking_conditions: the unmet tasks of one
      condition. */
  method CollectUnmetTasks(ids: seq<string>, tasks: map<string, Task>) returns (issues: seq<TaskIssue>)
    ensures issues == UnmetTasks(ids, tasks)
  {
    issues := [];
    var j := 0;
    while j < |ids|
      invariant 0 <= j <= |ids|
      invariant issues == UnmetTasks(ids[..j], tasks)
    {
      var id := ids[j];
      assert ids[..j + 1][..j] == ids[..j];
      if id !in tasks {
        issues := issues + [Missing(id)];
      } else if !IsCompleted(tasks[id].status) {
        issues := issues + [NotCompleted(id, tasks[id].status)];
      }
      j := j + 1;
    }
    assert ids[..j] == ids;
  }

  /** The validation steps of add_tracking_condition, in their order;
      `seconds` is the parse of the duration text validFor. */
  method BuildCondition(stats: Stats, taskIds: seq<string>, validFor: string, seconds: Option<int>,
                        completeMore: Option<int>, tasks: map<string, Task>, now: int)
    returns (r: Result<Condition, AddError>)
    ensures r == NewCondition(stats, taskIds, validFor, seconds, completeMore, tasks, now)
  {
    var missing: Option<string> := None;
    if |tasks| > 0 {
      missing := FindMissing(taskIds, tasks);
    }
    if missing.Some? {
      return Err(UnknownTask(missing.value));
    }
    if seconds.None? {
      return Err(BadDuration(validFor));
    }
    if completeMore.Some? && stats.completed + completeMore.value > stats.total {
      return Err(TooManyExpected(stats.completed, completeMore.value, stats.total));
    }
    var expected := if completeMore.Some? then Some(stats.completed + completeMore.value) else None;
    return Ok(Condition(now + seconds.value, taskIds, expected));
  }

  // ------------------------------------------------------------ the store

  /** The store after calculate_statistics for file: the file's record,
      created when missing, gets the statistics of the tasks; its tracking
      conditions and every other record are kept. */
  function Recount(data: map<string, FileRecord>, file: string, tasks: map<string, Task>): map<string, FileRecord> {
    var base := if file in data then data[file] else FileRecord(NoStats, None);
    data[file := base.(stats := StatsOf(tasks))]
  }

  /** A recount leaves consistent statistics for the file, keeps the
      file's tracking conditions and every other file's record. */
  lemma RecountSpec(data: map<string, FileRecord>, file: string, tasks: map<string, Task>)
    ensures var r := Recount(data, file, tasks);
      && r.Keys == data.Keys + {file}
      && Consistent(r[file].stats) && r[file].stats.total == |tasks|
      && (file in data ==> r[file].tracking == data[file].tracking)
      && (forall f :: f in data && f != file ==> r[f] == data[f])
  {
    var st := StatsOf(tasks);
    assert Consistent(st);
    assert Recount(data, file, tasks)[file].stats == st;
  }

  /** The progress store: one record per task file. Loading it from and
      saving it to the JSON file are not modelled; the constructor takes
      the loaded contents. */
  class ProgressTracker {
    var data: map<string, FileRecord>

    constructor(stored: map<string, FileRecord>)
      ensures data == stored
    {
      data := stored;
    }

    /** The file's statistics, or zero for a file with no record
        (`get_statistics(...).get(key, 0)`). */
    function StatsFor(file: string): Stats
      reads this
    {
      if file in data then data[file].stats else NoStats
    }

    /** The file's tracking conditions; none without a record or a
        "tracking" key. */
    function Conditions(file: string): seq<Condition>
      reads this
    {
      if file in data then TrackedIn(data[file]) else []
    }

    /** calculate_statistics: recount the statuses of the parsed tasks and
        store them in the file's record, creating it when missing; the rest
        of the record is kept. */
    method CalculateStatistics(file: string, tasks: map<string, Task>)
      modifies this
      ensures data == Recount(old(data), file, tasks)
    {
      var stats := CountStatuses(tasks);
      var base := if file in data then data[file] else FileRecord(NoStats, None);
      data := data[file := base.(stats := stats)];
    }

    /** add_tracking_condition: validate, then append the new condition to
        the file's list (creating the record or the list when missing). */
    method AddTrackingCondition(file: string, taskIds: seq<string>, validFor: string,
                                completeMore: Option<int>, tasks: map<string, Task>, now: int)
      returns (r: Result<Condition, AddError>)
      modifies this
      ensures r == NewCondition(old(StatsFor(file)), taskIds, validFor, ParseDuration(validFor), completeMore, tasks, now)
      ensures r.Err? ==> data == old(data)
      ensures r.Ok? ==> var base := if file in old(data) then old(data)[file] else FileRecord(NoStats, Some([]));
                        data == old(data)[file := base.(tracking := Some(TrackedIn(base) + [r.value]))]
    {
      var seconds := ParseDuration(validFor);
      r := BuildCondition(StatsFor(file), taskIds, validFor, seconds, completeMore, tasks, now);
      if r.Err? {
        return;
      }
      var base := if file in data then data[file] else FileRecord(NoStats, Some([]));
      data := data[file := base.(tracking := Some(TrackedIn(base) + [r.value]))];
    }

    /** check_tracking_conditions: the unmet live conditions of the file, in
        their stored order, judged against the parsed tasks and the stored
        completed count. */
    method CheckTrackingConditions(file: string, tasks: map<string, Task>, now: int) returns (unmet: seq<Unmet>)
      ensures unmet == Report(Conditions(file), tasks, StatsFor(file).completed, now)
    {
      var conds := Conditions(file);
      var completed := StatsFor(file).completed;
      unmet := [];
      var i := 0;
      while i < |conds|
        invariant 0 <= i <= |conds|
        invariant unmet == Report(conds[..i], tasks, completed, now)
      {
        var c := conds[i];
        assert conds[..i + 1][..i] == conds[..i];
        if now <= c.validBefore {
          var issues := CollectUnmetTasks(c.tasksToComplete, tasks);
          var count := CountIssue(c, completed);
          if issues != [] || count.Some? {
            unmet := unmet + [Unmet(c, issues, count)];
          }
        }
        i := i + 1;
      }
      assert conds[..i] == conds;
    }

    /** clear_tracking_conditions: nothing to clear counts as cleared; a
        non-empty list is emptied only when the clear is confirmed (by the
        force flag or the user's answer). */
    method ClearTrackingConditions(file: string, confirmed: bool) returns (cleared: bool)
      modifies this
      ensures cleared <==> old(Conditions(file)) == [] || confirmed
      ensures if old(Conditions(file)) != [] && confirmed
              then data == old(data)[file := old(data)[file].(tracking := Some([]))]
              else data == old(data)
      ensures Conditions(file) == [] <==> old(Conditions(file)) == [] || confirmed
    {
      if Conditions(file) == [] {
        return true;
      }
      if !confirmed {
        return false;
      }
      data := data[file := data[file].(tracking := Some([]))];
      return true;
    }
  }
}
