/** The session-hook dispatcher: it checks the session id of a hook event,
    finds the first supported hook configured for the event in the
    session's hooks file, and either replays a fixed JSON answer or hands a
    shell command, with a bounded timeout, to the process runner. */
module SessionHook {
  import opened Text
  import opened Json

  const DefaultTimeout := 15
  const MaxTimeout := 60

  // ------------------------------------------------------------ session id

  predicate IsHexDigit(c: char) {
    IsDigit(c) || ('a' <= c <= 'f') || ('A' <= c <= 'F')
  }

  /** The positions of the four hyphens of the 8-4-4-4-12 layout. */
  predicate IsHyphenPosition(i: int) {
    i == 8 || i == 13 || i == 18 || i == 23
  }

  /** The UUID pattern, matched case-insensitively and anchored by `^` and
      `$`: 36 characters in the 8-4-4-4-12 layout of hexadecimal groups,
      optionally followed by the one final newline `$` lets through. */
  predicate UuidShape(s: string) {
    && (|s| == 36 || (|s| == 37 && s[36] == '\n'))
    && forall i :: 0 <= i < 36 ==> if IsHyphenPosition(i) then s[i] == '-' else IsHexDigit(s[i])
  }

  /** validate_session_id: a non-empty string of UUID shape. Any other
      JSON value (null, a number, a list, an object) is refused. */
  predicate ValidSessionId(v: Json) {
    Truthy(v) && v.JString? && UuidShape(v.s)
  }

  /** Only strings of UUID shape pass, and nothing else does. */
  lemma ValidSessionIdIsUuid(v: Json)
    ensures ValidSessionId(v) <==> v.JString? && UuidShape(v.s)
  {
  }

  /** A valid id holds nothing but hexadecimal digits and hyphens (and at
      most a final newline), so it cannot name another directory or file
      when it is put into `hooks.<id>.json`. */
  lemma ValidSessionIdIsPathSafe(v: Json)
    requires ValidSessionId(v)
    ensures forall i :: 0 <= i < |v.s| ==> IsHexDigit(v.s[i]) || v.s[i] == '-' || (i == 36 && v.s[i] == '\n')
    ensures forall i :: 0 <= i < |v.s| ==> v.s[i] != '/' && v.s[i] != '.' && v.s[i] != '_'
  {
    forall i | 0 <= i < |v.s| ensures IsHexDigit(v.s[i]) || v.s[i] == '-' || (i == 36 && v.s[i] == '\n') {
      if i < 36 {
        if IsHyphenPosition(i) { } else { }
      }
    }
  }

  /** Exactly 36 characters, or 37 with a final newline: shorter, longer
      and hyphen-less ids are refused. */
  lemma ValidSessionIdLength(v: Json)
    requires ValidSessionId(v)
    ensures |v.s| == 36 || (|v.s| == 37 && v.s[36] == '\n')
    ensures v.s[8] == '-' && v.s[13] == '-' && v.s[18] == '-' && v.s[23] == '-'
  {
    assert IsHyphenPosition(8) && IsHyphenPosition(13) && IsHyphenPosition(18) && IsHyphenPosition(23);
  }

  /** Upper, lower and mixed case are all accepted. */
  lemma ValidSessionIdIgnoresCase(s: string)
    requires UuidShape(Lower(s))
    ensures ValidSessionId(JString(s))
  {
    forall i | 0 <= i < 36 ensures if IsHyphenPosition(i) then s[i] == '-' else IsHexDigit(s[i]) {
      assert Lower(s)[i] == LowerChar(s[i]);
    }
  }

  /** A lower-case UUID is accepted. */
  lemma LowerUuidAccepted()
    ensures ValidSessionId(JString("32502be3-59b3-4176-94c4-fd851d460417"))
  {
    var a := "32502be3-59b3-4176-94c4-fd851d460417";
    forall i | 0 <= i < 36 ensures if IsHyphenPosition(i) then a[i] == '-' else IsHexDigit(a[i]) { }
  }

  /** An upper-case UUID is accepted. */
  lemma UpperUuidAccepted()
    ensures ValidSessionId(JString("32502BE3-59B3-4176-94C4-FD851D460417"))
  {
    var b := "32502BE3-59B3-4176-94C4-FD851D460417";
    forall i | 0 <= i < 36 ensures if IsHyphenPosition(i) then b[i] == '-' else IsHexDigit(b[i]) { }
  }

  /** Underscores instead of hyphens, a path, the empty string and
      non-strings are refused. */
  lemma MalformedIdsRefused()
    ensures !ValidSessionId(JString("32502be3_59b3_4176_94c4_fd851d460417"))
    ensures !ValidSessionId(JString("../../../etc/passwd"))
    ensures !ValidSessionId(JString("")) && !ValidSessionId(JNull) && !ValidSessionId(JInt(12345))
  {
    var c := "32502be3_59b3_4176_94c4_fd851d460417";
    assert IsHyphenPosition(8) && c[8] != '-';
  }

  // ---------------------------------------------------------------- matcher

  /** get_matcher_field_for_event: the input field an event's matcher is
      compared with. */
  function MatcherField(event: string): (r: Option<string>)
    ensures r == Some("trigger") <==> event == "PreCompact"
    ensures r == Some("source") <==> event == "SessionStart"
    ensures r.None? <==> event != "PreCompact" && event != "SessionStart"
  {
    if event == "PreCompact" then Some("trigger")
    else if event == "SessionStart" then Some("source")
    else None
  }

  /** str(v) for the JSON values whose rendering the model spells out;
      None for floats, lists and objects. */
  function PyStr(v: Json): (r: Option<string>)
    ensures v.JString? ==> r == Some(v.s)
  {
    match v
    case JNull => Some("None")
    case JBool(b) => Some(if b then "True" else "False")
    case JInt(i) => Some(if i < 0 then "-" + NatToString(-i) else NatToString(i))
    case JString(s) => Some(s)
    case _ => None
  }

  /** The errors the dispatcher does not catch before its last resort
      handler: `.lower()` on a matcher that is not a string, `.get` on a
      hooks file that is not an object, an event name that cannot be a
      dictionary key. */
  datatype HookError = MatcherNotString | ConfigNotObject | EventNotHashable

  /** matches_hook_entry. */
  function MatchesHookEntry(entry: map<string, Json>, event: string, input: map<string, Json>): Result<bool, HookError> {
    var matcher := Get(entry, "matcher", JNull);
    if !Truthy(matcher) then Ok(true)
    else match MatcherField(event)
      case None => Ok(true)
      case Some(field) =>
        if !matcher.JString? then Err(MatcherNotString)
        else
          var value := PyStr(Get(input, field, JString("")));
          Ok(value.Some? && Lower(matcher.s) == Lower(value.value))
  }

  /** An entry with no matcher (or an empty one), or for an event without
      a matcher field, matches every input. */
  lemma MatchesWithoutMatcher(entry: map<string, Json>, event: string, input: map<string, Json>)
    requires !Truthy(Get(entry, "matcher", JNull)) || MatcherField(event).None?
    ensures MatchesHookEntry(entry, event, input) == Ok(true)
  {
  }

  /** Otherwise the matcher is compared, ignoring case, with the event's
      field; a missing field reads as the empty string, which no
      (non-empty) matcher equals. */
  lemma MatchesByField(entry: map<string, Json>, event: string, input: map<string, Json>, m: string)
    requires Get(entry, "matcher", JNull) == JString(m) && m != []
    requires MatcherField(event).Some?
    ensures var field := MatcherField(event).value;
      && (field !in input ==> MatchesHookEntry(entry, event, input) == Ok(false))
      && (forall v :: field in input && input[field] == JString(v) ==>
            MatchesHookEntry(entry, event, input) == Ok(Lower(m) == Lower(v)))
  {
    var field := MatcherField(event).value;
    if field !in input {
      assert |Lower(m)| != |Lower("")|;
    }
  }

  /** A matcher that is a number or a list, on an event that has a matcher
      field, raises instead of matching. */
  lemma NonStringMatcherFails(entry: map<string, Json>, event: string, input: map<string, Json>)
    requires Truthy(Get(entry, "matcher", JNull)) && !Get(entry, "matcher", JNull).JString?
    requires MatcherField(event).Some?
    ensures MatchesHookEntry(entry, event, input) == Err(MatcherNotString)
  {
  }

  // ------------------------------------------------------------- hook lookup

  /** A hook get_hook_for_event accepts: an object of type json, or of
      type command with a truthy command. */
  predicate Supported(h: Json) {
    && h.JObject?
    && (|| Get(h.fields, "type", JNull) == JString("json")
        || (Get(h.fields, "type", JNull) == JString("command") && Truthy(Get(h.fields, "command", JNull))))
  }

  /** The first supported hook of hooks from index j on. */
  function FirstSupportedFrom(hooks: seq<Json>, j: nat): (r: Option<map<string, Json>>)
    requires j <= |hooks|
    ensures r.None? <==> forall k :: j <= k < |hooks| ==> !Supported(hooks[k])
    ensures r.Some? ==> exists k :: j <= k < |hooks| && Supported(hooks[k]) && hooks[k] == JObject(r.value)
                                    && forall k' :: j <= k' < k ==> !Supported(hooks[k'])
    decreases |hooks| - j
  {
    if j == |hooks| then None
    else if Supported(hooks[j]) then Some(hooks[j].fields)
    else FirstSupportedFrom(hooks, j + 1)
  }

  /** What one entry of an event's list gives: nothing when it is not an
      object, does not match, or has no list of hooks; else its first
      supported hook. */
  function EntryHook(entry: Json, event: string, input: map<string, Json>): Result<Option<map<string, Json>>, HookError> {
    if !entry.JObject? then Ok(None)
    else match MatchesHookEntry(entry.fields, event, input)
      case Err(e) => Err(e)
      case Ok(false) => Ok(None)
      case Ok(true) =>
        var list := Get(entry.fields, "hooks", JArray([]));
        if !list.JArray? then Ok(None)
        else Ok(FirstSupportedFrom(list.items, 0))
  }

  /** The first entry from index k on that gives a hook or an error. */
  function FirstHookFrom(entries: seq<Json>, k: nat, event: string, input: map<string, Json>): Result<Option<map<string, Json>>, HookError>
    requires k <= |entries|
    decreases |entries| - k
  {
    if k == |entries| then Ok(None)
    else
      var here := EntryHook(entries[k], event, input);
      if here == Ok(None) then FirstHookFrom(entries, k + 1, event, input) else here
  }

  /** get_hook_for_event. */
  function HookFor(config: map<string, Json>, event: Json, input: map<string, Json>): Result<Option<map<string, Json>>, HookError> {
    var hooks := Get(config, "hooks", JObject(map[]));
    if !hooks.JObject? then Ok(None)
    else if event.JArray? || event.JObject? then Err(EventNotHashable)
    else if !event.JString? then Ok(None)
    else
      var list := Get(hooks.fields, event.s, JArray([]));
      if !list.JArray? then Ok(None)
      else FirstHookFrom(list.items, 0, event.s, input)
  }

  /** The lookup gives nothing exactly when every entry gives nothing. */
  lemma {:induction false} FirstHookNone(entries: seq<Json>, k: nat, event: string, input: map<string, Json>)
    requires k <= |entries|
    ensures FirstHookFrom(entries, k, event, input) == Ok(None) <==>
              forall i :: k <= i < |entries| ==> EntryHook(entries[i], event, input) == Ok(None)
    decreases |entries| - k
  {
    if k < |entries| {
      FirstHookNone(entries, k + 1, event, input);
    }
  }

  /** Otherwise the lookup stops at the first entry that gives something,
      and its answer is what that entry gives. */
  lemma {:induction false} FirstHookIsFirst(entries: seq<Json>, k: nat, event: string, input: map<string, Json>)
    returns (i: nat)
    requires k <= |entries| && FirstHookFrom(entries, k, event, input) != Ok(None)
    ensures k <= i < |entries| && FirstHookFrom(entries, k, event, input) == EntryHook(entries[i], event, input)
    ensures forall i' :: k <= i' < i ==> EntryHook(entries[i'], event, input) == Ok(None)
    decreases |entries| - k
  {
    if EntryHook(entries[k], event, input) == Ok(None) {
      i := FirstHookIsFirst(entries, k + 1, event, input);
    } else {
      i := k;
    }
  }

  /** A hook appended in a new last entry is found when no earlier entry
      gives anything. */
  lemma {:induction false} AppendedEntryFound(entries: seq<Json>, k: nat, entry: Json, event: string, input: map<string, Json>)
    requires k <= |entries|
    requires FirstHookFrom(entries, k, event, input) == Ok(None)
    ensures FirstHookFrom(entries + [entry], k, event, input) == EntryHook(entry, event, input)
    decreases |entries| - k
  {
    var all := entries + [entry];
    if k < |entries| {
      assert all[k] == entries[k];
      AppendedEntryFound(entries, k + 1, entry, event, input);
    } else {
      assert all[k] == entry;
    }
  }

  /** get_hook_for_event as written: the loop over the event's entries and,
      inside a matching one, over its hooks, returning at the first
      supported hook. */
  method GetHookForEvent(config: map<string, Json>, event: Json, input: map<string, Json>)
    returns (r: Result<Option<map<string, Json>>, HookError>)
    ensures r == HookFor(config, event, input)
  {
    var hooks := Get(config, "hooks", JObject(map[]));
    if !hooks.JObject? {
      return Ok(None);
    }
    if event.JArray? || event.JObject? {
      return Err(EventNotHashable);
    }
    if !event.JString? {
      return Ok(None);
    }
    var list := Get(hooks.fields, event.s, JArray([]));
    if !list.JArray? {
      return Ok(None);
    }
    var entries := list.items;
    for i := 0 to |entries|
      invariant FirstHookFrom(entries, i, event.s, input) == FirstHookFrom(entries, 0, event.s, input)
    {
      var entry := entries[i];
      if !entry.JObject? {
        continue;
      }
      var m := MatchesHookEntry(entry.fields, event.s, input);
      if m.Err? {
        return Err(m.error);
      }
      if !m.value {
        continue;
      }
      var hookList := Get(entry.fields, "hooks", JArray([]));
      if !hookList.JArray? {
        continue;
      }
      var hs := hookList.items;
      for j := 0 to |hs|
        invariant FirstSupportedFrom(hs, j) == FirstSupportedFrom(hs, 0)
      {
        var h := hs[j];
        if !h.JObject? {
          continue;
        }
        var kind := Get(h.fields, "type", JNull);
        if kind == JString("command") && Truthy(Get(h.fields, "command", JNull)) {
          return Ok(Some(h.fields));
        }
        if kind == JString("json") {
          return Ok(Some(h.fields));
        }
      }
    }
    return Ok(None);
  }

  /** A found hook is a supported one, so it is never empty. */
  lemma FoundHookSupported(entries: seq<Json>, event: string, input: map<string, Json>, h: map<string, Json>)
    requires FirstHookFrom(entries, 0, event, input) == Ok(Some(h))
    ensures Supported(JObject(h)) && "type" in h
  {
    var i := FirstHookIsFirst(entries, 0, event, input);
    var list := Get(entries[i].fields, "hooks", JArray([]));
    var k :| 0 <= k < |list.items| && Supported(list.items[k]) && list.items[k] == JObject(h);
  }

  // -------------------------------------------------------------- the reply

  /** What the dispatcher writes to standard output. */
  datatype Printed = Nothing | EmptyObject | Dumped(obj: map<string, Json>)

  /** What it writes to standard error. */
  datatype Note = Quiet | InvalidJsonField | LoadFailed | BadInput | UnexpectedError

  datatype Reply = Reply(stdout: Printed, stderr: Note, exitCode: int)

  /** The configured exit code of a json hook: an int (or bool) as it is,
      anything else through int(), 0 when int() refuses it. */
  function JsonHookExitCode(hook: map<string, Json>): (code: int)
    ensures "exitcode" !in hook ==> code == 0
    ensures "exitcode" in hook && hook["exitcode"].JInt? ==> code == hook["exitcode"].i
    ensures "exitcode" in hook && IntCoerce(hook["exitcode"]).None? ==> code == 0
    ensures "exitcode" in hook && IntCoerce(hook["exitcode"]).Some? ==> code == IntCoerce(hook["exitcode"]).value
  {
    var v := Get(hook, "exitcode", JInt(0));
    if IsPyInt(v) then PyIntValue(v)
    else match IntCoerce(v)
      case Some(n) => n
      case None => 0
  }

  /** A string exit code that spells a number is read as that number. */
  lemma StringExitCode(hook: map<string, Json>, n: nat)
    requires Get(hook, "exitcode", JInt(0)) == JString(NatToString(n))
    ensures JsonHookExitCode(hook) == n
  {
    ParseIntOfNat(n);
  }

  /** execute_json_hook: the configured object (default {}) and exit code,
      or an error when the `json` field is not an object. */
  function ExecuteJsonHook(hook: map<string, Json>): (r: Reply)
    ensures r.stderr == InvalidJsonField <==> "json" in hook && !hook["json"].JObject?
    ensures r.stderr == InvalidJsonField ==> r.stdout == Nothing && r.exitCode == 1
    ensures r.stderr != InvalidJsonField ==> r.stderr == Quiet && r.exitCode == JsonHookExitCode(hook)
    ensures "json" !in hook ==> r.stdout == Dumped(map[])
    ensures "json" in hook && hook["json"].JObject? ==> r.stdout == Dumped(hook["json"].fields)
  {
    var out := Get(hook, "json", JObject(map[]));
    if !out.JObject? then Reply(Nothing, InvalidJsonField, 1)
    else Reply(Dumped(out.fields), Quiet, JsonHookExitCode(hook))
  }

  /** The timeout a command hook runs with: the configured number when it
      is in (0, 60], truncated to an int; otherwise 15. */
  function CommandTimeout(hook: map<string, Json>): (t: int)
    ensures 0 <= t <= MaxTimeout
    ensures "timeout" !in hook ==> t == DefaultTimeout
    ensures t == DefaultTimeout || ("timeout" in hook && IntCoerce(hook["timeout"]) == Some(t))
  {
    var v := Get(hook, "timeout", JInt(DefaultTimeout));
    match v
    case JInt(i) => if i <= 0 || i > MaxTimeout then DefaultTimeout else i
    case JBool(b) => if b then 1 else DefaultTimeout
    case JFloat(f) => if f <= 0.0 || f > MaxTimeout as real then DefaultTimeout else Trunc(f)
    case _ => DefaultTimeout
  }

  /** An integer timeout in (0, 60] is kept; a missing, non-numeric,
      non-positive or too large one becomes 15. */
  lemma CommandTimeoutRule(hook: map<string, Json>)
    ensures "timeout" !in hook ==> CommandTimeout(hook) == DefaultTimeout
    ensures "timeout" in hook && hook["timeout"].JInt? ==>
              CommandTimeout(hook) == (if 0 < hook["timeout"].i <= MaxTimeout then hook["timeout"].i else DefaultTimeout)
    ensures "timeout" in hook && hook["timeout"].JFloat? ==>
              CommandTimeout(hook) == (if 0.0 < hook["timeout"].f <= MaxTimeout as real then Trunc(hook["timeout"].f) else DefaultTimeout)
    ensures "timeout" in hook && hook["timeout"].JBool? ==>
              CommandTimeout(hook) == (if hook["timeout"].b then 1 else DefaultTimeout)
    ensures "timeout" in hook && !hook["timeout"].JInt? && !hook["timeout"].JBool? && !hook["timeout"].JFloat? ==>
              CommandTimeout(hook) == DefaultTimeout
  {
  }

  /** A fractional timeout below one second passes the range check and is
      then truncated to 0 by int(). */
  lemma SubSecondTimeoutTruncates(hook: map<string, Json>)
    requires Get(hook, "timeout", JNull) == JFloat(0.5)
    ensures CommandTimeout(hook) == 0
  {
  }

  /** What main does: finish with a reply, or run a command (with the
      original stdin) and pass its output and exit code through. */
  datatype Outcome = Finish(reply: Reply) | RunCommand(command: Json, timeout: int)

  /** The hooks file of a session as the file system offers it. */
  datatype HooksFile = NoHooksFile | Unreadable | HooksFile(config: Json)

  const Empty := Finish(Reply(EmptyObject, Quiet, 0))

  /** main, for the decoded stdin (None when it is not JSON) and the hooks
      file found for a session id. */
  function Dispatch(input: Option<Json>, hooksFileFor: string -> HooksFile): (o: Outcome)
  {
    match input
    case None => Finish(Reply(Nothing, BadInput, 1))
    case Some(v) =>
      if !v.JObject? then Empty
      else
        var session := Get(v.fields, "session_id", JString(""));
        var event := Get(v.fields, "hook_event_name", JString(""));
        if !ValidSessionId(session) then Empty
        else match hooksFileFor(session.s)
          case NoHooksFile => Empty
          case Unreadable => Finish(Reply(Nothing, LoadFailed, 1))
          case HooksFile(config) =>
            if !config.JObject? then Finish(Reply(Nothing, UnexpectedError, 1))
            else match HookFor(config.fields, event, v.fields)
              case Err(_) => Finish(Reply(Nothing, UnexpectedError, 1))
              case Ok(None) => Empty
              case Ok(Some(hook)) =>
                if !Truthy(JObject(hook)) then Empty
                else if Get(hook, "type", JString("command")) == JString("json") then Finish(ExecuteJsonHook(hook))
                else RunCommand(Get(hook, "command", JString("")), CommandTimeout(hook))
  }

  /** Input that is not an object, an invalid session id, or a session
      without a hooks file: print {} and exit 0, whatever else the input
      holds and whatever is on disk. */
  lemma EarlyExits(v: Json, hooksFileFor: string -> HooksFile)
    requires || !v.JObject?
             || !ValidSessionId(Get(v.fields, "session_id", JString("")))
             || hooksFileFor(Get(v.fields, "session_id", JString("")).s) == NoHooksFile
    ensures Dispatch(Some(v), hooksFileFor) == Empty
  {
  }

  /** A hooks file with a json hook for the event replays its object and
      exit code; a matching command hook is run with a timeout of at most
      60 seconds. */
  lemma DispatchFoundHook(v: Json, hooksFileFor: string -> HooksFile, config: map<string, Json>, hook: map<string, Json>)
    requires v.JObject? && ValidSessionId(Get(v.fields, "session_id", JString("")))
    requires hooksFileFor(Get(v.fields, "session_id", JString("")).s) == HooksFile(JObject(config))
    requires HookFor(config, Get(v.fields, "hook_event_name", JString("")), v.fields) == Ok(Some(hook))
    ensures Get(hook, "type", JNull) == JString("json") ==> Dispatch(Some(v), hooksFileFor) == Finish(ExecuteJsonHook(hook))
    ensures Get(hook, "type", JNull) == JString("command") ==>
              && Dispatch(Some(v), hooksFileFor) == RunCommand(Get(hook, "command", JNull), CommandTimeout(hook))
              && Truthy(Get(hook, "command", JNull))
              && 0 <= CommandTimeout(hook) <= MaxTimeout
  {
    var event := Get(v.fields, "hook_event_name", JString(""));
    var hooks := Get(config, "hooks", JObject(map[]));
    FoundHookSupported(Get(hooks.fields, event.s, JArray([])).items, event.s, v.fields, hook);
  }

  /** The json hook {"json": {"a": 1}, "exitcode": 3} prints {"a": 1} and
      exits 3. */
  lemma JsonHookExample()
    ensures ExecuteJsonHook(map["type" := JString("json"), "json" := JObject(map["a" := JInt(1)]), "exitcode" := JInt(3)])
            == Reply(Dumped(map["a" := JInt(1)]), Quiet, 3)
  {
  }
}
