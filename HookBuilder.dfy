/** The session-hook creator: it builds a json or command hook record,
    checks the matcher, and appends the hook to the session's hooks
    configuration, in the layout the dispatcher of module SessionHook
    reads back. */
module HookBuilder {
  import opened Text
  import opened Json
  import SessionHook

  /** The events the command line accepts. */
  const HookEvents: seq<string> := ["PreToolUse", "PostToolUse", "PermissionRequest", "Notification",
    "UserPromptSubmit", "Stop", "SubagentStop", "PreCompact", "SessionStart", "SessionEnd"]

  /** The events that take a matcher, and the values each accepts. */
  function MatcherValues(event: string): (vals: Option<seq<string>>)
    ensures vals.Some? <==> event == "SessionStart" || event == "PreCompact"
  {
    if event == "SessionStart" then Some(["startup", "resume", "clear", "compact"])
    else if event == "PreCompact" then Some(["manual", "auto"])
    else None
  }

  /** An optional argument that is given and non-empty (Python truthiness). */
  predicate Given(o: Option<string>) {
    o.Some? && o.value != []
  }

  // ------------------------------------------------------------ hook records

  /** `key` is present in `m` exactly when `o` is given, and then holds it. */
  predicate KeyFor(m: map<string, Json>, key: string, o: Option<string>) {
    && (key in m <==> Given(o))
    && (key in m ==> m[key] == JString(o.value))
  }

  /** The answer object of a json hook: decision, reason and systemMessage,
      each only when given, and nothing else. */
  predicate ContentAgrees(content: map<string, Json>, decision: Option<string>, reason: Option<string>, message: Option<string>) {
    && content.Keys <= {"decision", "reason", "systemMessage"}
    && KeyFor(content, "decision", decision)
    && KeyFor(content, "reason", reason)
    && KeyFor(content, "systemMessage", message)
  }

  /** What create_json_hook promises of the record it builds. */
  predicate BuiltJsonHook(hook: map<string, Json>, decision: Option<string>, reason: Option<string>, message: Option<string>, exitcode: int) {
    && hook.Keys <= {"type", "json", "exitcode"}
    && "type" in hook && hook["type"] == JString("json")
    && ("json" in hook <==> Given(decision) || Given(reason) || Given(message))
    && ("json" in hook ==> hook["json"].JObject? && ContentAgrees(hook["json"].fields, decision, reason, message))
    && ("exitcode" in hook <==> exitcode != 0)
    && ("exitcode" in hook ==> hook["exitcode"] == JInt(exitcode))
  }

  /** What create_command_hook promises of the record it builds. */
  predicate BuiltCommandHook(hook: map<string, Json>, command: string, timeout: int) {
    && hook.Keys <= {"type", "command", "timeout"}
    && "type" in hook && hook["type"] == JString("command")
    && "command" in hook && hook["command"] == JString(command)
    && ("timeout" in hook <==> timeout != SessionHook.DefaultTimeout)
    && ("timeout" in hook ==> hook["timeout"] == JInt(timeout))
  }

  /** create_json_hook: keys are inserted only when they differ from their
      defaults. */
  method CreateJsonHook(decision: Option<string>, reason: Option<string>, message: Option<string>, exitcode: int)
    returns (hook: map<string, Json>)
    ensures BuiltJsonHook(hook, decision, reason, message, exitcode)
  {
    hook := map["type" := JString("json")];
    var content: map<string, Json> := map[];
    if Given(decision) {
      content := content["decision" := JString(decision.value)];
    }
    if Given(reason) {
      content := content["reason" := JString(reason.value)];
    }
    if Given(message) {
      content := content["systemMessage" := JString(message.value)];
    }
    assert ContentAgrees(content, decision, reason, message);
    assert content == map[] <==> !("decision" in content || "reason" in content || "systemMessage" in content);
    if content != map[] {
      hook := hook["json" := JObject(content)];
    }
    if exitcode != 0 {
      hook := hook["exitcode" := JInt(exitcode)];
    }
  }

  /** create_command_hook. */
  method CreateCommandHook(command: string, timeout: int) returns (hook: map<string, Json>)
    ensures BuiltCommandHook(hook, command, timeout)
  {
    hook := map["type" := JString("command"), "command" := JString(command)];
    if timeout != SessionHook.DefaultTimeout {
      hook := hook["timeout" := JInt(timeout)];
    }
  }

  /** The dispatcher replays exactly what a built json hook was given: the
      answer object holds the given decision, reason and message and
      nothing else, and the exit code is the one configured. */
  lemma JsonHookReplayed(hook: map<string, Json>, decision: Option<string>, reason: Option<string>, message: Option<string>, exitcode: int)
    requires BuiltJsonHook(hook, decision, reason, message, exitcode)
    ensures SessionHook.Supported(JObject(hook))
    ensures var rep := SessionHook.ExecuteJsonHook(hook);
      && rep.stdout.Dumped? && ContentAgrees(rep.stdout.obj, decision, reason, message)
      && rep.stderr == SessionHook.Quiet && rep.exitCode == exitcode
  {
  }

  /** A built command hook with a non-empty command is one the dispatcher
      runs, with the timeout it was built with when that is in (0, 60],
      and 15 otherwise. */
  lemma CommandHookReplayed(hook: map<string, Json>, command: string, timeout: int)
    requires BuiltCommandHook(hook, command, timeout) && command != []
    ensures SessionHook.Supported(JObject(hook))
    ensures SessionHook.CommandTimeout(hook) == if 0 < timeout <= SessionHook.MaxTimeout then timeout else SessionHook.DefaultTimeout
  {
  }

  // ---------------------------------------------------------------- config

  /** The entry add_hook_to_config appends: the hook alone in a list, with
      the matcher when one is given. */
  function Entry(hook: map<string, Json>, matcher: Option<string>): (e: map<string, Json>)
    ensures "hooks" in e && e["hooks"] == JArray([JObject(hook)])
    ensures "matcher" in e <==> Given(matcher)
    ensures Given(matcher) ==> e["matcher"] == JString(matcher.value)
    ensures e.Keys <= {"hooks", "matcher"}
  {
    var e := map["hooks" := JArray([JObject(hook)])];
    if Given(matcher) then e["matcher" := JString(matcher.value)] else e
  }

  /** add_hook_to_config succeeds when `hooks` is missing or an object and
      the event's value in it is missing or a list; any other shape makes
      the subscript or the append raise. */
  predicate Addable(config: map<string, Json>, event: string) {
    && ("hooks" in config ==> config["hooks"].JObject?)
    && ("hooks" in config && event in config["hooks"].fields ==> config["hooks"].fields[event].JArray?)
  }

  /** The entries recorded for an event (none when the key is missing). */
  function EventList(config: map<string, Json>, event: string): seq<Json>
    requires Addable(config, event)
  {
    if "hooks" in config && event in config["hooks"].fields then config["hooks"].fields[event].items else []
  }

  /** The configuration after a successful add_hook_to_config. */
  function Added(config: map<string, Json>, event: string, hook: map<string, Json>, matcher: Option<string>): map<string, Json>
    requires Addable(config, event)
  {
    var hooks := if "hooks" in config then config["hooks"].fields else map[];
    config["hooks" := JObject(hooks[event := JArray(EventList(config, event) + [JObject(Entry(hook, matcher))])])]
  }

  /** Adding appends exactly one entry at the end of the event's list;
      earlier entries, other events and the other top-level keys are as
      they were. */
  lemma AddedAppends(config: map<string, Json>, event: string, hook: map<string, Json>, matcher: Option<string>)
    requires Addable(config, event)
    ensures var c := Added(config, event, hook, matcher);
      && Addable(c, event)
      && EventList(c, event) == EventList(config, event) + [JObject(Entry(hook, matcher))]
      && c.Keys == config.Keys + {"hooks"}
      && (forall k :: k in config && k != "hooks" ==> c[k] == config[k])
      && (forall e :: "hooks" in config && e in config["hooks"].fields && e != event ==>
            e in c["hooks"].fields && c["hooks"].fields[e] == config["hooks"].fields[e])
      && c["hooks"].fields.Keys == (if "hooks" in config then config["hooks"].fields.Keys else {}) + {event}
  {
  }

  /** Adding twice keeps both entries, in the order they were added. */
  lemma AddedTwice(config: map<string, Json>, event: string, h1: map<string, Json>, m1: Option<string>, h2: map<string, Json>, m2: Option<string>)
    requires Addable(config, event)
    ensures Addable(Added(config, event, h1, m1), event)
    ensures EventList(Added(Added(config, event, h1, m1), event, h2, m2), event)
            == EventList(config, event) + [JObject(Entry(h1, m1)), JObject(Entry(h2, m2))]
  {
    AddedAppends(config, event, h1, m1);
    AddedAppends(Added(config, event, h1, m1), event, h2, m2);
  }

  /** A hooks configuration as the creator edits it in place. */
  class Config {
    var fields: map<string, Json>

    constructor (initial: map<string, Json>)
      ensures fields == initial
    {
      fields := initial;
    }

    /** add_hook_to_config: creates the `hooks` object and the event's list
        when missing, then appends the new entry; on a configuration of
        the wrong shape it fails and changes nothing. */
    method AddHook(event: string, hook: map<string, Json>, matcher: Option<string>) returns (ok: bool)
      modifies this
      ensures ok <==> Addable(old(fields), event)
      ensures ok ==> fields == Added(old(fields), event, hook, matcher)
      ensures !ok ==> fields == old(fields)
    {
      if "hooks" in fields && !fields["hooks"].JObject? {
        return false;
      }
      ghost var before := fields;
      ghost var oldHooks: map<string, Json> := if "hooks" in fields then fields["hooks"].fields else map[];
      if "hooks" !in fields {
        fields := fields["hooks" := JObject(map[])];
      }
      var hooks := fields["hooks"].fields;
      if event in hooks && !hooks[event].JArray? {
        return false;
      }
      if event !in hooks {
        hooks := hooks[event := JArray([])];
      }
      var entry := Entry(hook, matcher);
      assert hooks[event].items == EventList(before, event);
      hooks := hooks[event := JArray(hooks[event].items + [JObject(entry)])];
      assert hooks == oldHooks[event := JArray(EventList(before, event) + [JObject(entry)])];
      fields := fields["hooks" := JObject(hooks)];
      return true;
    }
  }

  /** The hook just added is what the dispatcher finds for its event when
      none of the earlier entries gives a hook and the new entry matches
      the input. */
  lemma AddedHookFound(config: map<string, Json>, event: string, hook: map<string, Json>, matcher: Option<string>, input: map<string, Json>)
    requires Addable(config, event)
    requires SessionHook.Supported(JObject(hook))
    requires SessionHook.HookFor(config, JString(event), input) == Ok(None)
    requires SessionHook.MatchesHookEntry(Entry(hook, matcher), event, input) == Ok(true)
    ensures SessionHook.HookFor(Added(config, event, hook, matcher), JString(event), input) == Ok(Some(hook))
  {
    var old_ := EventList(config, event);
    assert SessionHook.FirstHookFrom(old_, 0, event, input) == Ok(None);
    var entry := JObject(Entry(hook, matcher));
    SessionHook.AppendedEntryFound(old_, 0, entry, event, input);
    assert SessionHook.FirstSupportedFrom([JObject(hook)], 0) == Some(hook);
    AddedAppends(config, event, hook, matcher);
  }

  /** An entry without a matcher matches every input of its event. */
  lemma EntryWithoutMatcherMatches(hook: map<string, Json>, event: string, input: map<string, Json>)
    ensures SessionHook.MatchesHookEntry(Entry(hook, None), event, input) == Ok(true)
  {
  }

  // ------------------------------------------------------------------- main

  datatype HookKind = JsonKind | CommandKind

  /** The parsed command line. */
  datatype Args = Args(
    sessionId: string, event: string, kind: HookKind,
    decision: Option<string>, reason: Option<string>, message: Option<string>, exitcode: int,
    command: Option<string>, timeout: int, matcher: Option<string>, force: bool)

  /** Why the creator stops (with exit status 2 for a usage error, 1
      otherwise). */
  datatype CreateError =
    | UsageError          // an event or decision outside the argument parser's choices
    | InvalidSessionId
    | MatcherNotSupported // a matcher for an event that takes none
    | InvalidMatcher      // a value the event's matcher does not accept
    | MissingCommand
    | BadConfig           // the existing configuration has a shape the append cannot handle

  /** The matcher check of main: no matcher (or an empty one) passes;
      otherwise the event must take matchers and accept the value. */
  function CheckMatcher(event: string, matcher: Option<string>): (r: Option<CreateError>)
    ensures r.None? <==> !Given(matcher) || (MatcherValues(event).Some? && matcher.value in MatcherValues(event).value)
    ensures r.Some? ==> r.value == MatcherNotSupported || r.value == InvalidMatcher
  {
    if !Given(matcher) then None
    else match MatcherValues(event)
      case None => Some(MatcherNotSupported)
      case Some(vals) => if matcher.value in vals then None else Some(InvalidMatcher)
  }

  /** The accepted matchers are exactly startup, resume, clear and compact
      for SessionStart and manual and auto for PreCompact. */
  lemma AcceptedMatchers(event: string, m: string)
    requires m != []
    ensures CheckMatcher(event, Some(m)).None? <==>
              || (event == "SessionStart" && (m == "startup" || m == "resume" || m == "clear" || m == "compact"))
              || (event == "PreCompact" && (m == "manual" || m == "auto"))
  {
  }

  /** An accepted matcher is one the dispatcher compares: its event has a
      matcher field, and the entry matches exactly the inputs whose field
      holds the matcher's value (in any case). */
  lemma AcceptedMatcherCompared(hook: map<string, Json>, event: string, m: string, input: map<string, Json>, v: string)
    requires m != [] && CheckMatcher(event, Some(m)).None?
    requires SessionHook.MatcherField(event).Some?
    requires var f := SessionHook.MatcherField(event).value; f in input && input[f] == JString(v)
    ensures SessionHook.MatcherField(event).Some?
    ensures SessionHook.MatchesHookEntry(Entry(hook, Some(m)), event, input) == Ok(Lower(m) == Lower(v))
  {
    SessionHook.MatchesByField(Entry(hook, Some(m)), event, input, m);
  }

  /** Every event with matcher values has a matcher field in the
      dispatcher, so no accepted matcher is silently ignored. */
  lemma MatcherEventsHaveFields(event: string)
    requires MatcherValues(event).Some?
    ensures SessionHook.MatcherField(event).Some?
  {
  }

  /** The configuration the creator starts from: a fresh one with --force
      or when no file exists, else the file's content. */
  function BaseConfig(force: bool, existing: Option<Json>): Json {
    if force || existing.None? then JObject(map["hooks" := JObject(map[])]) else existing.value
  }

  /** The timeout the command hook is built with: capped at 60. */
  function CappedTimeout(t: int): (r: int)
    ensures r <= SessionHook.MaxTimeout
    ensures r == t || r == SessionHook.MaxTimeout
    ensures t <= SessionHook.MaxTimeout ==> r == t
  {
    if t < SessionHook.MaxTimeout then t else SessionHook.MaxTimeout
  }

  /** main, for the existing hooks file's content (None when there is no
      file): the validations in their order, then the configuration to
      write and the hook record it prints. */
  method CreateSessionHook(args: Args, existing: Option<Json>) returns (r: Result<map<string, Json>, CreateError>, hook: map<string, Json>)
    ensures (args.event !in HookEvents || (args.decision.Some? && args.decision.value != "approve" && args.decision.value != "block"))
            ==> r == Err(UsageError)
    ensures args.event in HookEvents && (args.decision.None? || args.decision.value in ["approve", "block"]) ==>
      && (!SessionHook.UuidShape(args.sessionId) ==> r == Err(InvalidSessionId))
      && (SessionHook.UuidShape(args.sessionId) && CheckMatcher(args.event, args.matcher).Some? ==>
            r == Err(CheckMatcher(args.event, args.matcher).value))
    ensures r.Ok? ==>
      && SessionHook.UuidShape(args.sessionId) && CheckMatcher(args.event, args.matcher).None?
      && BaseConfig(args.force, existing).JObject?
      && Addable(BaseConfig(args.force, existing).fields, args.event)
      && r.value == Added(BaseConfig(args.force, existing).fields, args.event, hook, args.matcher)
      && (args.kind == JsonKind ==> BuiltJsonHook(hook, args.decision, args.reason, args.message, args.exitcode))
      && (args.kind == CommandKind ==> Given(args.command) && BuiltCommandHook(hook, args.command.value, CappedTimeout(args.timeout)))
    ensures r.Ok? <==>
      && args.event in HookEvents && (args.decision.None? || args.decision.value in ["approve", "block"])
      && SessionHook.UuidShape(args.sessionId) && CheckMatcher(args.event, args.matcher).None?
      && (args.kind == CommandKind ==> Given(args.command))
      && BaseConfig(args.force, existing).JObject? && Addable(BaseConfig(args.force, existing).fields, args.event)
    ensures r == Err(MissingCommand) <==>
      && args.event in HookEvents && (args.decision.None? || args.decision.value in ["approve", "block"])
      && SessionHook.UuidShape(args.sessionId) && CheckMatcher(args.event, args.matcher).None?
      && args.kind == CommandKind && !Given(args.command)
    ensures r == Err(BadConfig) <==>
      && args.event in HookEvents && (args.decision.None? || args.decision.value in ["approve", "block"])
      && SessionHook.UuidShape(args.sessionId) && CheckMatcher(args.event, args.matcher).None?
      && (args.kind == CommandKind ==> Given(args.command))
      && !(BaseConfig(args.force, existing).JObject? && Addable(BaseConfig(args.force, existing).fields, args.event))
  {
    hook := map[];
    if args.event !in HookEvents || (args.decision.Some? && args.decision.value != "approve" && args.decision.value != "block") {
      return Err(UsageError), hook;
    }
    if !SessionHook.UuidShape(args.sessionId) {
      return Err(InvalidSessionId), hook;
    }
    var bad := CheckMatcher(args.event, args.matcher);
    if bad.Some? {
      return Err(bad.value), hook;
    }
    if args.kind == JsonKind {
      hook := CreateJsonHook(args.decision, args.reason, args.message, args.exitcode);
    } else {
      if !Given(args.command) {
        return Err(MissingCommand), hook;
      }
      hook := CreateCommandHook(args.command.value, CappedTimeout(args.timeout));
    }
    var base := BaseConfig(args.force, existing);
    if !base.JObject? {
      return Err(BadConfig), hook;
    }
    var config := new Config(base.fields);
    var ok := config.AddHook(args.event, hook, args.matcher);
    if !ok {
      return Err(BadConfig), hook;
    }
    return Ok(config.fields), hook;
  }

  /** A fresh configuration (--force, whatever the file holds, or no file)
      always takes the hook, as the one entry of its event. */
  lemma FreshConfigTakesHook(event: string, hook: map<string, Json>, matcher: Option<string>, existing: Option<Json>, force: bool)
    ensures force || existing.None? ==> BaseConfig(force, existing).JObject?
    ensures force || existing.None? ==>
      && Addable(BaseConfig(force, existing).fields, event)
      && Added(BaseConfig(force, existing).fields, event, hook, matcher)
         == map["hooks" := JObject(map[event := JArray([JObject(Entry(hook, matcher))])])]
  {
    if force || existing.None? {
      var e := JObject(Entry(hook, matcher));
      assert EventList(BaseConfig(force, existing).fields, event) == [];
      assert [] + [e] == [e];
    }
  }

  /** A command hook created with a timeout in (0, 60] runs with that
      timeout, one over 60 runs with 60, and a non-positive one with 15. */
  lemma CreatedTimeoutSeenByDispatcher(hook: map<string, Json>, command: string, t: int)
    requires BuiltCommandHook(hook, command, CappedTimeout(t)) && command != []
    ensures SessionHook.CommandTimeout(hook) == if t <= 0 then SessionHook.DefaultTimeout else if t > SessionHook.MaxTimeout then SessionHook.MaxTimeout else t
  {
    CommandHookReplayed(hook, command, CappedTimeout(t));
  }
}
