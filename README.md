# Verified model of the gosu plugin hooks and skills

This project models in Dafny the decision logic of six scripts that ship
as hooks and skills for an AI coding assistant, and proves the
properties those scripts promise.

- **Dangerous tool usage blocker** (`DangerousTools`, with `Patterns`).
  This is the pre-tool-use hook. It classifies paths as safe, potential
  or dangerous. It scores `rm` command lines 0, 1 or 2. It flags
  destructive git commands against a fixed ordered pattern list. It
  flags reads and writes of `.env` files. It applies these checks in the
  hook's order: env first, then rm, then git.
- **Markdown task list** (`Tasks`, `TaskRules`, `Progress`, `TaskList`).
  - `Tasks`: the status/checkbox codec and the dotted task-ID algebra
    (validation, parent, direct sub-tasks, numeric sort key).
  - `TaskRules`: the rules the parser applies to a map of tasks.
    - readiness and the next-task pool;
    - parent promotion;
    - the dependency and requirement list edits of `update_task`.
  - `Progress`: the progress tracker, as a class over its stored data.
    It covers statistics, duration parsing and tracking conditions.
  - `TaskList`: the `TaskParser` class. Its `set_status`,
    `set_status_bulk`, `update_task`, `ready_tasks` and `get_next_task`
    change a `tasks` map field, and each is proved against a
    specification function.
- **Session hook dispatcher** (`SessionHook`): session-ID validation, the
  matcher table and rule, first-supported-hook lookup, json-hook replies
  with `int()` exit-code coercion, timeout normalisation and the early
  exits of `main`.
- **Session hook creator** (`HookBuilder`):
  - the json and command hook records, whose keys are present only when
    they differ from their defaults;
  - a `Config` class whose `AddHook` appends in place;
  - matcher and timeout validation and the choice of starting
    configuration.

  It also proves that the dispatcher reads back what the creator writes.
- **Voice prompt enhancer** (`Voice`). Each regular expression is
  written out as a pattern with Python's `search`, `findall` and `sub`
  scanning rules. On top of these the module models:
  - the trigger test;
  - the placeholder and ellipsis counts, with the proof that a
    bracketed placeholder is counted once and not again as a plain word;
  - the category suggestions;
  - the layout of the generated instructions;
  - the hook's output decision.
- **The placeholder tests** (`VoiceExamples`): every prompt of the
  count_placeholders tests, counted through the general lemmas.
- **Worktree naming** (`Worktree`): branch names from a prompt, the
  smallest free `-K` branch suffix, and the smallest free `-noN`
  worktree path.

`Text` and `Json` hold the Python built-ins the scripts rely on, each
written out:
- `str.lower`, `strip` and `split`;
- `int()` of a string, and decimal rendering;
- JSON values, truthiness and `int()` coercion.

Python behaviour is modelled where it matters:
- `$` also matches before one final newline;
- `\w`, `\b` and `lower()` are taken on the ASCII range (see Left out);
- `int()` truncates floats toward zero;
- falsy values (empty string, 0, empty list) count as missing.

Some source behaviour is modelled as written, though it looks
unintended. The lemmas state it:
- the high-risk root `/` only catches `/` itself, because its prefix
  test is `//`;
- the `git branch -D` pattern can never match a lower-cased command
  (`BranchUpperDNeverMatches`);
- a command timeout of 0.5 passes the range check and `int()` turns it
  into 0 (`SubSecondTimeoutTruncates`).

`create_session_hook.py` documents `--force` as overwriting the hooks of
the same event. The code instead starts from an empty configuration,
which drops every event. The model follows the code (`BaseConfig`,
`FreshConfigTakesHook`).

Source paths in the table below are relative to the repository root.

## Model

| member | source | states |
|---|---|---|
| Text.Lower | plugins/gosu-mcp-core/hooks/session_hook.py:272 | str.lower on the ASCII range: same length, each character lowered |
| Text.LowerIdempotent | plugins/gosu-mcp-core/hooks/block_dangerous_tool_usages.py:274 | lowering twice is lowering once |
| Text.Strip | plugins/gosu-mcp-core/skills/task-list-md/scripts/task_list_md.py:242 | str.strip: the result is the text with its leading and trailing whitespace removed (a slice whose ends, when not empty, are not whitespace) |
| Text.StripSlice | plugins/gosu-mcp-core/skills/task-list-md/scripts/task_list_md.py:242 | strip() gives the slice between the leading and the trailing whitespace: everything cut off is whitespace and the slice, when not empty, starts and ends with a non-space |
| Text.StripEmptyIffAllSpace | plugins/gosu-mcp-core/skills/task-list-md/scripts/task_list_md.py:242 | stripping leaves nothing exactly when the text is all whitespace |
| Text.StripIdempotent | plugins/gosu-mcp-core/skills/task-list-md/scripts/task_list_md.py:242 | stripping twice is stripping once |
| Text.SplitJoin | plugins/gosu-mcp-core/hooks/block_dangerous_tool_usages.py:274 | split() undoes a join with single spaces of words without whitespace |
| Text.ParseIntOfNat | plugins/gosu-mcp-core/skills/task-list-md/scripts/task_list_md.py:261 | int() reads back the decimal rendering of a number |
| Text.NatToStringInjective | plugins/gosu-mcp-core/skills/task-list-md/scripts/task_list_md.py:261 | different numbers have different decimal renderings |
| Text.ParseInt | plugins/gosu-mcp-core/skills/task-list-md/scripts/task_list_md.py:261 | int() of a string; a success needs a non-blank text, and ParseIntLiteral (what is accepted, with its value), ParseIntShape (nothing else is) and ParseIntOfNat (decimal renderings read back) pin it |
| Text.ParseIntLiteral | plugins/gosu-mcp-core/skills/task-list-md/scripts/task_list_md.py:261 | int() accepts an optional sign and digit groups joined by single underscores, with whitespace around them and leading zeros allowed, and gives their signed value: " -3 " is -3, "+7" and "007" are 7, "1_000" is 1000 |
| Text.ParseIntShape | plugins/gosu-mcp-core/skills/task-list-md/scripts/task_list_md.py:261 | int() accepts nothing else: a text it reads strips to an optional sign and underscore-joined digit groups, and the value is theirs, so "12a", "1__2", "_1", "1_" and "-" are refused |
| Text.StripPadded | plugins/gosu-mcp-core/skills/task-list-md/scripts/task_list_md.py:242 | strip() of a text with whitespace around it is that text, when its own ends are not whitespace |
| Text.NatToString | plugins/gosu-mcp-core/skills/git-worktree/scripts/create_git_worktree.py:120 | str() of a number: a non-empty run of digits without a leading zero; NatToStringValue gives back the number and NatToStringInjective keeps numbers apart |
| Json.IntCoerce | plugins/gosu-mcp-core/hooks/session_hook.py:412-418 | int() of a JSON value: an integer is itself, a boolean 1 or 0, a float an integer of the same sign less than one away from it toward zero, a string what int() of a string gives (ParseIntLiteral and ParseIntShape); null, lists and objects are refused |
| Json.IntCoerceOfNat | plugins/gosu-mcp-core/hooks/session_hook.py:412-418 | int() reads back the decimal string of any number |
| Patterns.Matches | plugins/gosu-mcp-core/hooks/block_dangerous_tool_usages.py:297 | a match of the pattern at some position; MatchesHasLiteral and SpelledFound characterise it |
| Patterns.MatchesHasLiteral | plugins/gosu-mcp-core/hooks/block_dangerous_tool_usages.py:297 | re.search can succeed only on a text containing every literal of the pattern |
| Patterns.SpelledFound | plugins/gosu-mcp-core/hooks/block_dangerous_tool_usages.py:297 | re.search succeeds on any text containing a spelling of the whole pattern |
| Patterns.Search | plugins/gosu-mcp-core/hooks/block_dangerous_tool_usages.py:297 | re.search: true exactly when the pattern matches at some position of the text |
| DangerousTools.ClassifyPath | plugins/gosu-mcp-core/hooks/block_dangerous_tool_usages.py:84-158 | classify_path: strip, lower-case, then the rule chain; ClassifyIgnoresCase, ClassifyIgnoresSurroundingSpace, SafeMeansHarmless and the class lemmas below state what it gives |
| DangerousTools.ClassifyLowered | plugins/gosu-mcp-core/hooks/block_dangerous_tool_usages.py:88-158 | the rules of classify_path in their order on the normalised path; ClassifyAsWritten links it to ClassifyPath |
| DangerousTools.ClassifyIgnoresCase | plugins/gosu-mcp-core/hooks/block_dangerous_tool_usages.py:84-86 | the class of a path is the class of its lower-cased form |
| DangerousTools.ClassifyIgnoresSurroundingSpace | plugins/gosu-mcp-core/hooks/block_dangerous_tool_usages.py:84-86 | the class of a path is the class of the path stripped of surrounding whitespace |
| DangerousTools.SafeMeansHarmless | plugins/gosu-mcp-core/hooks/block_dangerous_tool_usages.py:84-158 | a path classified safe is non-empty, not `*` or `.`, no parent traversal, no home reference, at or under no high-risk root, not `/workspace(s)` itself, and if it holds a `*` it is relative |
| DangerousTools.SafeNotUnderRoot | plugins/gosu-mcp-core/hooks/block_dangerous_tool_usages.py:127-139 | a safe path is at or under no high-risk root, so `/tmp` and `/var/log` part ways with every root |
| DangerousTools.ClassifyAsWritten | plugins/gosu-mcp-core/hooks/block_dangerous_tool_usages.py:85-86 | a lower-case path without surrounding whitespace goes through the rule chain unchanged |
| DangerousTools.ClassifyRoot | plugins/gosu-mcp-core/hooks/block_dangerous_tool_usages.py:133-139 | `/` is dangerous (the root only catches itself, its prefix test being `//`) |
| DangerousTools.TraversalIsPotential | plugins/gosu-mcp-core/hooks/block_dangerous_tool_usages.py:95-102 | a path that climbs to a parent is `potential`, whatever else it holds |
| DangerousTools.TraversalHasDotDot | plugins/gosu-mcp-core/hooks/block_dangerous_tool_usages.py:95-102 | every traversal shape holds two dots in a row |
| DangerousTools.NoDotDotNoTraversal | plugins/gosu-mcp-core/hooks/block_dangerous_tool_usages.py:95-102 | so a path without two dots in a row is never a traversal |
| DangerousTools.HomeRefIsDangerous | plugins/gosu-mcp-core/hooks/block_dangerous_tool_usages.py:105-108 | a path starting with `~`, `$home` or `${home` (after lower-casing) that is not a traversal is `dangerous` |
| DangerousTools.AbsoluteWildcard | plugins/gosu-mcp-core/hooks/block_dangerous_tool_usages.py:111-125 | an absolute wildcard is `potential` under /tmp/, /var/log/, /workspace/ and /workspaces/ and `dangerous` anywhere else |
| DangerousTools.HighRiskRootIsDangerous | plugins/gosu-mcp-core/hooks/block_dangerous_tool_usages.py:133-139 | a path at or under any high-risk root is `dangerous` unless it climbs to a parent: no root covers /tmp, /var/log or a workspace |
| DangerousTools.WorkspaceContentIsPotential | plugins/gosu-mcp-core/hooks/block_dangerous_tool_usages.py:141-145 | anything below /workspace or /workspaces is `potential` |
| DangerousTools.OptionsEnd | plugins/gosu-mcp-core/hooks/block_dangerous_tool_usages.py:195-201 | the index of the first `--` token, no earlier token being `--` |
| DangerousTools.PathsVerdict | plugins/gosu-mcp-core/hooks/block_dangerous_tool_usages.py:236-244 | the verdict for the path list is 0, 1 or 2 (its value is pinned by AllSafeVerdict and FirstUnsafeDecides) |
| DangerousTools.RmVerdict | plugins/gosu-mcp-core/hooks/block_dangerous_tool_usages.py:160-244 | is_dangerous_rm_command gives 0, 1 or 2; RmRfVerdict, ScanRmArguments and the rm examples below pin the value |
| DangerousTools.ClassesAt | plugins/gosu-mcp-core/hooks/block_dangerous_tool_usages.py:236-237 | the k-th classification is classify_path of the k-th path |
| DangerousTools.AllSafeVerdict | plugins/gosu-mcp-core/hooks/block_dangerous_tool_usages.py:236-244 | the path verdict is 0 exactly when every path is safe |
| DangerousTools.FirstUnsafeDecides | plugins/gosu-mcp-core/hooks/block_dangerous_tool_usages.py:236-241 | otherwise the first path that is not safe decides: dangerous gives 2, potential gives 1 |
| DangerousTools.RmNeedsForceAndRecursive | plugins/gosu-mcp-core/hooks/block_dangerous_tool_usages.py:171-186 | a non-zero verdict needs a non-empty command whose first token is `rm` (any case) and both a force and a recursive flag before any `--` (lines 225-226) |
| DangerousTools.RmLongFlagOrNoPathDenied | plugins/gosu-mcp-core/hooks/block_dangerous_tool_usages.py:225-234 | a forced recursive rm with a long flag, or with no path, is denied (2) |
| DangerousTools.RmRfVerdict | plugins/gosu-mcp-core/hooks/block_dangerous_tool_usages.py:171-244 | `rm -rf` followed by plain paths gets exactly the verdict of those paths |
| DangerousTools.RmRfSingle | plugins/gosu-mcp-core/hooks/block_dangerous_tool_usages.py:236-244 | `rm -rf p` for one plain path gets the code of p's class |
| DangerousTools.RmRfLowered | plugins/gosu-mcp-core/hooks/block_dangerous_tool_usages.py:84-86 | for a lower-case path without surrounding whitespace that code is that of the rule chain applied to the path as written |
| DangerousTools.RmVerdictOfArguments | plugins/gosu-mcp-core/hooks/block_dangerous_tool_usages.py:225-244 | a forced recursive rm without `--` and without long flags gets the verdict of its paths |
| DangerousTools.RmRfRootDenied | plugins/gosu-mcp-core/hooks/block_dangerous_tool_usages.py:232-239 | `rm -rf /` is denied |
| DangerousTools.RmRfHomeDenied | test/scripts/hooks/test_block_dangerous_tool_usages_unit.py:45-47 | `rm -rf` of the home directory or anything in it is denied unless the path climbs out with `..` |
| DangerousTools.RmRfHomeVariableDenied | test/scripts/hooks/test_block_dangerous_tool_usages_unit.py:48-49 | `rm -rf $HOME` and anything under it, in any letter case, is denied |
| DangerousTools.RmRfSystemDirDenied | test/scripts/hooks/test_block_dangerous_tool_usages_unit.py:54 | anything under /var/lib is denied |
| DangerousTools.RmRfWorkspaceRootDenied | test/scripts/hooks/test_block_dangerous_tool_usages_unit.py:52-53 | `rm -rf /workspace` and `rm -rf /workspaces` are denied |
| DangerousTools.RmRfAbsoluteGlobDenied | test/scripts/hooks/test_block_dangerous_tool_usages_unit.py:44 | an absolute wildcard under /home is denied |
| DangerousTools.RmRfParentAsked | test/scripts/hooks/test_block_dangerous_tool_usages_unit.py:67 | `rm -rf ..` is asked about |
| DangerousTools.RmRfParentPathAsked | test/scripts/hooks/test_block_dangerous_tool_usages_unit.py:68 | a path starting with `../` is asked about whatever follows |
| DangerousTools.RmRfParentThenRootAsked | plugins/gosu-mcp-core/hooks/block_dangerous_tool_usages.py:236-244 | `rm -rf .. /` is asked about: the first path that is not safe decides, though `/` alone is denied |
| DangerousTools.RmRfWorkspaceSubtreeAsked | test/scripts/hooks/test_block_dangerous_tool_usages_unit.py:70-72 | anything below /workspace is asked about, wildcards included |
| DangerousTools.RmRfUnderTmp | test/scripts/hooks/test_block_dangerous_tool_usages_unit.py:74 | under /tmp a wildcard is asked about and a plain path is let through (test line 94) |
| DangerousTools.RmRfSubdirAllowed | test/scripts/hooks/test_block_dangerous_tool_usages_unit.py:88-89 | a path below the current directory is let through |
| DangerousTools.RmRfRelativeGlobAllowed | test/scripts/hooks/test_block_dangerous_tool_usages_unit.py:90-93 | a relative wildcard that is not all stars is let through |
| DangerousTools.RmRfOutsideRootsAllowed | test/scripts/hooks/test_block_dangerous_tool_usages_unit.py:96 | an absolute path under /opt without a wildcard is let through |
| DangerousTools.IsDangerousRmCommand | plugins/gosu-mcp-core/hooks/block_dangerous_tool_usages.py:160-244 | the loop computes the rm verdict of the command line |
| DangerousTools.Operands | plugins/gosu-mcp-core/hooks/block_dangerous_tool_usages.py:196-222 | the tokens the scan keeps as paths, in order; ScanRmArguments shows the scan loop computes them |
| DangerousTools.RmPaths | plugins/gosu-mcp-core/hooks/block_dangerous_tool_usages.py:192-222 | the path list: operands before `--`, then every token after it; ScanRmArguments shows the scan loop computes it |
| DangerousTools.ScanRmArguments | plugins/gosu-mcp-core/hooks/block_dangerous_tool_usages.py:188-223 | the argument loop's flags are those of the options before `--`; its paths are the operands before `--` then every token after it |
| DangerousTools.TokenRole | plugins/gosu-mcp-core/hooks/block_dangerous_tool_usages.py:203-222 | a `--` token sets only long flags and is never a path; a short cluster sets f and r by its letters; any other token is a path and sets nothing |
| DangerousTools.ScanToken | plugins/gosu-mcp-core/hooks/block_dangerous_tool_usages.py:203-222 | one turn of the argument loop agrees with the token's role |
| DangerousTools.ScanFlagCluster | plugins/gosu-mcp-core/hooks/block_dangerous_tool_usages.py:213-218 | the character loop finds force exactly when `f` follows the dash, recursive exactly when `r` does |
| DangerousTools.ClassifyPathsInOrder | plugins/gosu-mcp-core/hooks/block_dangerous_tool_usages.py:236-244 | the final loop returns the path verdict |
| DangerousTools.OperandsConcat | plugins/gosu-mcp-core/hooks/block_dangerous_tool_usages.py:222 | the paths kept from two runs of tokens are those of each run, in order |
| DangerousTools.NormalizeCommand | plugins/gosu-mcp-core/hooks/block_dangerous_tool_usages.py:274 | the command lower-cased with whitespace runs collapsed to single spaces; NormalizedAsWritten states it |
| DangerousTools.GitDangerous | plugins/gosu-mcp-core/hooks/block_dangerous_tool_usages.py:275-299 | some pattern of the list matches the normalised command; IsDangerousGitCommand shows the pattern loop computes it |
| DangerousTools.IsDangerousGitCommand | plugins/gosu-mcp-core/hooks/block_dangerous_tool_usages.py:274-299 | the command is flagged exactly when some pattern of the list matches the normalised command |
| DangerousTools.GitNeedsGitWord | plugins/gosu-mcp-core/hooks/block_dangerous_tool_usages.py:275-297 | a flagged command contains `git` once lower-cased |
| DangerousTools.BranchUpperDNeverMatches | plugins/gosu-mcp-core/hooks/block_dangerous_tool_usages.py:274-289 | the `git branch -D` pattern never matches, because the command is lower-cased first |
| DangerousTools.UpperLiteralNeverMatches | plugins/gosu-mcp-core/hooks/block_dangerous_tool_usages.py:274-297 | no pattern with a capital letter in its text can match a normalised command |
| DangerousTools.NormalizedAsWritten | plugins/gosu-mcp-core/hooks/block_dangerous_tool_usages.py:274 | a lower-case command of single-space separated words is its own normal form |
| DangerousTools.ResetHardAndForcePushFlagged | plugins/gosu-mcp-core/hooks/block_dangerous_tool_usages.py:276-287 | `git reset --hard`, `git push --force` and `git push -f` are flagged wherever they occur |
| DangerousTools.CleanForceFlagged | plugins/gosu-mcp-core/hooks/block_dangerous_tool_usages.py:284 | `git clean -f` followed by lower-case letters up to a space or the end is flagged |
| DangerousTools.CleanForceDirFlagged | plugins/gosu-mcp-core/hooks/block_dangerous_tool_usages.py:282-283 | `git clean -` with letters holding f then d, or d then f, is flagged |
| DangerousTools.NoDashNotFlagged | plugins/gosu-mcp-core/hooks/block_dangerous_tool_usages.py:275-297 | a normalised command without `-` (and without `v`) is never flagged |
| DangerousTools.NoKeyLetterNotFlagged | plugins/gosu-mcp-core/hooks/block_dangerous_tool_usages.py:275-297 | a normalised command without any of r, f, p, d, h is never flagged |
| DangerousTools.GitStatusAndPushNotFlagged | test/scripts/hooks/test_block_dangerous_tool_usages_unit.py:131-149 | `git status` and plain `git push` pass |
| DangerousTools.GitCleanDryRunNotFlagged | test/scripts/hooks/test_block_dangerous_tool_usages_unit.py:141 | `git clean -n` passes |
| DangerousTools.GitCleanForceExamples | test/scripts/hooks/test_block_dangerous_tool_usages_unit.py:116-117 | `git clean -f` and `git clean -fx` are flagged |
| DangerousTools.GitCleanForceDirExamples | test/scripts/hooks/test_block_dangerous_tool_usages_unit.py:112-115 | `git clean -fd`, `-df` and `-xdf` are flagged |
| DangerousTools.CleanDirExample | plugins/gosu-mcp-core/hooks/block_dangerous_tool_usages.py:282-283 | `git clean -` with lower-case letters then `fd` or `df` is flagged |
| DangerousTools.GitResetAndPushExamples | test/scripts/hooks/test_block_dangerous_tool_usages_unit.py:111-120 | `git reset --hard`, `git push --force` and `git push -f` are flagged |
| DangerousTools.BashEnvAccess | plugins/gosu-mcp-core/hooks/block_dangerous_tool_usages.py:333-347 | the Bash rule of is_env_file_access; BashEnvAccessIsToken reduces it to the bare `.env` token |
| DangerousTools.BashEnvAccessIsToken | plugins/gosu-mcp-core/hooks/block_dangerous_tool_usages.py:336-347 | the Bash rule holds exactly when the bare `.env` token occurs: the five command-specific patterns add nothing |
| DangerousTools.EnvTokenBoundaries | plugins/gosu-mcp-core/hooks/block_dangerous_tool_usages.py:337 | a `.env` token has no word character on either side and no `.example` after it |
| DangerousTools.OtherToolsNeverFlagged | plugins/gosu-mcp-core/hooks/block_dangerous_tool_usages.py:322-349 | no tool other than Read, Edit, MultiEdit, Write and Bash is flagged |
| DangerousTools.EnvFileAccess | plugins/gosu-mcp-core/hooks/block_dangerous_tool_usages.py:301-349 | is_env_file_access: the file tools by their path, Bash by its command, every other tool never; FileToolRule, BashEnvAccessIsToken and OtherToolsNeverFlagged state it |
| DangerousTools.FileEnvAccess | plugins/gosu-mcp-core/hooks/block_dangerous_tool_usages.py:324-331 | the file-tool rule on a path; FileToolRule states it |
| DangerousTools.FileToolRule | plugins/gosu-mcp-core/hooks/block_dangerous_tool_usages.py:324-330 | for the file tools a `.env.example` path is never flagged; otherwise a path is flagged exactly when it contains `.env` and no `default(\..*)?\.env` ends it |
| DangerousTools.Decide | plugins/gosu-mcp-core/hooks/block_dangerous_tool_usages.py:383-452 | the hook's decision for one tool call; DecideBashInput and NonObjectToolInputDenied state it |
| DangerousTools.DecideBashInput | plugins/gosu-mcp-core/hooks/block_dangerous_tool_usages.py:409-445 | a Bash call goes through the `.env` check, then the rm verdict (2 denies, 1 asks), then the git patterns, else the safe outcome |
| DangerousTools.BashLetThroughIff | plugins/gosu-mcp-core/hooks/block_dangerous_tool_usages.py:409-445 | a Bash call is let through exactly when it touches no `.env` file, is no dangerous rm and matches no git pattern |
| DangerousTools.EnvCheckComesFirst | plugins/gosu-mcp-core/hooks/block_dangerous_tool_usages.py:409-415 | a Bash call touching `.env` is asked about even when it is also a dangerous rm |
| DangerousTools.RmCheckBeforeGit | plugins/gosu-mcp-core/hooks/block_dangerous_tool_usages.py:417-428 | a non-zero rm verdict decides before the git check |
| DangerousTools.NonObjectToolInputDenied | plugins/gosu-mcp-core/hooks/block_dangerous_tool_usages.py:401-407 | a `tool_input` that is not an object is denied before any check |
| Tasks.ParseStatus | plugins/gosu-mcp-core/skills/task-list-md/scripts/task_list_md.py:59-64 | a parsed status prints back as the value given; an unknown value parses to no status (the ValueError) |
| Tasks.ToCheckbox | plugins/gosu-mcp-core/skills/task-list-md/scripts/task_list_md.py:78-87 | every status shows as a three-character `[c]` box |
| Tasks.FromCheckbox | plugins/gosu-mcp-core/skills/task-list-md/scripts/task_list_md.py:67-76 | a checkbox read as any status but pending is exactly that status's box |
| Tasks.CheckboxRoundTrip | plugins/gosu-mcp-core/skills/task-list-md/scripts/task_list_md.py:67-87 | reading back the checkbox of a status gives the status, for all five |
| Tasks.UnknownCheckboxPending | plugins/gosu-mcp-core/skills/task-list-md/scripts/task_list_md.py:76 | a checkbox of no status reads as pending |
| Tasks.CheckboxInjective | plugins/gosu-mcp-core/skills/task-list-md/scripts/task_list_md.py:78-87 | different statuses have different checkboxes |
| Tasks.LastDot | plugins/gosu-mcp-core/skills/task-list-md/scripts/task_list_md.py:885-886 | the index of the last dot, no dot after it |
| Text.LastIndexOf | plugins/gosu-mcp-core/skills/git-worktree/scripts/create_git_worktree.py:93-95 | the last position of a character before a bound, -1 when there is none |
| Tasks.SplitDot | plugins/gosu-mcp-core/skills/task-list-md/scripts/task_list_md.py:874 | the split has at least one part and no part holds a dot |
| Tasks.JoinSplitDot | plugins/gosu-mcp-core/skills/task-list-md/scripts/task_list_md.py:885-886 | joining the dot-split parts with `.` gives back the string |
| Tasks.TaskIdShape | plugins/gosu-mcp-core/skills/task-list-md/scripts/task_list_md.py:1582 | the segment reading of the ID grammar (every part a non-empty digit run) equals the character reading (digits and single dots, starting and ending with a digit) |
| Tasks.ValidateTaskId | plugins/gosu-mcp-core/skills/task-list-md/scripts/task_list_md.py:1567-1583 | validate_task_id holds exactly when the stripped text is digit groups joined by single dots |
| Tasks.ParentId | plugins/gosu-mcp-core/skills/task-list-md/scripts/task_list_md.py:877-886 | there is a parent exactly when the ID holds a dot, and it is the ID up to its last dot |
| Tasks.ParentOfChild | plugins/gosu-mcp-core/skills/task-list-md/scripts/task_list_md.py:881-886 | the parent of `p.n` is p, for any segment n without a dot |
| Tasks.DotCount | plugins/gosu-mcp-core/skills/task-list-md/scripts/task_list_md.py:891 | the dot count is at most the length |
| Tasks.DirectChildIffParent | plugins/gosu-mcp-core/skills/task-list-md/scripts/task_list_md.py:888-901 | the direct-sub-task test (prefix `id.` and one more dot) holds exactly when the parent of the candidate is id |
| Tasks.SegmentValues | plugins/gosu-mcp-core/skills/task-list-md/scripts/task_list_md.py:875 | one number per segment |
| Tasks.SortKey | plugins/gosu-mcp-core/skills/task-list-md/scripts/task_list_md.py:871-875 | one number per segment of the ID, never empty |
| Tasks.KeyLessIrreflexive | plugins/gosu-mcp-core/skills/task-list-md/scripts/task_list_md.py:871-875 | no key is less than itself |
| Tasks.KeyLessTransitive | plugins/gosu-mcp-core/skills/task-list-md/scripts/task_list_md.py:871-875 | the key order is transitive |
| Tasks.KeyLessTotal | plugins/gosu-mcp-core/skills/task-list-md/scripts/task_list_md.py:871-875 | different keys are ordered one way or the other |
| Tasks.KeyLessPrefix | test/skills/task-list-md/test_task_parser.py:164-171 | a key comes before its extensions (1 < 1.1) |
| Tasks.KeyLessLast | test/skills/task-list-md/test_task_parser.py:164-171 | keys differing in their last number are ordered by that number (1.2 < 1.10) |
| Tasks.SortKeyChild | plugins/gosu-mcp-core/skills/task-list-md/scripts/task_list_md.py:871-875 | the key of `p.n` is the key of p followed by n |
| Tasks.SortKeyRoot | plugins/gosu-mcp-core/skills/task-list-md/scripts/task_list_md.py:871-875 | the key of the one-segment ID n is [n] |
| TaskRules.InsertById | plugins/gosu-mcp-core/skills/task-list-md/scripts/task_list_md.py:901 | inserting keeps every element and adds x |
| TaskRules.InsertSorted | plugins/gosu-mcp-core/skills/task-list-md/scripts/task_list_md.py:901 | inserting into a key-sorted list keeps it sorted |
| TaskRules.SortIds | plugins/gosu-mcp-core/skills/task-list-md/scripts/task_list_md.py:901 | sorting keeps the multiset of IDs |
| TaskRules.SortIdsSorted | plugins/gosu-mcp-core/skills/task-list-md/scripts/task_list_md.py:901 | the sorted list is ordered by sort key |
| TaskRules.SortIdsSpec | plugins/gosu-mcp-core/skills/task-list-md/scripts/task_list_md.py:895-901 | sorting a list without repeats gives a key-ordered list without repeats and with the same members |
| TaskRules.NextPool | plugins/gosu-mcp-core/skills/task-list-md/scripts/task_list_md.py:697-711 | the pool is a subset of the candidates, and empty only when there are no candidates |
| TaskRules.IsCandidate | plugins/gosu-mcp-core/skills/task-list-md/scripts/task_list_md.py:666-691 | a task get_next_task may pick; ReadyAreCandidates relates it to readiness |
| TaskRules.IsReady | plugins/gosu-mcp-core/skills/task-list-md/scripts/task_list_md.py:1484-1510 | a task ready_tasks lists; ReadyAreCandidates states it |
| TaskRules.CandidateSet | plugins/gosu-mcp-core/skills/task-list-md/scripts/task_list_md.py:666-691 | the candidates of get_next_task; CollectCandidates and NextPool state it |
| TaskRules.ReadySet | plugins/gosu-mcp-core/skills/task-list-md/scripts/task_list_md.py:1480-1524 | the ready tasks; CollectReady states it |
| TaskRules.ReadyAreCandidates | plugins/gosu-mcp-core/skills/task-list-md/scripts/task_list_md.py:663-691 | a task is ready exactly when it is a candidate of get_next_task and pending (lines 1484-1510) |
| TaskRules.UniformStatus | plugins/gosu-mcp-core/skills/task-list-md/scripts/task_list_md.py:913-917 | the status all of a non-empty set share when there is one, and every shared status is it |
| TaskRules.UniformUnique | plugins/gosu-mcp-core/skills/task-list-md/scripts/task_list_md.py:916 | a non-empty set shares at most one status |
| TaskRules.Promote | plugins/gosu-mcp-core/skills/task-list-md/scripts/task_list_md.py:903-931 | promotion changes only the parent's status, and only to a status all of its direct sub-tasks share; when they share one the parent has it afterwards |
| TaskRules.PromoteAll | plugins/gosu-mcp-core/skills/task-list-md/scripts/task_list_md.py:1288-1290 | promoting several parents changes only their statuses |
| TaskRules.AddAll | plugins/gosu-mcp-core/skills/task-list-md/scripts/task_list_md.py:1079-1082 | appending keeps the old list as a prefix and holds exactly the old and the added items |
| TaskRules.AddAllNoDup | plugins/gosu-mcp-core/skills/task-list-md/scripts/task_list_md.py:1079-1082 | appending only missing items never creates a duplicate |
| TaskRules.RemoveFirst | plugins/gosu-mcp-core/skills/task-list-md/scripts/task_list_md.py:1087 | `remove` takes away one occurrence and keeps every other item |
| TaskRules.RemoveFirstNoDup | plugins/gosu-mcp-core/skills/task-list-md/scripts/task_list_md.py:1084-1087 | on a list without repeats the removed item is gone |
| TaskRules.RemoveAll | plugins/gosu-mcp-core/skills/task-list-md/scripts/task_list_md.py:1084-1087 | removing leaves only old items |
| TaskRules.RemoveAllNoDup | plugins/gosu-mcp-core/skills/task-list-md/scripts/task_list_md.py:1084-1087 | on a list without repeats the result holds exactly the old items not removed, without repeats |
| TaskRules.EditList | plugins/gosu-mcp-core/skills/task-list-md/scripts/task_list_md.py:1075-1101 | one list edited by its add, remove and clear; EditListSpec states it |
| TaskRules.EditListSpec | plugins/gosu-mcp-core/skills/task-list-md/scripts/task_list_md.py:1075-1101 | clear empties the list; otherwise the edited list holds exactly the old and added items not removed, and no duplicates |
| TaskRules.DependencyProblem | plugins/gosu-mcp-core/skills/task-list-md/scripts/task_list_md.py:1043-1055 | an added dependency is refused exactly when it is unknown, is the task itself, or already depends on the task |
| TaskRules.BadDependencyFrom | plugins/gosu-mcp-core/skills/task-list-md/scripts/task_list_md.py:1043-1055 | the index of the first refused added dependency, all earlier ones accepted |
| TaskRules.FirstBadDependency | plugins/gosu-mcp-core/skills/task-list-md/scripts/task_list_md.py:1043-1055 | no refusal exactly when every added dependency is acceptable; otherwise the refusal of the first refused one |
| TaskRules.AbsentFrom | plugins/gosu-mcp-core/skills/task-list-md/scripts/task_list_md.py:1058-1069 | the index of the first item not in the list, all earlier ones present |
| TaskRules.FirstAbsent | plugins/gosu-mcp-core/skills/task-list-md/scripts/task_list_md.py:1058-1069 | none exactly when every item to remove is present; otherwise the first that is not |
| TaskRules.CheckEdit | plugins/gosu-mcp-core/skills/task-list-md/scripts/task_list_md.py:1033-1069 | the checks of update_task; CheckUpdate shows the method computes them |
| TaskRules.ApplyEdit | plugins/gosu-mcp-core/skills/task-list-md/scripts/task_list_md.py:1071-1101 | the edits of update_task; ApplyEditOk and ApplyEditResult state them |
| TaskRules.ApplyEditOk | plugins/gosu-mcp-core/skills/task-list-md/scripts/task_list_md.py:1026-1069 | update_task succeeds exactly on an existing task and an edit that passes every check |
| TaskRules.EditListMembers | plugins/gosu-mcp-core/skills/task-list-md/scripts/task_list_md.py:1075-1101 | without clear, only old and added items can be in an edited list |
| TaskRules.ApplyEditResult | plugins/gosu-mcp-core/skills/task-list-md/scripts/task_list_md.py:1071-1101 | a successful edit changes only the two lists, each edited by its add, remove and clear, and every dependency left is an old one or an acceptable added one |
| Progress.SplitUnit | plugins/gosu-mcp-core/skills/task-list-md/scripts/task_list_md.py:242-263 | the number part and the unit (1, 60 or 3600 seconds) of a stripped duration |
| Progress.ParseDuration | plugins/gosu-mcp-core/skills/task-list-md/scripts/task_list_md.py:240-263 | a blank duration is refused; otherwise int() of the number part, times the unit, exactly when int() accepts it; DurationOf and DurationShape pin which texts those are |
| Progress.DurationOf | plugins/gosu-mcp-core/skills/task-list-md/scripts/task_list_md.py:240-263 | an optionally signed literal of underscore-joined digit groups, then whitespace and a unit letter h, m or s (or a bare literal), inside whitespace, is that many hours, minutes or seconds: " 2h " is 7200, "-1m" is -60, "1_000s" is 1000 |
| Progress.DurationShape | plugins/gosu-mcp-core/skills/task-list-md/scripts/task_list_md.py:240-263 | every accepted duration strips to such a literal and unit, with that value, so "xh", "1.5h", "h" and "2 hours" are refused |
| Progress.SplitUnitOf | plugins/gosu-mcp-core/skills/task-list-md/scripts/task_list_md.py:244-261 | digits followed by a unit suffix split into the digits and that unit |
| Progress.DurationRoundTrip | plugins/gosu-mcp-core/skills/task-list-md/scripts/task_list_md.py:240-263 | `Nh`, `Nm`, `Ns` and plain `N` parse to N·3600, N·60, N and N seconds |
| Progress.UnknownUnitRejected | plugins/gosu-mcp-core/skills/task-list-md/scripts/task_list_md.py:259-263 | a duration whose last character is no unit letter and no digit is refused |
| Progress.CountInAdd | plugins/gosu-mcp-core/skills/task-list-md/scripts/task_list_md.py:206-207 | counting one more task raises only the count of its status |
| Progress.CountsPartition | plugins/gosu-mcp-core/skills/task-list-md/scripts/task_list_md.py:198-210 | the five per-status counts add up to the number of tasks |
| Progress.StatsOf | plugins/gosu-mcp-core/skills/task-list-md/scripts/task_list_md.py:206-221 | the total is the number of tasks, the five counts sum to it, and completed is done + review + deferred |
| Progress.FirstMissing | plugins/gosu-mcp-core/skills/task-list-md/scripts/task_list_md.py:271-274 | none exactly when every listed ID is a task; otherwise the first that is not |
| Progress.NewCondition | plugins/gosu-mcp-core/skills/task-list-md/scripts/task_list_md.py:265-334 | an accepted condition lists exactly the given tasks |
| Progress.ConditionRefused | plugins/gosu-mcp-core/skills/task-list-md/scripts/task_list_md.py:270-297 | a refusal names a listed unknown task (only with a non-empty task map), a duration that does not parse, or a completed count plus complete_more above the total |
| Progress.ConditionAccepted | plugins/gosu-mcp-core/skills/task-list-md/scripts/task_list_md.py:282-326 | an accepted condition is valid for the parsed duration from now, lists the tasks, and expects completed + complete_more (never above the total) exactly when complete_more is given |
| Progress.TaskIssueOf | plugins/gosu-mcp-core/skills/task-list-md/scripts/task_list_md.py:356-360 | a listed task adds an issue exactly when it is missing or not done, review or deferred |
| Progress.UnmetTasks | plugins/gosu-mcp-core/skills/task-list-md/scripts/task_list_md.py:353-360 | no unmet task exactly when every listed task exists and is completed |
| Progress.CountIssue | plugins/gosu-mcp-core/skills/task-list-md/scripts/task_list_md.py:363-369 | a count issue exactly when an expected count is set and the stored completed count is below it |
| Progress.Assess | plugins/gosu-mcp-core/skills/task-list-md/scripts/task_list_md.py:346-378 | a condition is reported exactly when it has not expired and a listed task is missing or not completed, or the completed count falls short |
| Progress.Report | plugins/gosu-mcp-core/skills/task-list-md/scripts/task_list_md.py:343-380 | no more reports than conditions |
| Progress.ReportSound | plugins/gosu-mcp-core/skills/task-list-md/scripts/task_list_md.py:343-380 | every reported entry is the verdict on one of the conditions |
| Progress.ReportComplete | plugins/gosu-mcp-core/skills/task-list-md/scripts/task_list_md.py:343-380 | every live unmet condition is reported |
| Progress.CountsOfAdd | plugins/gosu-mcp-core/skills/task-list-md/scripts/task_list_md.py:206-207 | counting one more task bumps the count of its status |
| Progress.CountStatuses | plugins/gosu-mcp-core/skills/task-list-md/scripts/task_list_md.py:197-221 | the counting loop gives the statistics of the tasks |
| Progress.FindMissing | plugins/gosu-mcp-core/skills/task-list-md/scripts/task_list_md.py:271-274 | the ID loop finds the first listed ID that is not a task |
| Progress.CollectUnmetTasks | plugins/gosu-mcp-core/skills/task-list-md/scripts/task_list_md.py:353-360 | the inner loop collects the unmet tasks of one condition |
| Progress.BuildCondition | plugins/gosu-mcp-core/skills/task-list-md/scripts/task_list_md.py:270-297 | the validation steps build the condition or the refusal, in the source's order |
| Progress.RecountSpec | plugins/gosu-mcp-core/skills/task-list-md/scripts/task_list_md.py:179-226 | a recount leaves consistent statistics totalling the tasks, keeps the file's tracking conditions and every other file's record |
| Progress.ProgressTracker.constructor | plugins/gosu-mcp-core/skills/task-list-md/scripts/task_list_md.py:110-112 | the tracker starts from the stored data |
| Progress.ProgressTracker.CalculateStatistics | plugins/gosu-mcp-core/skills/task-list-md/scripts/task_list_md.py:179-226 | the file's record is replaced by the recount |
| Progress.ProgressTracker.AddTrackingCondition | plugins/gosu-mcp-core/skills/task-list-md/scripts/task_list_md.py:265-334 | the result is the checked condition; on refusal nothing changes; otherwise the condition is appended to the file's list, creating the record or the list when missing |
| Progress.ProgressTracker.CheckTrackingConditions | plugins/gosu-mcp-core/skills/task-list-md/scripts/task_list_md.py:336-380 | the unmet live conditions of the file, in order, judged against the stored completed count |
| Progress.ProgressTracker.ClearTrackingConditions | plugins/gosu-mcp-core/skills/task-list-md/scripts/task_list_md.py:382-407 | clearing succeeds when there is nothing to clear or it is confirmed; only then is the file's list emptied |
| TaskList.Blocker | plugins/gosu-mcp-core/skills/task-list-md/scripts/task_list_md.py:626-638 | a blocking parent exists exactly when the task is pending, the new status is not, and its known parent is pending or done |
| TaskList.PromotedParent | plugins/gosu-mcp-core/skills/task-list-md/scripts/task_list_md.py:657-661 | the parent promoted after a change is the non-empty parent of the ID |
| TaskList.SetStatusOutcome | plugins/gosu-mcp-core/skills/task-list-md/scripts/task_list_md.py:609-638 | set_status reports not found exactly for an unknown task, an invalid status exactly for an unknown value, a block only by the blocking parent, and otherwise the change from the old to the new status |
| TaskList.SetStatusTasks | plugins/gosu-mcp-core/skills/task-list-md/scripts/task_list_md.py:609-661 | the task map after set_status; SetStatusEffect and SetStatusChanged state it |
| TaskList.SetStatusEffect | plugins/gosu-mcp-core/skills/task-list-md/scripts/task_list_md.py:609-661 | set_status changes statuses only, and changes nothing unless it reports a change |
| TaskList.SetStatusChanged | plugins/gosu-mcp-core/skills/task-list-md/scripts/task_list_md.py:640-661 | after a change the task has its new status and the change was not one the parent blocks; only the task and its parent can differ afterwards, and the parent only by taking a status all its direct sub-tasks share |
| TaskList.SubTaskSetKeys | plugins/gosu-mcp-core/skills/task-list-md/scripts/task_list_md.py:895-901 | the sub-tasks of a parent depend only on which IDs exist |
| TaskList.WithStatus | plugins/gosu-mcp-core/skills/task-list-md/scripts/task_list_md.py:640 | one task's status set: the same ids, that task with the new status and its other fields kept, every other task unchanged |
| TaskList.BulkNext | plugins/gosu-mcp-core/skills/task-list-md/scripts/task_list_md.py:1252-1275 | one turn of the bulk status loop; BulkStep states it |
| TaskList.BulkApply | plugins/gosu-mcp-core/skills/task-list-md/scripts/task_list_md.py:1252-1275 | the bulk status loop over the ids, keeping the ids of the map; BulkApplyDone and BulkApplySpec state the rest |
| TaskList.BulkStep | plugins/gosu-mcp-core/skills/task-list-md/scripts/task_list_md.py:1252-1275 | one turn of the bulk loop keeps the loop's account of what it changed |
| TaskList.BulkApplyDone | plugins/gosu-mcp-core/skills/task-list-md/scripts/task_list_md.py:1250-1275 | the account holds after the whole loop |
| TaskList.BulkApplySpec | plugins/gosu-mcp-core/skills/task-list-md/scripts/task_list_md.py:1250-1275 | the bulk loop sets the new status on exactly the updated tasks and changes nothing else; every updated task was listed; a listed task it skipped was pending and the new status is not |
| TaskList.BulkOutcomeOf | plugins/gosu-mcp-core/skills/task-list-md/scripts/task_list_md.py:1236-1248 | the bulk command refuses an unknown status first, then the first unknown ID; it updates only when every ID is known |
| TaskList.DepsMet | plugins/gosu-mcp-core/skills/task-list-md/scripts/task_list_md.py:1489-1498 | the dependency loop holds exactly when every dependency is known and done or in review |
| TaskList.FindBadDependency | plugins/gosu-mcp-core/skills/task-list-md/scripts/task_list_md.py:1043-1055 | the check loop finds the first refused added dependency |
| TaskList.FindAbsent | plugins/gosu-mcp-core/skills/task-list-md/scripts/task_list_md.py:1058-1069 | the check loop finds the first item to remove that is not present |
| TaskList.AppendMissing | plugins/gosu-mcp-core/skills/task-list-md/scripts/task_list_md.py:1079-1082 | the add loop computes the appended list |
| TaskList.RemoveEach | plugins/gosu-mcp-core/skills/task-list-md/scripts/task_list_md.py:1084-1087 | the remove loop computes the reduced list |
| TaskList.CheckUpdate | plugins/gosu-mcp-core/skills/task-list-md/scripts/task_list_md.py:1033-1069 | the checks of update_task in their order |
| TaskList.EditedTask | plugins/gosu-mcp-core/skills/task-list-md/scripts/task_list_md.py:1075-1101 | both lists are cleared or extended and then reduced |
| TaskList.ApplyBulk | plugins/gosu-mcp-core/skills/task-list-md/scripts/task_list_md.py:1250-1275 | the status loop computes the bulk result and keeps the tasks well formed |
| TaskList.ParentsOf | plugins/gosu-mcp-core/skills/task-list-md/scripts/task_list_md.py:1280-1286 | the parents of the updated sub-tasks; CollectParents shows the loop computes them |
| TaskList.CollectParents | plugins/gosu-mcp-core/skills/task-list-md/scripts/task_list_md.py:1280-1286 | the parents gathered are those of the updated sub-tasks |
| TaskList.CollectReady | plugins/gosu-mcp-core/skills/task-list-md/scripts/task_list_md.py:1484-1510 | the loop collects exactly the ready tasks, once each |
| TaskList.CollectCandidates | plugins/gosu-mcp-core/skills/task-list-md/scripts/task_list_md.py:666-691 | the loop collects exactly the candidates of get_next_task, once each |
| TaskList.FilterPreferred | plugins/gosu-mcp-core/skills/task-list-md/scripts/task_list_md.py:703-707 | the preferred candidates are exactly those under an in-progress parent |
| TaskList.CollectSubTasks | plugins/gosu-mcp-core/skills/task-list-md/scripts/task_list_md.py:895-900 | the loop collects exactly the direct sub-tasks, once each |
| TaskList.CollectPool | plugins/gosu-mcp-core/skills/task-list-md/scripts/task_list_md.py:697-711 | the pool is the preferred candidates when there are any, else all candidates |
| TaskList.SortedFirstLeast | plugins/gosu-mcp-core/skills/task-list-md/scripts/task_list_md.py:714-715 | the head of a key-sorted list has no greater key than any member |
| TaskList.NotUniform | plugins/gosu-mcp-core/skills/task-list-md/scripts/task_list_md.py:916 | two sub-tasks with different statuses leave no shared status |
| TaskList.SharedStatus | plugins/gosu-mcp-core/skills/task-list-md/scripts/task_list_md.py:912-917 | the loop finds the status all direct sub-tasks share, if any |
| TaskList.TaskParser.constructor | plugins/gosu-mcp-core/skills/task-list-md/scripts/task_list_md.py:455-462 | the parser starts from the parsed tasks and recounts the file's statistics |
| TaskList.TaskParser.HasSubTasks | plugins/gosu-mcp-core/skills/task-list-md/scripts/task_list_md.py:888-893 | true exactly when the task has a direct sub-task |
| TaskList.TaskParser.GetSubTasks | plugins/gosu-mcp-core/skills/task-list-md/scripts/task_list_md.py:895-901 | the direct sub-tasks, once each, in sort-key order |
| TaskList.TaskParser.AutoUpdateParentStatus | plugins/gosu-mcp-core/skills/task-list-md/scripts/task_list_md.py:903-923 | the tasks afterwards are the promotion of the parent |
| TaskList.TaskParser.SetStatus | plugins/gosu-mcp-core/skills/task-list-md/scripts/task_list_md.py:609-661 | the reported outcome and the new tasks are those of the specification; the statistics are recounted after a change and before the promotion, and untouched otherwise |
| TaskList.TaskParser.SetStatusBulk | plugins/gosu-mcp-core/skills/task-list-md/scripts/task_list_md.py:1234-1290 | refusals change nothing; otherwise the status loop, one recount, then each parent of an updated sub-task promoted once |
| TaskList.TaskParser.PromoteParents | plugins/gosu-mcp-core/skills/task-list-md/scripts/task_list_md.py:1288-1290 | each parent is promoted once, in the order taken |
| TaskList.TaskParser.UpdateTask | plugins/gosu-mcp-core/skills/task-list-md/scripts/task_list_md.py:1018-1109 | every check comes before any change; a refusal changes nothing; a success writes back the edited task and recounts the statistics |
| TaskList.TaskParser.ReadyTasks | plugins/gosu-mcp-core/skills/task-list-md/scripts/task_list_md.py:1480-1520 | exactly the ready tasks, once each, in sort-key order |
| TaskList.TaskParser.GetNextTask | plugins/gosu-mcp-core/skills/task-list-md/scripts/task_list_md.py:663-715 | none exactly when there is no candidate; otherwise a member of the preferred pool with no smaller key in it |
| SessionHook.ValidSessionId | plugins/gosu-mcp-core/hooks/session_hook.py:149-164 | validate_session_id; ValidSessionIdIsUuid reduces it to the UUID shape |
| SessionHook.ValidSessionIdIsUuid | plugins/gosu-mcp-core/hooks/session_hook.py:149-164 | validate_session_id accepts exactly the strings of UUID shape (8-4-4-4-12 hexadecimal groups, any case, with `$` allowing one final newline) |
| SessionHook.ValidSessionIdIsPathSafe | plugins/gosu-mcp-core/hooks/session_hook.py:149-164 | an accepted ID holds only hexadecimal digits and hyphens, besides a possible final newline, so never `/`, `.` or `_` |
| SessionHook.ValidSessionIdLength | test/scripts/hooks/test_session_hook.py:81-101 | an accepted ID has 36 characters (37 with the final newline), with hyphens at positions 8, 13, 18 and 23 |
| SessionHook.ValidSessionIdIgnoresCase | plugins/gosu-mcp-core/hooks/session_hook.py:135-137 | the pattern is matched without regard to case |
| SessionHook.LowerUuidAccepted | test/scripts/hooks/test_session_hook.py:57-66 | a lower-case UUID is accepted |
| SessionHook.UpperUuidAccepted | test/scripts/hooks/test_session_hook.py:68-79 | an upper-case UUID is accepted |
| SessionHook.MalformedIdsRefused | test/scripts/hooks/test_session_hook.py:91-112 | underscores for hyphens, a path, the empty string, null and a number are refused |
| SessionHook.MatcherField | plugins/gosu-mcp-core/hooks/session_hook.py:221-239 | PreCompact matches on `trigger`, SessionStart on `source`, and no other event has a matcher field |
| SessionHook.PyStr | plugins/gosu-mcp-core/hooks/session_hook.py:272 | str of a string is the string itself |
| SessionHook.MatchesHookEntry | plugins/gosu-mcp-core/hooks/session_hook.py:242-273 | matches_hook_entry; MatchesWithoutMatcher and NonStringMatcherFails state its cases |
| SessionHook.MatchesWithoutMatcher | plugins/gosu-mcp-core/hooks/session_hook.py:258-266 | an entry with no or an empty matcher, or an event without a matcher field, matches every input |
| SessionHook.MatchesByField | plugins/gosu-mcp-core/hooks/session_hook.py:268-272 | otherwise the entry matches exactly when the lower-cased matcher equals the lower-cased input field, and never when the field is missing |
| SessionHook.NonStringMatcherFails | plugins/gosu-mcp-core/hooks/session_hook.py:272 | a non-string matcher on an event with a matcher field raises instead of matching |
| SessionHook.FirstSupportedFrom | plugins/gosu-mcp-core/hooks/session_hook.py:344-354 | none exactly when no hook of the list is supported; otherwise the first supported hook |
| SessionHook.EntryHook | plugins/gosu-mcp-core/hooks/session_hook.py:334-354 | what one entry gives: its matcher's error, nothing when it does not match, else its first supported hook; FirstHookIsFirst and AppendedEntryFound use it |
| SessionHook.FirstHookFrom | plugins/gosu-mcp-core/hooks/session_hook.py:333-356 | the lookup over the entries of an event from an index on; FirstHookNone and FirstHookIsFirst state what it gives |
| SessionHook.FirstHookNone | plugins/gosu-mcp-core/hooks/session_hook.py:333-356 | the lookup gives nothing exactly when every entry gives nothing |
| SessionHook.FirstHookIsFirst | plugins/gosu-mcp-core/hooks/session_hook.py:333-354 | otherwise the answer is that of the first entry that gives something |
| SessionHook.AppendedEntryFound | test/scripts/hooks/test_session_hook.py:558-583 | a new last entry is reached exactly when no earlier entry gives anything |
| SessionHook.HookFor | plugins/gosu-mcp-core/hooks/session_hook.py:276-356 | get_hook_for_event as a function; GetHookForEvent shows its loops compute it |
| SessionHook.GetHookForEvent | plugins/gosu-mcp-core/hooks/session_hook.py:276-356 | the scanning loops of get_hook_for_event give the lookup of the specification |
| SessionHook.FoundHookSupported | plugins/gosu-mcp-core/hooks/session_hook.py:344-354 | a found hook is a json hook or a command hook with a command |
| SessionHook.JsonHookExitCode | plugins/gosu-mcp-core/hooks/session_hook.py:410-418 | the exit code is 0 when missing or when int() refuses it, and otherwise int() of the configured value: an integer as given, true 1, a float truncated toward zero (2.9 gives 2), a string as int() reads it |
| SessionHook.StringExitCode | test/scripts/hooks/test_session_hook.py:659-663 | a string exit code spelling a number is that number |
| SessionHook.ExecuteJsonHook | plugins/gosu-mcp-core/hooks/session_hook.py:392-424 | the error reply (stdout nothing, exit 1) comes exactly when `json` is present and not an object; otherwise nothing goes to stderr, the exit code is that of the hook, a missing `json` prints {} and an object prints its fields |
| SessionHook.CommandTimeout | plugins/gosu-mcp-core/hooks/session_hook.py:476-484 | the timeout is between 0 and 60; it is 15 when the hook has none, and otherwise either 15 or int() of the hook's value |
| SessionHook.CommandTimeoutRule | plugins/gosu-mcp-core/hooks/session_hook.py:476-484 | a missing or non-numeric timeout is 15; an integer or a float is kept (the float truncated) when in (0, 60], else 15; `true` gives 1 and `false` 15 |
| SessionHook.SubSecondTimeoutTruncates | plugins/gosu-mcp-core/hooks/session_hook.py:478-484 | a timeout of 0.5 passes the range check and int() makes it 0 |
| SessionHook.Dispatch | plugins/gosu-mcp-core/hooks/session_hook.py:427-489 | main's reply to one hook call; EarlyExits and DispatchFoundHook state it |
| SessionHook.EarlyExits | plugins/gosu-mcp-core/hooks/session_hook.py:435-465 | input that is not an object, an invalid session ID or no hooks file makes main print {} and exit 0 |
| SessionHook.DispatchFoundHook | plugins/gosu-mcp-core/hooks/session_hook.py:467-489 | a found json hook gives its reply; a found command hook runs its command with the checked timeout |
| SessionHook.JsonHookExample | test/scripts/hooks/test_session_hook.py:635-640 | a json hook with an object and exit code 3 prints the object and exits 3 |
| HookBuilder.MatcherValues | plugins/gosu-mcp-core/skills/session-hook/scripts/create_session_hook.py:70-73 | only SessionStart and PreCompact take a matcher |
| HookBuilder.CreateJsonHook | plugins/gosu-mcp-core/skills/session-hook/scripts/create_session_hook.py:99-123 | the json hook has type json, a `json` object exactly when a decision, reason or message is given (holding exactly the given ones, the message as systemMessage), and an exit code exactly when it is not 0 |
| HookBuilder.CreateCommandHook | plugins/gosu-mcp-core/skills/session-hook/scripts/create_session_hook.py:126-139 | the command hook has type command, the command, and a timeout exactly when it is not 15 |
| HookBuilder.JsonHookReplayed | plugins/gosu-mcp-core/skills/session-hook/scripts/create_session_hook.py:99-123 | the dispatcher finds a built json hook and replies with exactly the given answer fields and the built exit code (session_hook.py lines 392-424) |
| HookBuilder.CommandHookReplayed | plugins/gosu-mcp-core/skills/session-hook/scripts/create_session_hook.py:126-139 | the dispatcher finds a built command hook and runs it with the built timeout when in (0, 60], else 15 (session_hook.py lines 476-484) |
| HookBuilder.Entry | plugins/gosu-mcp-core/skills/session-hook/scripts/create_session_hook.py:155-159 | the new entry holds the hook alone in a list, and the matcher, with its value, exactly when one is given |
| HookBuilder.Addable | plugins/gosu-mcp-core/skills/session-hook/scripts/create_session_hook.py:142-163 | add_hook_to_config does not raise: `hooks` is an object whose list for the event, if any, is a list; AddedAppends assumes it |
| HookBuilder.Added | plugins/gosu-mcp-core/skills/session-hook/scripts/create_session_hook.py:142-163 | the configuration after add_hook_to_config; AddedAppends states what it holds |
| HookBuilder.AddedAppends | plugins/gosu-mcp-core/skills/session-hook/scripts/create_session_hook.py:142-163 | adding appends the entry to the event's list and leaves every other key and every other event's list as it was |
| HookBuilder.AddedTwice | plugins/gosu-mcp-core/skills/session-hook/scripts/create_session_hook.py:161 | adding twice keeps both entries, in the order added |
| HookBuilder.Config.constructor | plugins/gosu-mcp-core/skills/session-hook/scripts/create_session_hook.py:315-318 | the configuration starts from the given object |
| HookBuilder.Config.AddHook | plugins/gosu-mcp-core/skills/session-hook/scripts/create_session_hook.py:142-163 | the add succeeds exactly when the `hooks` value and the event's list have the right shape, and then the configuration is the added one; otherwise nothing changes |
| HookBuilder.AddedHookFound | plugins/gosu-mcp-core/skills/session-hook/scripts/create_session_hook.py:142-163 | a supported hook added to a configuration where its event found nothing, in an entry matching the input, is the one the dispatcher finds (session_hook.py lines 276-356) |
| HookBuilder.EntryWithoutMatcherMatches | plugins/gosu-mcp-core/skills/session-hook/scripts/create_session_hook.py:157-159 | an entry written without a matcher matches every input of its event (session_hook.py lines 258-260) |
| HookBuilder.CheckMatcher | plugins/gosu-mcp-core/skills/session-hook/scripts/create_session_hook.py:271-291 | no error exactly when no matcher is given or the event takes matchers and lists the given one |
| HookBuilder.AcceptedMatchers | plugins/gosu-mcp-core/skills/session-hook/scripts/create_session_hook.py:70-73 | the accepted matchers are startup, resume, clear and compact for SessionStart and manual and auto for PreCompact |
| HookBuilder.AcceptedMatcherCompared | plugins/gosu-mcp-core/skills/session-hook/scripts/create_session_hook.py:271-291 | an accepted matcher is compared, ignoring case, with the input field the dispatcher reads (session_hook.py lines 262-272) |
| HookBuilder.MatcherEventsHaveFields | plugins/gosu-mcp-core/skills/session-hook/scripts/create_session_hook.py:70-73 | every event that takes matchers has a matcher field in the dispatcher (session_hook.py lines 221-239) |
| HookBuilder.CappedTimeout | plugins/gosu-mcp-core/skills/session-hook/scripts/create_session_hook.py:308 | the timeout is capped at 60 and otherwise kept |
| HookBuilder.CreateSessionHook | plugins/gosu-mcp-core/skills/session-hook/scripts/create_session_hook.py:166-330 | an unknown event or decision is a usage error; then an invalid session ID, then a matcher error, then a missing command refuse; the call succeeds exactly when every check passes and the base configuration can take the hook, and a success adds the built hook to it |
| HookBuilder.BaseConfig | plugins/gosu-mcp-core/skills/session-hook/scripts/create_session_hook.py:313-316 | the configuration the hook is added to: empty with `--force` or without a file, else the loaded one; FreshConfigTakesHook states the empty case |
| HookBuilder.FreshConfigTakesHook | plugins/gosu-mcp-core/skills/session-hook/scripts/create_session_hook.py:313-320 | with `--force` or without a hooks file, whatever the file holds, the base configuration takes the hook and holds it as the one entry of its event and nothing else |
| HookBuilder.CreatedTimeoutSeenByDispatcher | plugins/gosu-mcp-core/skills/session-hook/scripts/create_session_hook.py:308 | a created command hook runs with its timeout when in (0, 60], with 60 when above, and with 15 when not positive (session_hook.py lines 476-484) |
| Voice.MatchAt | plugins/voice-coding/hooks/voice_input_prompt_enhancer.py:40-64 | a match ends inside the text, and a match of a pattern that starts with a word starts on a non-space character and is not empty |
| Voice.Search | plugins/voice-coding/hooks/voice_input_prompt_enhancer.py:123 | search finds nothing exactly when the pattern matches at no position; otherwise it returns a position where it matches |
| Voice.CountZeroIffNotFound | plugins/voice-coding/hooks/voice_input_prompt_enhancer.py:196 | findall finds nothing exactly when search finds nothing |
| Voice.RemoveNothing | plugins/voice-coding/hooks/voice_input_prompt_enhancer.py:191 | sub leaves a text without matches unchanged |
| Voice.MatchLower | plugins/voice-coding/hooks/voice_input_prompt_enhancer.py:41-63 | every pattern flagged to ignore case matches a text and its lower-cased form at the same places and to the same end |
| Voice.FoundLower | plugins/voice-coding/hooks/voice_input_prompt_enhancer.py:185-196 | every pattern is found in the lower-cased prompt exactly when in the prompt |
| Voice.BlankNotFound | plugins/voice-coding/hooks/voice_input_prompt_enhancer.py:40-64 | no pattern that starts with a word or a bracket is found in a text of whitespace only |
| Voice.Elems | plugins/voice-coding/hooks/voice_input_prompt_enhancer.py:40-64 | each of the fifteen expressions is a pattern whose matches are never empty |
| Voice.SumCountsZero | plugins/voice-coding/hooks/voice_input_prompt_enhancer.py:194-200 | a sum of findall counts is zero exactly when no pattern is found |
| Voice.CleanNothing | plugins/voice-coding/hooks/voice_input_prompt_enhancer.py:189-191 | removing patterns that are not found changes nothing |
| Voice.PlaceholderCount | plugins/voice-coding/hooks/voice_input_prompt_enhancer.py:177-202 | count_placeholders; PlaceholderCountPositive, FormCountedOnce, OpeningFreeCount and CountPlaceholders state it |
| Voice.CleanForms | plugins/voice-coding/hooks/voice_input_prompt_enhancer.py:187-191 | removing the five bracketed patterns from a text takes out a single bracketed placeholder that follows bracket-free text, and keeps everything around it |
| Voice.SumForms | plugins/voice-coding/hooks/voice_input_prompt_enhancer.py:193-196 | a single bracketed placeholder after bracket-free text adds exactly one to the findall counts of the five bracketed patterns: its own pattern finds it once and the others not at all |
| Voice.FormCountedOnce | plugins/voice-coding/hooks/voice_input_prompt_enhancer.py:177-202 | no double counting: a `[…]`, `<…>`, `{…}` or `((…))` placeholder, in any letter case and with any whitespace between place and holder, after text without opening brackets, adds exactly one to the count of the whole prompt; the plain word inside it is not counted again |
| Voice.OpeningFreeCount | plugins/voice-coding/hooks/voice_input_prompt_enhancer.py:177-202 | a prompt without opening brackets is counted by the plain-word pattern alone |
| Voice.PlainAt | plugins/voice-coding/hooks/voice_input_prompt_enhancer.py:46 | `\bplace\s*holder\b` matches the word place, any whitespace and the word holder standing between word boundaries, and ends after holder |
| Voice.PlainFree | plugins/voice-coding/hooks/voice_input_prompt_enhancer.py:177-202 | a prompt without opening brackets in which no word starts with p counts no placeholder |
| Voice.PlainEnding | plugins/voice-coding/hooks/voice_input_prompt_enhancer.py:177-202 | the word placeholder in any case, closing a prompt whose earlier text has no opening bracket and no word starting with p, counts one |
| Voice.CleanCountsNothing | plugins/voice-coding/hooks/voice_input_prompt_enhancer.py:177-202 | a prompt with no opening bracket and no word starting with p counts zero |
| Voice.OneForm | plugins/voice-coding/hooks/voice_input_prompt_enhancer.py:177-202 | one bracketed placeholder between two texts with no opening bracket and no word starting with p counts one |
| Voice.FormAlone | plugins/voice-coding/hooks/voice_input_prompt_enhancer.py:177-202 | a bracketed placeholder on its own counts one |
| Voice.TwoForms | plugins/voice-coding/hooks/voice_input_prompt_enhancer.py:177-202 | two bracketed placeholders among texts with no opening bracket and no word starting with p count two |
| Voice.OneWord | plugins/voice-coding/hooks/voice_input_prompt_enhancer.py:177-202 | the plain word, in any case, after text with no opening bracket and no word starting with p that ends outside a word, counts one |
| Voice.TwoFormsAndWord | plugins/voice-coding/hooks/voice_input_prompt_enhancer.py:177-202 | two bracketed placeholders and a closing plain word among texts with no opening bracket and no word starting with p count three |
| VoiceExamples.SinglePlaceholders | test/scripts/hooks/test_voice_input_prompt_enhancer.py:126-131 | `Update [placeholder]`, `Fix <placeholder>`, `Check {placeholder}` and `Update placeholder` count one each |
| VoiceExamples.MultiplePlaceholders | test/scripts/hooks/test_voice_input_prompt_enhancer.py:133-136 | `Update [placeholder] and <placeholder> files` counts two |
| VoiceExamples.NoPlaceholders | test/scripts/hooks/test_voice_input_prompt_enhancer.py:138-141 | `Update the config file` and `Add new feature` count zero |
| VoiceExamples.CaseInsensitive | test/scripts/hooks/test_voice_input_prompt_enhancer.py:143-146 | `Update PLACEHOLDER` and `Update [PlaceHolder]` count one each |
| VoiceExamples.NoDoubleCounting | test/scripts/hooks/test_voice_input_prompt_enhancer.py:148-153 | `[placeholder]`, `<placeholder>` and `{placeholder}` count one each |
| VoiceExamples.MixedFormats | test/scripts/hooks/test_voice_input_prompt_enhancer.py:155-159 | `Update [placeholder] and {placeholder} and placeholder` counts three |
| VoiceExamples.AdjacentText | test/scripts/hooks/test_voice_input_prompt_enhancer.py:161-165 | `[placeholder]text` and `text[placeholder]` count one each |
| Voice.PlaceholderCountPositive | plugins/voice-coding/hooks/voice_input_prompt_enhancer.py:177-202 | count_placeholders is positive exactly when some placeholder pattern is found in the prompt |
| Voice.ShouldEnhance | plugins/voice-coding/hooks/voice_input_prompt_enhancer.py:108-126 | should_enhance_prompt; ShouldEnhanceIff and BlankNotEnhanced state it |
| Voice.ShouldEnhanceIff | plugins/voice-coding/hooks/voice_input_prompt_enhancer.py:108-126 | should_enhance_prompt holds exactly when the placeholder, ellipsis or trigger count is positive |
| Voice.BlankNotEnhanced | test/scripts/hooks/test_voice_input_prompt_enhancer.py:445-451 | the empty prompt and prompts of whitespace only are never enhanced |
| Voice.ShouldEnhancePrompt | plugins/voice-coding/hooks/voice_input_prompt_enhancer.py:108-126 | the loop over the fifteen patterns answers should_enhance_prompt |
| Voice.SumOfCounts | plugins/voice-coding/hooks/voice_input_prompt_enhancer.py:194-196 | the counting loop computes the sum of findall counts |
| Voice.CountPlaceholders | plugins/voice-coding/hooks/voice_input_prompt_enhancer.py:177-202 | the loops of count_placeholders compute the placeholder count: bracketed forms in the lowered prompt, then the plain word in what is left once they are removed |
| Voice.EllipsisCount | plugins/voice-coding/hooks/voice_input_prompt_enhancer.py:205-213 | count_ellipsis; CountEllipsis shows its loop computes it |
| Voice.CountEllipsis | plugins/voice-coding/hooks/voice_input_prompt_enhancer.py:205-213 | the loop of count_ellipsis computes the sum of the five findall counts |
| Voice.DotCountIsRuns | plugins/voice-coding/hooks/voice_input_prompt_enhancer.py:51 | from inside no long run, the dot pattern counts the maximal runs of three or more dots |
| Voice.DotsCountIsRuns | test/scripts/hooks/test_voice_input_prompt_enhancer.py:190-193 | the dot pattern counts each maximal run of three or more dots once, so four dots are one ellipsis |
| Voice.EtcIsWholeWord | plugins/voice-coding/hooks/voice_input_prompt_enhancer.py:53 | a match of the etc pattern is the word etc, any case, with no word character on either side |
| Voice.FetchHasNoEtc | test/scripts/hooks/test_voice_input_prompt_enhancer.py:485-496 | the letters etc inside a word are not counted |
| Voice.ShortDotsNotEllipsis | test/scripts/hooks/test_voice_input_prompt_enhancer.py:480-483 | a text with no run of three dots has no dot ellipsis |
| Voice.FirstKeyword | plugins/voice-coding/hooks/voice_input_prompt_enhancer.py:230 | the first keyword contained in the lowered prompt, all earlier ones absent |
| Voice.FirstDirectory | plugins/voice-coding/hooks/voice_input_prompt_enhancer.py:233-241 | the first directory the project has, all earlier ones missing |
| Voice.CategoryHintsMembers | plugins/voice-coding/hooks/voice_input_prompt_enhancer.py:228-243 | a hint is among the category hints exactly when one of the categories gives it |
| Voice.CategoriesDistinct | plugins/voice-coding/hooks/voice_input_prompt_enhancer.py:74-105 | the six categories have different names |
| Voice.CategorySuggestion | plugins/voice-coding/hooks/voice_input_prompt_enhancer.py:228-243 | a category gives a suggestion exactly when the lowered prompt holds one of its keywords and the project has one of its directories, and the suggestion names the first such keyword and the first such directory |
| Voice.PlaceholderSuggestions | plugins/voice-coding/hooks/voice_input_prompt_enhancer.py:245-255 | the placeholder lines appear exactly when the lowered prompt says placeholder or place holder, and then with the placeholder count |
| Voice.EllipsisSuggestions | plugins/voice-coding/hooks/voice_input_prompt_enhancer.py:257-268 | the three ellipsis lines appear exactly when the ellipsis count is positive, and then with that count |
| Voice.Instructions | plugins/voice-coding/hooks/voice_input_prompt_enhancer.py:216-293 | generate_file_finding_instructions; InstructionsLayout and GenerateFileFindingInstructions state it |
| Voice.InstructionsLayout | plugins/voice-coding/hooks/voice_input_prompt_enhancer.py:277-293 | the instructions start with the base instruction, hold the general guidance after the suggestions, and end with the voice-input note exactly when the prompt is longer than 200 characters |
| Voice.CollectCategoryHints | plugins/voice-coding/hooks/voice_input_prompt_enhancer.py:228-243 | the category loop gives the category hints |
| Voice.CollectExtras | plugins/voice-coding/hooks/voice_input_prompt_enhancer.py:245-268 | the placeholder and ellipsis branches give the extra lines |
| Voice.Suggestions | plugins/voice-coding/hooks/voice_input_prompt_enhancer.py:224-268 | the suggestion list; CollectSuggestions and CategorySuggestion state it |
| Voice.CollectSuggestions | plugins/voice-coding/hooks/voice_input_prompt_enhancer.py:224-268 | the suggestion list is the category hints followed by the extra lines |
| Voice.AppendBullets | plugins/voice-coding/hooks/voice_input_prompt_enhancer.py:280-288 | the loop appends one `- line` row per line |
| Voice.RenderSuggestions | plugins/voice-coding/hooks/voice_input_prompt_enhancer.py:277-293 | the rendering of the suggestion list |
| Voice.GenerateFileFindingInstructions | plugins/voice-coding/hooks/voice_input_prompt_enhancer.py:216-293 | the instructions as specified for the prompt and the project's directories |
| Voice.EnhancedOnlyWhenNeeded | plugins/voice-coding/hooks/voice_input_prompt_enhancer.py:296-336 | additional context is printed only for a string prompt that should be enhanced and a string cwd, and holds that prompt's instructions |
| Voice.EnhancerMain | plugins/voice-coding/hooks/voice_input_prompt_enhancer.py:296-345 | main's reply to one prompt; BadPromptRejected and the lemmas beside it state it |
| Voice.BadPromptRejected | plugins/voice-coding/hooks/voice_input_prompt_enhancer.py:306-309 | a missing, empty or non-string prompt is refused |
| Worktree.LetterRunEnd | plugins/gosu-mcp-core/skills/git-worktree/scripts/create_git_worktree.py:68 | the end of the run of ASCII letters from a position |
| Worktree.LetterWordsFrom | plugins/gosu-mcp-core/skills/git-worktree/scripts/create_git_worktree.py:68 | every word findall gives is a non-empty run of ASCII letters |
| Worktree.LongWords | plugins/gosu-mcp-core/skills/git-worktree/scripts/create_git_worktree.py:70 | the words longer than two letters, every one of them, and no other |
| Worktree.BranchWords | plugins/gosu-mcp-core/skills/git-worktree/scripts/create_git_worktree.py:67-71 | the words of the branch name: the first three found words longer than two letters, or `task`; BranchNameShape and EmptyPromptBranch state it |
| Worktree.GenerateBranchName | plugins/gosu-mcp-core/skills/git-worktree/scripts/create_git_worktree.py:65-74 | generate_branch_name; BranchNameShape, EmptyPromptBranch and BranchOfWords state it |
| Worktree.BranchNameShape | plugins/gosu-mcp-core/skills/git-worktree/scripts/create_git_worktree.py:65-74 | the branch name is agent/ followed by one to three lower-case words of more than two letters joined by hyphens, or agent/task |
| Worktree.EmptyPromptBranch | test/skills/git-worktree/test_create_git_worktree.py:128-135 | the empty prompt gives agent/task |
| Worktree.ShiftWords | plugins/gosu-mcp-core/skills/git-worktree/scripts/create_git_worktree.py:68 | words found after a non-word character do not depend on what came before it |
| Worktree.SkipNonLetters | plugins/gosu-mcp-core/skills/git-worktree/scripts/create_git_worktree.py:68 | no word starts inside a run of non-letters |
| Worktree.WordThenGap | plugins/gosu-mcp-core/skills/git-worktree/scripts/create_git_worktree.py:68 | a letter word followed by a separator is found first, and the rest is scanned afresh |
| Worktree.WovenWords | plugins/gosu-mcp-core/skills/git-worktree/scripts/create_git_worktree.py:68 | the words found in letter words joined by separators are exactly those words |
| Worktree.BranchOfWords | plugins/gosu-mcp-core/skills/git-worktree/scripts/create_git_worktree.py:65-74 | a prompt made of letter words and separators is named after its first three words longer than two letters, or task |
| Worktree.MakeBranchUnique | plugins/gosu-mcp-core/skills/git-worktree/scripts/create_git_worktree.py:76-89 | the name is kept when it is free; otherwise name-K for the smallest K from 1 that is free |
| Worktree.Parent | plugins/gosu-mcp-core/skills/git-worktree/scripts/create_git_worktree.py:95 | Path.parent as a string; PathParts states it |
| Worktree.Stem | plugins/gosu-mcp-core/skills/git-worktree/scripts/create_git_worktree.py:94 | Path.stem as a string; NumberingOf and NumberingFromParts use it |
| Worktree.Name | plugins/gosu-mcp-core/skills/git-worktree/scripts/create_git_worktree.py:94 | the name of a path holds no slash |
| Worktree.FindNumberMark | plugins/gosu-mcp-core/skills/git-worktree/scripts/create_git_worktree.py:98 | the first position where `-no` digits end the stem, none when there is no such position |
| Worktree.NumberingOf | plugins/gosu-mcp-core/skills/git-worktree/scripts/create_git_worktree.py:92-106 | the prefix is the whole stem, or the stem up to its `-no` mark |
| Worktree.FirstFields | plugins/gosu-mcp-core/skills/git-worktree/scripts/create_git_worktree.py:110-116 | at most one path per line of the listing |
| Worktree.NonBlankHasField | plugins/gosu-mcp-core/skills/git-worktree/scripts/create_git_worktree.py:113-115 | a line that is not blank has a first field |
| Worktree.WorktreeListPaths | plugins/gosu-mcp-core/skills/git-worktree/scripts/create_git_worktree.py:108-116 | the listing loop collects the first field of each non-blank line, and nothing when git fails |
| Worktree.Candidate | plugins/gosu-mcp-core/skills/git-worktree/scripts/create_git_worktree.py:120-121 | the path for one number; CandidateInjective and FirstFreeCandidate state it |
| Worktree.FirstFreeCandidate | plugins/gosu-mcp-core/skills/git-worktree/scripts/create_git_worktree.py:119-123 | the candidate for the smallest number from the start that is neither listed nor on disk |
| Worktree.ParseNumbering | plugins/gosu-mcp-core/skills/git-worktree/scripts/create_git_worktree.py:92-104 | the stem parsing gives the numbering of the specification |
| Worktree.FindUniqueWorktreePath | plugins/gosu-mcp-core/skills/git-worktree/scripts/create_git_worktree.py:91-123 | the path is neither listed nor on disk, is the candidate for the smallest free number from the start, and is the base path when that is the first candidate and free |
| Worktree.CandidateInjective | plugins/gosu-mcp-core/skills/git-worktree/scripts/create_git_worktree.py:120-121 | different numbers give different candidates |
| Worktree.CanonicalBaseIsFirst | test/skills/git-worktree/test_create_git_worktree.py:175-228 | a base path already of the form parent/prefix-noN is the first candidate |
| Worktree.NumberingFromParts | plugins/gosu-mcp-core/skills/git-worktree/scripts/create_git_worktree.py:98-101 | a stem prefix-noD is numbered from D with that prefix |
| Worktree.PathParts | plugins/gosu-mcp-core/skills/git-worktree/scripts/create_git_worktree.py:94-95 | joining a parent and a name splits back into the two |

## Left out

- Tokenising of `rm` commands: `shlex.split` quoting rules are not modelled; tokens are a whitespace split, which is the script's own fallback when `shlex` fails (block_dangerous_tool_usages.py:175-179).
- Character classes: `lower()`, `\w`, `\b` and the `[a-zA-Z]` word rule are modelled on the ASCII range; Python's Unicode letters, digits and case mappings are not. `\s` and `strip()` use the full list of Unicode whitespace code points.
- Regular expressions: no general engine; each pattern the scripts use is written out, and only `search`, `findall` and `sub` with the leftmost scan are modelled.
- PyStr: `str()` of floats, lists and objects is not spelled out, so a matcher compared with such an input field is taken as not matching.
- Standard input and output: JSON parsing and serialisation (`json.load`, `json.dumps` layout), `argparse`, the printed texts and `sys.exit` are not modelled; the decoded input is a parameter and outcomes are datatypes.
- Process execution: `execute_hook_command`, `subprocess`, its timeout handling, and the git, chown, go and npm calls of the worktree creator are not modelled; a command hook's outcome is the command and timeout it would run with.
- Filesystem: `find_session_hooks_file`, the size limit and parsing in `load_hooks_config`, `get_project_context` (its directory set is a parameter), `Path.exists` (a finite set of existing paths), the reading and rewriting of the task markdown and of the progress store are not modelled.
- Worktree creation: `create_worktree` and the copy, symlink, ownership and verification steps of create_git_worktree.py are not modelled.
- MakeBranchUnique: `git branch --list` output is modelled as the set of existing branch names, so the source's substring test `name in stdout` (which also counts longer branch names containing the name) and a failing git call (on which the source loops forever) are not modelled.
- FindUniqueWorktreePath: `pathlib` normalisation is modelled only for plain `/`-separated paths, and the result is proved to be the base path (when free) only for a base already in the canonical form `parent/prefix-noN` (`CanonicalBaseIsFirst`); for a base such as `x`, `x-no01` or `x.d` the source, like the model, returns a rebuilt name instead.
- Voice.FormCountedOnce: stated for the four single bracket forms after text without opening brackets. The double-square form is left out on purpose: inside `[[placeholder]]` the square pattern also finds `[placeholder]`, so the source counts it twice. For the same reason a bracket just before a form (as in `[` + `[placeholder]` + `]`) can add a second match.
- Concrete test prompts: `fix a bug in the api` → `agent/fix-bug-the` and `refactor API-errors & warnings` → `agent/refactor-api-errors` are covered by the general `BranchOfWords` lemma, not evaluated one by one. The placeholder test prompts are proved one by one in `VoiceExamples`, each written as the concatenation of its pieces.
- Task list file handling: `add_task`, `delete_task`, `_parse_file`, `_update_file_status` and every rewrite of the markdown file are not modelled; the parsed tasks are a parameter of the `TaskParser` constructor.
- Progress store: the per-task status history, ISO timestamps, `resolve_file_path`, `detect_infinite_loop` and the floating-point completion percentage of `calculate_statistics` are not modelled.
- Progress.NewCondition: times are unbounded integers, so a duration whose expiry lies past the range of `datetime` (after year 9999, as with `--valid-for 100000000h`) is accepted, where `datetime.now() + timedelta(...)` raises an OverflowError outside the ValueError handler (task_list_md.py:277-282) and the command ends with a traceback and exit 1.
- Progress.ProgressTracker.AddTrackingCondition: for the same reason it appends such a condition, where the source raises before storing anything.
- Json.IntCoerce: JSON numbers are finite (`JFloat` holds a real), so the `NaN`, `Infinity` and `-Infinity` that `json.load` accepts are not modelled; `int()` raises on them (OverflowError for the infinities, ValueError for NaN).
- SessionHook.JsonHookExitCode: for the same reason `"exitcode": Infinity` is not modelled; the source's OverflowError is not caught by the handler at session_hook.py:416, so the dispatcher reports "Unexpected error" and exits 1 (session_hook.py:501-503).
- SessionHook.CommandTimeout: for the same reason `"timeout": NaN` is not modelled; it passes the range test of session_hook.py:479-484, `int(nan)` then raises ValueError, and the dispatcher exits 1.
- Time: `datetime.now()` is an integer parameter `now` (seconds), and a condition's expiry is an integer `validBefore`.
- TaskList.TaskParser.SetStatusBulk: the parents of updated sub-tasks live in a Python set whose iteration order is the hash order; the model proves the result for the order it picks, promoting each parent once.
- TaskList.TaskParser.ReadyTasks: the task dictionary's insertion order is not kept (tasks are a map) and the result is ordered by the sort key alone, so IDs with equal keys (such as `1` and `01`) may come out in another order than the source's.
- TaskList.TaskParser.GetSubTasks: for the same reason, sub-tasks with equal sort keys may come out in another order than the source's.
- TaskList.TaskParser.GetNextTask: for the same reason, when several pool members share the least sort key, the one picked may differ from the source's.
- Colour output, usage texts and all human-readable reports are not modelled.
