/** The pre-tool-use hook that blocks dangerous tool usages: path
    classification, the `rm` scanner, the git pattern list, the `.env` access
    check and the order in which the hook applies them. */
module DangerousTools {
  import opened Text
  import opened Json
  import opened Patterns

  // ------------------------------------------------------------ classify_path

  datatype PathClass = Safe | Potential | Dangerous

  const HighRiskRoots: seq<string> :=
    ["/", "/bin", "/boot", "/dev", "/etc", "/lib", "/lib32", "/lib64",
     "/proc", "/root", "/run", "/sbin", "/sys", "/usr", "/var/lib", "/var/run"]

  /** `l == root or l.startswith(root + '/')`. */
  predicate AtOrUnder(l: string, root: string) {
    l == root || StartsWith(l, root + "/")
  }

  /** The parent-traversal shapes. */
  predicate IsTraversal(l: string) {
    l == ".." || l == "../"
    || StartsWith(l, "../") || StartsWith(l, "..\\")
    || ContainsText(l, "/../") || ContainsText(l, "\\..")
    || EndsWith(l, "/..") || EndsWith(l, "\\..")
  }

  /** The home-directory shapes. */
  predicate IsHomeRef(l: string) {
    StartsWith(l, "~") || StartsWith(l, "$home") || StartsWith(l, "${home")
  }

  /** `l.strip('*') == ''`: the path is made of stars only. */
  predicate OnlyStars(l: string) {
    forall i :: 0 <= i < |l| ==> l[i] == '*'
  }

  /** A broad absolute glob under one of the scratch or workspace areas. */
  predicate UnderWildcardArea(l: string) {
    StartsWith(l, "/tmp/") || StartsWith(l, "/var/log/")
    || StartsWith(l, "/workspace/") || StartsWith(l, "/workspaces/")
  }

  /** At or under /tmp or /var/log. */
  predicate UnderSafeArea(l: string) {
    AtOrUnder(l, "/tmp") || AtOrUnder(l, "/var/log")
  }

  /** At or under a critical system location. */
  predicate UnderHighRiskRoot(l: string) {
    exists r :: r in HighRiskRoots && AtOrUnder(l, r)
  }

  predicate IsWorkspaceRoot(l: string) {
    l == "/workspace" || l == "/workspaces"
  }

  predicate UnderWorkspace(l: string) {
    StartsWith(l, "/workspace/") || StartsWith(l, "/workspaces/")
  }

  /** The ordered chain of rules of classify_path, applied to the stripped,
      lower-cased path l (it is empty exactly when the stripped path is). */
  function ClassifyLowered(l: string): (c: PathClass)
  {
    if l == [] || l == "*" then Dangerous
    else if l == "." then Dangerous
    else if IsTraversal(l) then Potential
    else if IsHomeRef(l) then Dangerous
    else if ContainsText(l, "*") then
      if OnlyStars(l) then Dangerous
      else if StartsWith(l, "/") then (if UnderWildcardArea(l) then Potential else Dangerous)
      else Safe
    else if StartsWith(l, "/") then
      if UnderSafeArea(l) then Safe
      else if UnderHighRiskRoot(l) then Dangerous
      else if IsWorkspaceRoot(l) then Dangerous
      else if UnderWorkspace(l) then Potential
      else Safe
    else if StartsWith(l, "./") then Safe
    else if ContainsText(l, ".") && !StartsWith(l, ".") then Safe
    else Dangerous
  }

  /** classify_path. */
  function ClassifyPath(path: string): (c: PathClass)
  {
    ClassifyLowered(Lower(Strip(path)))
  }

  /** The classification ignores letter case. */
  lemma ClassifyIgnoresCase(path: string)
    ensures ClassifyPath(Lower(path)) == ClassifyPath(path)
  {
    StripLower(path);
    LowerIdempotent(Strip(path));
  }

  /** The classification ignores surrounding whitespace. */
  lemma ClassifyIgnoresSurroundingSpace(path: string)
    ensures ClassifyPath(Strip(path)) == ClassifyPath(path)
  {
    StripIdempotent(path);
  }

  /** What a `safe` verdict guarantees: the path is not empty, not a bare
      star or dot, not a traversal, not in the home directory, not a high-risk
      root or anything under one, not a workspace root, and a wildcard in it
      is relative. */
  lemma SafeMeansHarmless(path: string)
    requires ClassifyPath(path) == Safe
    ensures var l := Lower(Strip(path));
      && l != [] && l != "*" && l != "."
      && !IsTraversal(l) && !IsHomeRef(l)
      && (forall r :: r in HighRiskRoots ==> !AtOrUnder(l, r))
      && !IsWorkspaceRoot(l)
      && (ContainsText(l, "*") ==> !StartsWith(l, "/"))
  {
    var l := Lower(Strip(path));
    SafeLoweredHarmless(l);
  }

  lemma SafeLoweredHarmless(l: string)
    requires ClassifyLowered(l) == Safe
    ensures l != [] && l != "*" && l != "."
    ensures !IsTraversal(l) && !IsHomeRef(l)
    ensures forall r :: r in HighRiskRoots ==> !AtOrUnder(l, r)
    ensures !IsWorkspaceRoot(l)
    ensures ContainsText(l, "*") ==> !StartsWith(l, "/")
  {
    forall r | r in HighRiskRoots ensures !AtOrUnder(l, r) {
      SafeNotUnderRoot(l, r);
    }
    AtOrUnderAbsolute(l, "/workspace");
    AtOrUnderAbsolute(l, "/workspaces");
    if AtOrUnder(l, "/tmp") {
      Diverge(l, "/tmp", "/workspace", 1);
      Diverge(l, "/tmp", "/workspaces", 1);
    }
    if AtOrUnder(l, "/var/log") {
      Diverge(l, "/var/log", "/workspace", 1);
      Diverge(l, "/var/log", "/workspaces", 1);
    }
  }

  /** A safe path is at or under no high-risk root. */
  lemma SafeNotUnderRoot(l: string, r: string)
    requires ClassifyLowered(l) == Safe && r in HighRiskRoots
    ensures !AtOrUnder(l, r)
  {
    if !StartsWith(l, "/") {
      AtOrUnderAbsolute(l, r);
    } else if AtOrUnder(l, "/tmp") {
      TmpUnderNoRoot(l, r);
    } else if AtOrUnder(l, "/var/log") {
      VarLogUnderNoRoot(l, r);
    }
  }

  lemma TmpUnderNoRoot(l: string, r: string)
    requires AtOrUnder(l, "/tmp") && r in HighRiskRoots
    ensures !AtOrUnder(l, r)
  {
    assert r == "/" || (|r| > 1 && r[1] != 't');
    Diverge(l, "/tmp", r, 1);
  }

  lemma VarLogUnderNoRoot(l: string, r: string)
    requires AtOrUnder(l, "/var/log") && r in HighRiskRoots
    ensures !AtOrUnder(l, r)
  {
    RootsBesideVarLog(r);
    if r == "/var/lib" {
      Diverge(l, "/var/log", r, 6);
    } else if r == "/var/run" {
      Diverge(l, "/var/log", r, 5);
    } else {
      Diverge(l, "/var/log", r, 1);
    }
  }

  /** How the high-risk roots part ways with `/var/log`. */
  lemma RootsBesideVarLog(r: string)
    requires r in HighRiskRoots
    ensures r == "/" || (|r| > 1 && r[1] != 'v') || r == "/var/lib" || r == "/var/run"
  {
  }

  /** Only an absolute path is at or under an absolute root. */
  lemma AtOrUnderAbsolute(l: string, r: string)
    requires |r| > 0 && r[0] == '/'
    ensures AtOrUnder(l, r) ==> StartsWith(l, "/")
  {
    if AtOrUnder(l, r) {
      if l != r {
        assert l[0] == l[..|r| + 1][0];
      }
      assert l[..1] == "/";
    }
  }

  /** A path at or under `a` is not at or under `b` when `a` and `b` part
      ways at position k. */
  lemma Diverge(l: string, a: string, b: string, k: nat)
    requires AtOrUnder(l, a) && k < |a|
    requires (k < |b| && a[k] != b[k]) || (k == |b| && a[k] != '/')
    ensures !AtOrUnder(l, b)
  {
    assert l[k] == a[k] by {
      if l != a {
        assert l[k] == l[..|a| + 1][k];
      }
    }
  }

  /** A path without capitals or surrounding whitespace is classified as
      written. */
  lemma ClassifyAsWritten(p: string)
    requires p == [] || (!IsSpace(p[0]) && !IsSpace(p[|p| - 1]))
    requires IsLowered(p)
    ensures ClassifyPath(p) == ClassifyLowered(p)
  {
    StripUnchanged(p);
    LoweredUnchanged(p);
  }

  /** The root directory is dangerous. */
  lemma ClassifyRoot()
    ensures ClassifyPath("/") == Dangerous
  {
    ClassifyAsWritten("/");
    assert !IsTraversal("/");
    assert !IsHomeRef("/");
    assert !ContainsText("/", "*");
    assert StartsWith("/", "/");
    assert !UnderSafeArea("/");
    assert AtOrUnder("/", "/");
  }

  /** A path that climbs to a parent directory is potentially dangerous,
      whatever else it holds. */
  lemma TraversalIsPotential(path: string)
    requires IsTraversal(Lower(Strip(path)))
    ensures ClassifyPath(path) == Potential
  {
  }

  /** A path in the home directory that does not climb out of it is
      dangerous. */
  lemma HomeRefIsDangerous(path: string)
    requires var l := Lower(Strip(path)); IsHomeRef(l) && !IsTraversal(l)
    ensures ClassifyPath(path) == Dangerous
  {
  }

  /** An absolute wildcard is potentially dangerous under /tmp/, /var/log/,
      /workspace/ and /workspaces/, and dangerous anywhere else. */
  lemma AbsoluteWildcard(path: string)
    requires var l := Lower(Strip(path));
      ContainsText(l, "*") && StartsWith(l, "/") && !IsTraversal(l)
    ensures ClassifyPath(path) == if UnderWildcardArea(Lower(Strip(path))) then Potential else Dangerous
  {
    AbsoluteWildcardLowered(Lower(Strip(path)));
  }

  lemma AbsoluteWildcardLowered(l: string)
    requires ContainsText(l, "*") && StartsWith(l, "/") && !IsTraversal(l)
    ensures ClassifyLowered(l) == if UnderWildcardArea(l) then Potential else Dangerous
  {
    AbsoluteShape(l);
  }

  /** An absolute path is neither empty, a bare star or dot, nothing but
      stars, nor in the home directory. */
  lemma AbsoluteShape(l: string)
    requires StartsWith(l, "/")
    ensures l != [] && l != "*" && l != "." && !OnlyStars(l) && !IsHomeRef(l)
  {
    assert l[0] == '/';
  }

  /** Anything below /workspace or /workspaces is potentially dangerous. */
  lemma WorkspaceContentIsPotential(path: string)
    requires UnderWorkspace(Lower(Strip(path)))
    ensures ClassifyPath(path) == Potential
  {
    WorkspaceContentLowered(Lower(Strip(path)));
  }

  lemma WorkspaceContentLowered(l: string)
    requires UnderWorkspace(l)
    ensures ClassifyLowered(l) == Potential
  {
    assert StartsWith(l, "/") by {
      if StartsWith(l, "/workspace/") { assert l[..1] == l[..11][..1]; }
      else { assert l[..1] == l[..12][..1]; }
    }
    AbsoluteShape(l);
    WorkspaceNotSafeArea(l);
    assert !UnderHighRiskRoot(l) by {
      forall r | r in HighRiskRoots ensures !AtOrUnder(l, r) {
        WorkspaceUnderNoRoot(l, r);
      }
    }
    assert !IsWorkspaceRoot(l) by {
      if StartsWith(l, "/workspace/") {
        assert l[10] == l[..11][10] == '/';
      } else {
        assert |l| >= 12;
      }
    }
  }

  /** A path at or under a high-risk root (none of which covers /tmp or
      /var/log or a workspace) is dangerous unless it climbs to a parent. */
  lemma HighRiskRootIsDangerous(path: string, r: string)
    requires var l := Lower(Strip(path)); r in HighRiskRoots && AtOrUnder(l, r) && !IsTraversal(l)
    ensures ClassifyPath(path) == Dangerous
  {
    HighRiskRootLowered(Lower(Strip(path)), r);
  }

  lemma HighRiskRootLowered(l: string, r: string)
    requires r in HighRiskRoots && AtOrUnder(l, r) && !IsTraversal(l)
    ensures ClassifyLowered(l) == Dangerous
  {
    AtOrUnderAbsolute(l, r);
    AbsoluteShape(l);
    RootOutsideScratch(l, r);
    assert UnderHighRiskRoot(l);
  }

  /** No path under a high-risk root is in a scratch area or a workspace. */
  lemma RootOutsideScratch(l: string, r: string)
    requires r in HighRiskRoots && AtOrUnder(l, r)
    ensures !UnderWildcardArea(l) && !UnderSafeArea(l)
  {
    if AtOrUnder(l, "/tmp") || StartsWith(l, "/tmp/") {
      TmpUnderNoRoot(l, r);
    }
    if AtOrUnder(l, "/var/log") || StartsWith(l, "/var/log/") {
      VarLogUnderNoRoot(l, r);
    }
    if UnderWorkspace(l) {
      WorkspaceUnderNoRoot(l, r);
    }
  }

  /** Every traversal shape holds two dots in a row. */
  lemma TraversalHasDotDot(l: string) returns (i: nat)
    requires IsTraversal(l)
    ensures i + 1 < |l| && l[i] == '.' && l[i + 1] == '.'
  {
    if l == ".." || l == "../" || StartsWith(l, "../") || StartsWith(l, "..\\") {
      i := 0;
      assert l[0] == l[..2][0] && l[1] == l[..2][1] by {
        if StartsWith(l, "../") || StartsWith(l, "..\\") { assert l[..2] == l[..3][..2]; }
      }
    } else if ContainsText(l, "/../") {
      var k :| 0 <= k <= |l| - 4 && OccursAt(l, "/../", k);
      i := k + 1;
      assert l[k + 1] == l[k..k + 4][1] && l[k + 2] == l[k..k + 4][2];
    } else if ContainsText(l, "\\..") {
      var k :| 0 <= k <= |l| - 3 && OccursAt(l, "\\..", k);
      i := k + 1;
      assert l[k + 1] == l[k..k + 3][1] && l[k + 2] == l[k..k + 3][2];
    } else {
      i := |l| - 2;
      assert l[i] == l[|l| - 3..][1] && l[i + 1] == l[|l| - 3..][2];
    }
  }

  /** So a path without two dots in a row never counts as a traversal. */
  lemma NoDotDotNoTraversal(l: string)
    requires forall i :: 0 <= i < |l| - 1 ==> l[i] != '.' || l[i + 1] != '.'
    ensures !IsTraversal(l)
  {
    if IsTraversal(l) {
      var i := TraversalHasDotDot(l);
    }
  }

  lemma WorkspaceUnderNoRoot(l: string, r: string)
    requires UnderWorkspace(l) && r in HighRiskRoots
    ensures !AtOrUnder(l, r)
  {
    assert r == "/" || (|r| > 1 && r[1] != 'w');
    if StartsWith(l, "/workspace/") {
      assert AtOrUnder(l, "/workspace");
      Diverge(l, "/workspace", r, 1);
    } else {
      assert AtOrUnder(l, "/workspaces");
      Diverge(l, "/workspaces", r, 1);
    }
  }

  lemma WorkspaceNotSafeArea(l: string)
    requires UnderWorkspace(l)
    ensures !UnderSafeArea(l)
  {
    var w := if StartsWith(l, "/workspace/") then "/workspace" else "/workspaces";
    assert AtOrUnder(l, w);
    Diverge(l, w, "/tmp", 1);
    Diverge(l, w, "/var/log", 1);
  }

  // --------------------------------------------------------------- rm scanner

  /** `--force` or `--force=...` (on the lower-cased token). */
  predicate IsLongForce(t: string) { t == "--force" || StartsWith(t, "--force=") }

  /** `--recursive` or `--recursive=...` (on the lower-cased token). */
  predicate IsLongRecursive(t: string) { t == "--recursive" || StartsWith(t, "--recursive=") }

  /** A cluster of short flags such as `-rf` (on the lower-cased token). */
  predicate IsShortCluster(t: string) { StartsWith(t, "-") && !StartsWith(t, "--") && |t| > 1 }

  /** The lower-cased token sets the force flag. */
  predicate SetsForce(t: string) {
    IsLongForce(t) || (IsShortCluster(t) && 'f' in t[1..])
  }

  /** The lower-cased token sets the recursive flag. */
  predicate SetsRecursive(t: string) {
    (!IsLongForce(t) && IsLongRecursive(t)) || (IsShortCluster(t) && 'r' in t[1..])
  }

  /** The lower-cased token is a long force or long recursive flag. */
  predicate IsLongFlag(t: string) { IsLongForce(t) || IsLongRecursive(t) }

  /** A token the scanner keeps as a path: neither `--...` nor a flag cluster. */
  predicate IsOperand(t: string) {
    !StartsWith(Lower(t), "--") && !IsShortCluster(Lower(t))
  }

  /** Some token of ts sets the force flag. */
  predicate AnyForce(ts: seq<string>) {
    ts != [] && (AnyForce(ts[..|ts| - 1]) || SetsForce(Lower(ts[|ts| - 1])))
  }

  /** Some token of ts sets the recursive flag. */
  predicate AnyRecursive(ts: seq<string>) {
    ts != [] && (AnyRecursive(ts[..|ts| - 1]) || SetsRecursive(Lower(ts[|ts| - 1])))
  }

  /** Some token of ts is a long force or recursive flag. */
  predicate AnyLong(ts: seq<string>) {
    ts != [] && (AnyLong(ts[..|ts| - 1]) || IsLongFlag(Lower(ts[|ts| - 1])))
  }

  /** The operands of ts, in order. */
  function Operands(ts: seq<string>): (ps: seq<string>)
    ensures |ps| <= |ts|
  {
    if ts == [] then []
    else Operands(ts[..|ts| - 1]) + (if IsOperand(ts[|ts| - 1]) then [ts[|ts| - 1]] else [])
  }

  /** The index of the first `--` token, or |args| when there is none. */
  function OptionsEnd(args: seq<string>): (e: nat)
    ensures e <= |args|
    ensures forall k :: 0 <= k < e ==> Lower(args[k]) != "--"
    ensures e < |args| ==> Lower(args[e]) == "--"
  {
    if args == [] then 0
    else if Lower(args[0]) == "--" then 0
    else 1 + OptionsEnd(args[1..])
  }

  /** The path arguments: operands before `--`, then every token after it. */
  function RmPaths(args: seq<string>): seq<string>
  {
    var e := OptionsEnd(args);
    Operands(args[..e]) + (if e < |args| then args[e + 1..] else [])
  }

  /** The code of one classification. */
  function Code(c: PathClass): int {
    match c
    case Dangerous => 2
    case Potential => 1
    case Safe => 0
  }

  /** The verdict for the paths: the first path that is not safe decides. */
  function PathsVerdict(paths: seq<string>): (r: int)
    ensures 0 <= r <= 2
  {
    if paths == [] then 0
    else if ClassifyPath(paths[0]) == Safe then PathsVerdict(paths[1..])
    else Code(ClassifyPath(paths[0]))
  }

  /** is_dangerous_rm_command as a function of the command line: 0 (not a
      dangerous rm), 1 (ask) or 2 (deny). */
  function RmVerdict(command: string): (r: int)
    ensures 0 <= r <= 2
  {
    var cmd := Strip(command);
    var tokens := SplitWs(cmd);
    if cmd == [] || tokens == [] || Lower(tokens[0]) != "rm" then 0
    else
      var args := tokens[1..];
      var opts := args[..OptionsEnd(args)];
      if !(AnyForce(opts) && AnyRecursive(opts)) then 0
      else if AnyLong(opts) then 2
      else if RmPaths(args) == [] then 2
      else PathsVerdict(RmPaths(args))
  }

  /** The classification of each path. */
  function Classes(paths: seq<string>): (cs: seq<PathClass>)
    ensures |cs| == |paths|
  {
    if paths == [] then [] else [ClassifyPath(paths[0])] + Classes(paths[1..])
  }

  /** Classes holds the classification of each path. */
  lemma {:induction false} ClassesAt(paths: seq<string>, k: nat)
    requires k < |paths|
    ensures Classes(paths)[k] == ClassifyPath(paths[k])
  {
    if k > 0 {
      ClassesAt(paths[1..], k - 1);
    }
  }

  /** The verdict of a sequence of classifications: the first one that is
      not safe decides. */
  function Verdict(cs: seq<PathClass>): (r: int)
  {
    if cs == [] then 0 else if cs[0] == Safe then Verdict(cs[1..]) else Code(cs[0])
  }

  lemma {:induction false} PathsVerdictOfClasses(paths: seq<string>)
    ensures PathsVerdict(paths) == Verdict(Classes(paths))
  {
    if paths != [] {
      PathsVerdictOfClasses(paths[1..]);
      assert Classes(paths)[1..] == Classes(paths[1..]);
    }
  }

  lemma {:induction false} AllSafeClasses(cs: seq<PathClass>)
    ensures Verdict(cs) == 0 <==> forall k :: 0 <= k < |cs| ==> cs[k] == Safe
  {
    if cs != [] {
      AllSafeClasses(cs[1..]);
      assert forall k :: 0 < k < |cs| ==> cs[k] == cs[1..][k - 1];
    }
  }

  lemma {:induction false} FirstUnsafeClass(cs: seq<PathClass>, k: nat)
    requires k < |cs| && cs[k] != Safe
    requires forall j :: 0 <= j < k ==> cs[j] == Safe
    ensures Verdict(cs) == Code(cs[k])
  {
    if k > 0 {
      assert cs[1..][k - 1] == cs[k];
      FirstUnsafeClass(cs[1..], k - 1);
    }
  }

  /** The verdict for the paths is 0 exactly when every path is safe. */
  lemma AllSafeVerdict(paths: seq<string>)
    ensures PathsVerdict(paths) == 0 <==> forall k :: 0 <= k < |paths| ==> Classes(paths)[k] == Safe
  {
    PathsVerdictOfClasses(paths);
    AllSafeClasses(Classes(paths));
  }

  /** Otherwise the first path that is not safe decides the verdict (cs
      names the classes of the paths). */
  lemma FirstUnsafeDecides(paths: seq<string>, cs: seq<PathClass>, k: nat)
    requires cs == Classes(paths)
    requires k < |cs| && cs[k] != Safe
    requires forall j :: 0 <= j < k ==> cs[j] == Safe
    ensures PathsVerdict(paths) == Code(cs[k])
  {
    FirstUnsafeClass(cs, k);
    PathsVerdictOfClasses(paths);
  }

  /** A non-zero verdict needs an rm command with both the force and the
      recursive flag before any `--`. */
  lemma RmNeedsForceAndRecursive(command: string)
    requires RmVerdict(command) != 0
    ensures var tokens := SplitWs(Strip(command));
      && tokens != [] && Lower(tokens[0]) == "rm"
      && AnyForce(tokens[1..][..OptionsEnd(tokens[1..])])
      && AnyRecursive(tokens[1..][..OptionsEnd(tokens[1..])])
  {
  }

  /** A long flag, or no path at all, makes a forced recursive rm a denial. */
  lemma RmLongFlagOrNoPathDenied(command: string)
    requires var tokens := SplitWs(Strip(command));
      && tokens != [] && Lower(tokens[0]) == "rm"
      && var opts := tokens[1..][..OptionsEnd(tokens[1..])];
      && AnyForce(opts) && AnyRecursive(opts)
      && (AnyLong(opts) || RmPaths(tokens[1..]) == [])
    ensures RmVerdict(command) == 2
  {
  }

  /** Plain paths: non-empty, without whitespace and not flag-like. */
  predicate PlainPaths(ps: seq<string>) {
    forall k :: 0 <= k < |ps| ==> ps[k] != [] && NoSpace(ps[k]) && IsOperand(ps[k])
  }

  /** For `rm -rf` followed by plain paths, the verdict is the verdict of
      the paths: the flag scan, the split and the `--` handling add nothing. */
  lemma RmRfVerdict(ps: seq<string>)
    requires ps != [] && PlainPaths(ps)
    ensures RmVerdict("rm -rf " + Join(ps, " ")) == PathsVerdict(ps)
  {
    RmRfTokens(ps);
    RmRfArguments(ps);
    assert ["rm", "-rf"] + ps == ["rm"] + (["-rf"] + ps);
    RmVerdictOfArguments("rm -rf " + Join(ps, " "), ["-rf"] + ps);
  }

  /** The verdict of a forced, recursive rm without `--` or long flags. */
  lemma RmVerdictOfArguments(command: string, args: seq<string>)
    requires Strip(command) == command && SplitWs(command) == ["rm"] + args
    requires OptionsEnd(args) == |args| && AnyForce(args) && AnyRecursive(args) && !AnyLong(args)
    requires RmPaths(args) != []
    ensures RmVerdict(command) == PathsVerdict(RmPaths(args))
  {
    var tokens := ["rm"] + args;
    assert tokens[0] == "rm" && tokens[1..] == args;
    RmWord();
    assert args[..OptionsEnd(args)] == args;
  }

  lemma RmWord()
    ensures Lower("rm") == "rm"
  {
  }

  lemma RmRfTokens(ps: seq<string>)
    requires ps != [] && PlainPaths(ps)
    ensures var cmd := "rm -rf " + Join(ps, " ");
      Strip(cmd) == cmd && SplitWs(cmd) == ["rm", "-rf"] + ps
  {
    var ws := ["rm", "-rf"] + ps;
    var tail := Join(ps, " ");
    assert ws[1..] == ["-rf"] + ps;
    assert ws[1..][1..] == ps;
    assert Join(ws[1..], " ") == "-rf" + " " + tail;
    assert Join(ws, " ") == "rm" + " " + ("-rf" + " " + tail);
    ConcatAssoc("rm" + " ", "-rf" + " ", tail);
    RmRfPrefix();
    GraphicNoSpace("rm");
    GraphicNoSpace("-rf");
    forall k | 0 <= k < |ws| ensures ws[k] != [] && NoSpace(ws[k]) {
      if k >= 2 {
        assert ws[k] == ps[k - 2];
      }
    }
    JoinEnds(ws);
    StripUnchanged(Join(ws, " "));
    SplitJoin(ws);
  }

  lemma RmRfPrefix()
    ensures ("rm" + " ") + ("-rf" + " ") == "rm -rf "
  {
  }

  lemma RmRfArguments(ps: seq<string>)
    requires PlainPaths(ps)
    ensures var args := ["-rf"] + ps;
      && OptionsEnd(args) == |args|
      && AnyForce(args) && AnyRecursive(args) && !AnyLong(args)
      && RmPaths(args) == ps
  {
    RmRfFlags(ps);
    RmRfOperands(ps);
  }

  /** The token `-rf` itself. */
  lemma RfToken()
    ensures Lower("-rf") == "-rf" && SetsForce("-rf") && SetsRecursive("-rf")
    ensures !IsLongFlag("-rf") && !IsOperand("-rf")
  {
  }

  lemma RmRfFlags(ps: seq<string>)
    requires PlainPaths(ps)
    ensures var args := ["-rf"] + ps;
      && OptionsEnd(args) == |args|
      && AnyForce(args) && AnyRecursive(args) && !AnyLong(args)
  {
    var args := ["-rf"] + ps;
    RfToken();
    forall k | 0 <= k < |args| ensures Lower(args[k]) != "--" && !IsLongFlag(Lower(args[k])) {
      if k > 0 {
        assert args[k] == ps[k - 1];
        LongFlagsStartWithDashes(Lower(args[k]));
      }
    }
    OptionsEndNone(args);
    ForceAt(args, 0);
    RecursiveAt(args, 0);
    NoLongFlags(args);
  }

  lemma RmRfOperands(ps: seq<string>)
    requires PlainPaths(ps)
    ensures var args := ["-rf"] + ps;
      OptionsEnd(args) == |args| ==> RmPaths(args) == ps
  {
    var args := ["-rf"] + ps;
    assert args[..|args|] == args;
    OperandsConcat(["-rf"], ps);
    RfNoOperands();
    OperandsAll(ps);
  }

  lemma RfNoOperands()
    ensures Operands(["-rf"]) == []
  {
    RfToken();
    var flags: seq<string> := ["-rf"];
    assert flags[..0] == [];
  }

  /** `rm -rf p` for one plain path p: the verdict is the code of p's
      class. */
  lemma RmRfSingle(p: string)
    requires p != [] && NoSpace(p) && IsOperand(p)
    ensures RmVerdict("rm -rf " + p) == Code(ClassifyPath(p))
  {
    assert Join([p], " ") == p;
    RmRfVerdict([p]);
    assert [p][1..] == [];
  }

  /** The same for a lower-case path that does not start with a dash. */
  lemma RmRfLowered(p: string)
    requires p != [] && NoSpace(p) && IsLowered(p) && p[0] != '-'
    ensures RmVerdict("rm -rf " + p) == Code(ClassifyLowered(p))
  {
    LoweredUnchanged(p);
    NotPrefixAt(p, "-", 0);
    NotPrefixAt(p, "--", 0);
    RmRfSingle(p);
    ClassifyAsWritten(p);
  }

  /** Two dots in a row appear nowhere in s. */
  predicate NoDotDot(s: string) {
    forall i :: 0 <= i < |s| - 1 ==> s[i] != '.' || s[i + 1] != '.'
  }

  /** A star occurs in s exactly when s holds the character '*'. */
  lemma StarIn(s: string)
    ensures ContainsText(s, "*") <==> '*' in s
  {
    if '*' in s {
      var k :| 0 <= k < |s| && s[k] == '*';
      assert s[k..k + 1] == "*";
      assert OccursAt(s, "*", k);
    }
    if ContainsText(s, "*") {
      var k :| 0 <= k <= |s| - 1 && OccursAt(s, "*", k);
      assert s[k] == s[k..k + 1][0];
    }
  }

  /** The characters of a prefix are the first characters of the string. */
  lemma PrefixChar(s: string, p: string, k: nat)
    requires StartsWith(s, p) && k < |p|
    ensures s[k] == p[k]
  {
    assert s[k] == s[..|p|][k];
  }

  /** A string that differs from p at position k does not start with p. */
  lemma NotPrefixAt(s: string, p: string, k: nat)
    requires k < |p| && k < |s| && s[k] != p[k]
    ensures !StartsWith(s, p)
  {
    if StartsWith(s, p) {
      PrefixChar(s, p, k);
    }
  }

  /** A path that starts with neither a tilde nor a dollar sign is not in
      the home directory. */
  lemma NotHomeRef(l: string)
    requires l != [] && l[0] != '~' && l[0] != '$'
    ensures !IsHomeRef(l)
  {
    NotPrefixAt(l, "~", 0);
    NotPrefixAt(l, "$home", 0);
    NotPrefixAt(l, "${home", 0);
  }

  /** `rm -rf` of the home directory or anything in it is denied, unless
      the path climbs back out with `..` (test: `~`, `~/`, `~/` with a
      star). */
  lemma RmRfHomeDenied(path: string)
    requires StartsWith(path, "~") && NoSpace(path) && IsLowered(path) && NoDotDot(path)
    ensures RmVerdict("rm -rf " + path) == 2
  {
    PrefixChar(path, "~", 0);
    NoDotDotNoTraversal(path);
    RmRfLowered(path);
  }

  /** `rm -rf` of the home directory named through the HOME variable, in
      any letter case, is denied (test: `$HOME`, `$HOME/`). */
  lemma RmRfHomeVariableDenied(path: string)
    requires StartsWith(Lower(path), "$home") && NoSpace(path) && NoDotDot(path)
    ensures RmVerdict("rm -rf " + path) == 2
  {
    HomeVariablePath(path);
    RmRfSingle(path);
  }

  lemma HomeVariablePath(path: string)
    requires StartsWith(Lower(path), "$home") && NoSpace(path) && NoDotDot(path)
    ensures path != [] && IsOperand(path) && ClassifyPath(path) == Dangerous
  {
    HomeVariableOperand(path);
    StripUnchanged(path);
    LowerNoDotDot(path);
    HomeVariableLowered(Lower(path));
  }

  lemma HomeVariableOperand(path: string)
    requires StartsWith(Lower(path), "$home")
    ensures path != [] && IsOperand(path)
  {
    var l := Lower(path);
    PrefixChar(l, "$home", 0);
    NotPrefixAt(l, "-", 0);
    NotPrefixAt(l, "--", 0);
  }

  /** Lower-casing adds no two dots in a row. */
  lemma LowerNoDotDot(s: string)
    requires NoDotDot(s)
    ensures NoDotDot(Lower(s))
  {
    var l := Lower(s);
    forall i | 0 <= i < |l| - 1 ensures l[i] != '.' || l[i + 1] != '.' {
      LowerKeepsDot(s[i]);
      LowerKeepsDot(s[i + 1]);
    }
  }

  /** Only a dot lower-cases to a dot. */
  lemma LowerKeepsDot(c: char)
    ensures LowerChar(c) == '.' ==> c == '.'
  {
  }

  /** A lower-cased HOME-variable path without two dots in a row is
      dangerous. */
  lemma HomeVariableLowered(l: string)
    requires StartsWith(l, "$home")
    requires forall i :: 0 <= i < |l| - 1 ==> l[i] != '.' || l[i + 1] != '.'
    ensures ClassifyLowered(l) == Dangerous
  {
    NoDotDotNoTraversal(l);
  }

  /** With several paths the first one that is not safe decides: `rm -rf
      .. /` is asked about, though `/` alone is denied. */
  lemma RmRfParentThenRootAsked()
    ensures RmVerdict("rm -rf .. /") == 1
  {
    var ps := ["..", "/"];
    ParentThenRootJoin();
    ParentThenRootVerdict();
    ParentThenRootPlain();
    RmRfVerdict(ps);
  }

  lemma ParentThenRootPlain()
    ensures PlainPaths(["..", "/"])
  {
    var ps := ["..", "/"];
    forall k | 0 <= k < |ps| ensures ps[k] != [] && NoSpace(ps[k]) && IsOperand(ps[k]) {
      GraphicNoSpace(ps[k]);
      NotPrefixAt(Lower(ps[k]), "-", 0);
      NotPrefixAt(Lower(ps[k]), "--", 0);
    }
  }

  lemma ParentThenRootJoin()
    ensures "rm -rf " + Join(["..", "/"], " ") == "rm -rf .. /"
  {
    assert Join(["..", "/"], " ") == ".. /";
  }

  lemma ParentThenRootVerdict()
    ensures PathsVerdict(["..", "/"]) == 1
  {
    assert IsTraversal("..");
    ClassifyAsWritten("..");
    assert ClassifyPath("..") == Potential;
  }

  /** `rm -rf` of anything under /var/lib is denied (test: /var/lib/docker). */
  lemma RmRfSystemDirDenied(path: string)
    requires StartsWith(path, "/var/lib/") && NoSpace(path) && IsLowered(path) && NoDotDot(path)
    ensures RmVerdict("rm -rf " + path) == 2
  {
    PrefixChar(path, "/var/lib/", 0);
    NoDotDotNoTraversal(path);
    assert AtOrUnder(path, "/var/lib");
    HighRiskRootLowered(path, "/var/lib");
    RmRfLowered(path);
  }

  /** `rm -rf /workspace` and `rm -rf /workspaces` are denied. */
  lemma RmRfWorkspaceRootDenied(path: string)
    requires IsWorkspaceRoot(path)
    ensures RmVerdict("rm -rf " + path) == 2
  {
    WorkspaceRootLowered(path);
    WorkspaceRootPlain(path);
    RmRfLowered(path);
  }

  lemma WorkspaceRootPlain(l: string)
    requires IsWorkspaceRoot(l)
    ensures l != [] && l[0] == '/' && NoSpace(l) && IsLowered(l)
  {
    GraphicNoSpace(l);
  }

  /** A workspace root is dangerous: it is under no scratch area and no
      high-risk root. */
  lemma WorkspaceRootLowered(l: string)
    requires IsWorkspaceRoot(l)
    ensures ClassifyLowered(l) == Dangerous
  {
    WorkspaceRootShape(l);
    AbsoluteShape(l);
    StarIn(l);
  }

  lemma WorkspaceRootShape(l: string)
    requires IsWorkspaceRoot(l)
    ensures StartsWith(l, "/") && '*' !in l && !IsTraversal(l)
    ensures !UnderSafeArea(l) && !UnderHighRiskRoot(l)
  {
    assert l[..1] == "/";
    WorkspaceRootNoTraversal(l);
    Diverge(l, l, "/tmp", 1);
    Diverge(l, l, "/var/log", 1);
    WorkspaceRootUnderNoRoot(l);
  }

  lemma WorkspaceRootNoTraversal(l: string)
    requires IsWorkspaceRoot(l)
    ensures !IsTraversal(l)
  {
    NoDotDotNoTraversal(l);
  }

  lemma WorkspaceRootUnderNoRoot(l: string)
    requires IsWorkspaceRoot(l)
    ensures !UnderHighRiskRoot(l)
  {
    forall r | r in HighRiskRoots ensures !AtOrUnder(l, r) {
      assert r == "/" || (|r| > 1 && r[1] != 'w');
      Diverge(l, l, r, 1);
    }
  }

  /** An absolute wildcard under /home is denied (test: /home/ with a star). */
  lemma RmRfAbsoluteGlobDenied(path: string)
    requires StartsWith(path, "/home/") && NoSpace(path) && IsLowered(path) && NoDotDot(path) && '*' in path
    ensures RmVerdict("rm -rf " + path) == 2
  {
    PrefixChar(path, "/home/", 0);
    PrefixChar(path, "/home/", 1);
    assert StartsWith(path, "/") by { assert path[..1] == "/"; }
    NoDotDotNoTraversal(path);
    StarIn(path);
    NotPrefixAt(path, "/tmp/", 1);
    NotPrefixAt(path, "/var/log/", 1);
    NotPrefixAt(path, "/workspace/", 1);
    NotPrefixAt(path, "/workspaces/", 1);
    AbsoluteWildcardLowered(path);
    RmRfLowered(path);
  }

  /** `rm -rf ..` is asked about. */
  lemma RmRfParentAsked()
    ensures RmVerdict("rm -rf ..") == 1
  {
    assert IsTraversal("..");
    assert ClassifyLowered("..") == Potential;
    RmRfLowered("..");
    assert "rm -rf " + ".." == "rm -rf ..";
  }

  /** A path that starts by climbing to the parent is asked about, whatever
      follows (test: `../../`). */
  lemma RmRfParentPathAsked(path: string)
    requires StartsWith(path, "../") && NoSpace(path) && IsLowered(path)
    ensures RmVerdict("rm -rf " + path) == 1
  {
    PrefixChar(path, "../", 0);
    assert IsTraversal(path);
    RmRfLowered(path);
  }

  /** Anything below /workspace is asked about (test:
      /workspace/project/build and /workspace/project/ with a star). */
  lemma RmRfWorkspaceSubtreeAsked(path: string)
    requires StartsWith(path, "/workspace/") && NoSpace(path) && IsLowered(path)
    ensures RmVerdict("rm -rf " + path) == 1
  {
    PrefixChar(path, "/workspace/", 0);
    WorkspaceContentLowered(path);
    RmRfLowered(path);
  }

  /** Under /tmp a wildcard is asked about and a plain path is let through
      (test: /tmp/ with a star, /tmp/some-temp-file). */
  lemma RmRfUnderTmp(path: string)
    requires StartsWith(path, "/tmp/") && NoSpace(path) && IsLowered(path) && NoDotDot(path)
    ensures RmVerdict("rm -rf " + path) == if '*' in path then 1 else 0
  {
    PrefixChar(path, "/tmp/", 0);
    assert StartsWith(path, "/") by { assert path[..1] == "/"; }
    NoDotDotNoTraversal(path);
    StarIn(path);
    AbsoluteShape(path);
    if '*' in path {
      AbsoluteWildcardLowered(path);
    } else {
      assert AtOrUnder(path, "/tmp");
    }
    RmRfLowered(path);
  }

  /** A path below the current directory is let through (test: ./build,
      ./node_modules). */
  lemma RmRfSubdirAllowed(path: string)
    requires StartsWith(path, "./") && NoSpace(path) && IsLowered(path) && NoDotDot(path)
    ensures RmVerdict("rm -rf " + path) == 0
  {
    PrefixChar(path, "./", 0);
    NoDotDotNoTraversal(path);
    NotPrefixAt(path, "/", 0);
    NotHomeRef(path);
    assert !OnlyStars(path) by { assert path[0] != '*'; }
    assert path != "." by { PrefixChar(path, "./", 1); }
    RmRfLowered(path);
  }

  /** A relative wildcard that is not all stars is let through (test:
      build/ with a star, file*.txt, *.log, test_ with a star). */
  lemma RmRfRelativeGlobAllowed(path: string)
    requires NoSpace(path) && IsLowered(path) && NoDotDot(path) && '*' in path && !OnlyStars(path)
    requires path[0] != '/' && path[0] != '~' && path[0] != '$' && path[0] != '-'
    ensures RmVerdict("rm -rf " + path) == 0
  {
    NoDotDotNoTraversal(path);
    StarIn(path);
    NotPrefixAt(path, "/", 0);
    NotHomeRef(path);
    assert path != "*" && path != ".";
    RmRfLowered(path);
  }

  /** An absolute path outside the critical roots, the scratch areas and
      the workspaces is let through (test: /opt/app/cache). */
  lemma RmRfOutsideRootsAllowed(path: string)
    requires StartsWith(path, "/opt/") && NoSpace(path) && IsLowered(path) && NoDotDot(path) && '*' !in path
    ensures RmVerdict("rm -rf " + path) == 0
  {
    OutsideRootsLowered(path);
    RmRfLowered(path);
  }

  lemma OutsideRootsLowered(l: string)
    requires StartsWith(l, "/opt/") && NoDotDot(l) && '*' !in l
    ensures ClassifyLowered(l) == Safe
  {
    PrefixChar(l, "/opt/", 0);
    PrefixChar(l, "/opt/", 1);
    assert StartsWith(l, "/") by { assert l[..1] == "/"; }
    NoDotDotNoTraversal(l);
    StarIn(l);
    AbsoluteShape(l);
    assert AtOrUnder(l, "/opt");
    Diverge(l, "/opt", "/tmp", 1);
    Diverge(l, "/opt", "/var/log", 1);
    NotPrefixAt(l, "/workspace/", 1);
    NotPrefixAt(l, "/workspaces/", 1);
    assert !UnderHighRiskRoot(l) by {
      forall r | r in HighRiskRoots ensures !AtOrUnder(l, r) {
        assert r == "/" || (|r| > 1 && r[1] != 'o');
        Diverge(l, "/opt", r, 1);
      }
    }
  }

  /** `rm -rf /` is denied. */
  lemma RmRfRootDenied()
    ensures RmVerdict("rm -rf /") == 2
  {
    assert NoSpace("/") && IsOperand("/");
    assert Join(["/"], " ") == "/";
    RmRfVerdict(["/"]);
    ClassifyRoot();
    assert PathsVerdict(["/"]) == 2;
    assert "rm -rf " + Join(["/"], " ") == "rm -rf /";
  }

  /** is_dangerous_rm_command. */
  method IsDangerousRmCommand(command: string) returns (r: int)
    ensures r == RmVerdict(command)
  {
    var cmd := Strip(command);
    if cmd == [] {
      return 0;
    }
    var tokens := SplitWs(cmd);
    if tokens == [] || Lower(tokens[0]) != "rm" {
      return 0;
    }
    var hasForce, hasRecursive, usedLong, paths := ScanRmArguments(tokens[1..]);
    if !(hasForce && hasRecursive) {
      return 0;
    }
    if usedLong {
      return 2;
    }
    if paths == [] {
      return 2;
    }
    r := ClassifyPathsInOrder(paths);
  }

  /** The argument loop of is_dangerous_rm_command: flags are collected up to
      `--`; after it every token is a path. usedLong stands for
      `used_long_force or used_long_recursive`. */
  method ScanRmArguments(args: seq<string>) returns (hasForce: bool, hasRecursive: bool, usedLong: bool, paths: seq<string>)
    ensures var opts := args[..OptionsEnd(args)];
      && hasForce == AnyForce(opts) && hasRecursive == AnyRecursive(opts) && usedLong == AnyLong(opts)
    ensures paths == RmPaths(args)
  {
    hasForce, hasRecursive, usedLong := false, false, false;
    paths := [];
    var idx := 0;
    while idx < |args|
      invariant 0 <= idx <= |args|
      invariant forall k :: 0 <= k < idx ==> Lower(args[k]) != "--"
      invariant hasForce == AnyForce(args[..idx])
      invariant hasRecursive == AnyRecursive(args[..idx])
      invariant usedLong == AnyLong(args[..idx])
      invariant paths == Operands(args[..idx])
    {
      var token := args[idx];
      var tokenLower := Lower(token);
      if tokenLower == "--" {
        OptionsEndAt(args, idx);
        paths := paths + args[idx + 1..];
        return;
      }
      ExtendFlags(args, idx);
      var f, rec, long, isPath := ScanToken(token);
      hasForce := hasForce || f;
      hasRecursive := hasRecursive || rec;
      usedLong := usedLong || long;
      if isPath {
        paths := paths + [token];
      }
      idx := idx + 1;
    }
    OptionsEndNone(args);
    assert args[..idx] == args;
  }

  lemma LongFlagsStartWithDashes(t: string)
    ensures IsLongFlag(t) ==> StartsWith(t, "--")
  {
    if t == "--force" || t == "--recursive" {
      assert t[..2] == "--";
    } else if StartsWith(t, "--force=") {
      assert t[..2] == t[..8][..2];
    } else if StartsWith(t, "--recursive=") {
      assert t[..2] == t[..12][..2];
    }
  }

  /** What one token contributes, by the branch of the loop it takes. */
  lemma TokenRole(token: string)
    ensures var t := Lower(token);
      StartsWith(t, "--") ==>
        && SetsForce(t) == IsLongForce(t)
        && SetsRecursive(t) == (!IsLongForce(t) && IsLongRecursive(t))
        && !IsOperand(token)
    ensures var t := Lower(token);
      (!StartsWith(t, "--") && StartsWith(t, "-") && |t| > 1) ==>
        && IsShortCluster(t) && !IsLongFlag(t) && !IsOperand(token)
        && SetsForce(t) == ('f' in t[1..]) && SetsRecursive(t) == ('r' in t[1..])
    ensures var t := Lower(token);
      !(StartsWith(t, "--") || (StartsWith(t, "-") && |t| > 1)) ==>
        !SetsForce(t) && !SetsRecursive(t) && !IsLongFlag(t) && IsOperand(token)
  {
    LongFlagsStartWithDashes(Lower(token));
  }

  /** One pass of the argument loop on a token other than `--`: a long flag,
      a short flag cluster, or a path. */
  method ScanToken(token: string) returns (force: bool, recursive: bool, long: bool, isPath: bool)
    ensures var t := Lower(token);
      force == SetsForce(t) && recursive == SetsRecursive(t) && long == IsLongFlag(t)
    ensures isPath == IsOperand(token)
  {
    TokenRole(token);
    var tokenLower := Lower(token);
    force, recursive, long, isPath := false, false, false, false;
    if StartsWith(tokenLower, "--") {
      if IsLongForce(tokenLower) {
        force, long := true, true;
      } else if IsLongRecursive(tokenLower) {
        recursive, long := true, true;
      }
    } else if StartsWith(tokenLower, "-") && |tokenLower| > 1 {
      force, recursive := ScanFlagCluster(tokenLower);
    } else {
      isPath := true;
    }
  }

  /** The loop over the characters of a short flag cluster. */
  method ScanFlagCluster(t: string) returns (force: bool, recursive: bool)
    requires |t| >= 1
    ensures force == ('f' in t[1..]) && recursive == ('r' in t[1..])
  {
    force, recursive := false, false;
    var k := 1;
    while k < |t|
      invariant 1 <= k <= |t|
      invariant force == ('f' in t[1..k]) && recursive == ('r' in t[1..k])
    {
      assert t[1..k + 1] == t[1..k] + [t[k]];
      if t[k] == 'f' {
        force := true;
      }
      if t[k] == 'r' {
        recursive := true;
      }
      k := k + 1;
    }
    assert t[1..k] == t[1..];
  }

  /** The final loop: the first path that is not safe decides. */
  method ClassifyPathsInOrder(paths: seq<string>) returns (r: int)
    ensures r == PathsVerdict(paths)
  {
    var i := 0;
    while i < |paths|
      invariant 0 <= i <= |paths|
      invariant PathsVerdict(paths[i..]) == PathsVerdict(paths)
    {
      var classification := ClassifyPath(paths[i]);
      PathsVerdictStep(paths, i);
      if classification == Dangerous {
        return 2;
      }
      if classification == Potential {
        return 1;
      }
      i := i + 1;
    }
    return 0;
  }

  /** The verdict from path i on: path i decides unless it is safe. */
  lemma PathsVerdictStep(paths: seq<string>, i: nat)
    requires i < |paths|
    ensures PathsVerdict(paths[i..]) ==
      if ClassifyPath(paths[i]) == Safe then PathsVerdict(paths[i + 1..]) else Code(ClassifyPath(paths[i]))
  {
    assert paths[i..][0] == paths[i];
    assert paths[i..][1..] == paths[i + 1..];
  }

  /** One more token extends the running flags and operands. */
  lemma ExtendFlags(args: seq<string>, idx: nat)
    requires idx < |args|
    ensures AnyForce(args[..idx + 1]) == (AnyForce(args[..idx]) || SetsForce(Lower(args[idx])))
    ensures AnyRecursive(args[..idx + 1]) == (AnyRecursive(args[..idx]) || SetsRecursive(Lower(args[idx])))
    ensures AnyLong(args[..idx + 1]) == (AnyLong(args[..idx]) || IsLongFlag(Lower(args[idx])))
    ensures Operands(args[..idx + 1]) == Operands(args[..idx]) + (if IsOperand(args[idx]) then [args[idx]] else [])
  {
    assert args[..idx + 1][..idx] == args[..idx];
  }

  /** The operands of a concatenation are the operands of each part. */
  lemma {:induction false} OperandsConcat(a: seq<string>, b: seq<string>)
    ensures Operands(a + b) == Operands(a) + Operands(b)
  {
    if b != [] {
      var b' := b[..|b| - 1];
      assert (a + b)[..|a + b| - 1] == a + b';
      assert (a + b)[|a + b| - 1] == b[|b| - 1];
      OperandsConcat(a, b');
    } else {
      assert a + b == a;
    }
  }

  /** Tokens that are all operands are kept as they are. */
  lemma {:induction false} OperandsAll(ts: seq<string>)
    requires forall k :: 0 <= k < |ts| ==> IsOperand(ts[k])
    ensures Operands(ts) == ts
  {
    if ts != [] {
      var init := ts[..|ts| - 1];
      assert forall k :: 0 <= k < |init| ==> init[k] == ts[k];
      OperandsAll(init);
      assert IsOperand(ts[|ts| - 1]);
      assert init + [ts[|ts| - 1]] == ts;
    }
  }

  /** One token that sets the force flag is enough. */
  lemma {:induction false} ForceAt(ts: seq<string>, k: nat)
    requires k < |ts| && SetsForce(Lower(ts[k]))
    ensures AnyForce(ts)
  {
    if k < |ts| - 1 {
      assert ts[..|ts| - 1][k] == ts[k];
      ForceAt(ts[..|ts| - 1], k);
    }
  }

  /** One token that sets the recursive flag is enough. */
  lemma {:induction false} RecursiveAt(ts: seq<string>, k: nat)
    requires k < |ts| && SetsRecursive(Lower(ts[k]))
    ensures AnyRecursive(ts)
  {
    if k < |ts| - 1 {
      assert ts[..|ts| - 1][k] == ts[k];
      RecursiveAt(ts[..|ts| - 1], k);
    }
  }

  /** No long flag among the tokens means AnyLong is false. */
  lemma {:induction false} NoLongFlags(ts: seq<string>)
    requires forall k :: 0 <= k < |ts| ==> !IsLongFlag(Lower(ts[k]))
    ensures !AnyLong(ts)
  {
    if ts != [] {
      var init := ts[..|ts| - 1];
      assert forall k :: 0 <= k < |init| ==> init[k] == ts[k];
      NoLongFlags(init);
    }
  }

  lemma OptionsEndAt(args: seq<string>, j: nat)
    requires j < |args| && Lower(args[j]) == "--"
    requires forall k :: 0 <= k < j ==> Lower(args[k]) != "--"
    ensures OptionsEnd(args) == j
  {
  }

  lemma OptionsEndNone(args: seq<string>)
    requires forall k :: 0 <= k < |args| ==> Lower(args[k]) != "--"
    ensures OptionsEnd(args) == |args|
  {
  }

  // -------------------------------------------------------------- git patterns

  /** The patterns of is_dangerous_git_command, in order; `\s+` is written
      `Space, SpaceStar`. */
  const GitPatterns: seq<Pattern> := [
    [Lit("git"), Space, SpaceStar, Lit("reset"), Space, SpaceStar, Lit("--hard")],
    [Lit("git"), Space, SpaceStar, Lit("clean"), Space, SpaceStar, Lit("-"), LowerStar, Lit("f"), LowerStar, Lit("d")],
    [Lit("git"), Space, SpaceStar, Lit("clean"), Space, SpaceStar, Lit("-"), LowerStar, Lit("d"), LowerStar, Lit("f")],
    [Lit("git"), Space, SpaceStar, Lit("clean"), Space, SpaceStar, Lit("-f"), LowerStar, SpaceOrEnd],
    [Lit("git"), Space, SpaceStar, Lit("reflog"), Space, SpaceStar, Lit("expire"), Space, SpaceStar,
     Lit("--expire=now"), Space, SpaceStar, Lit("--all")],
    [Lit("git"), Space, SpaceStar, Lit("push"), Space, SpaceStar, Lit("--force")],
    [Lit("git"), Space, SpaceStar, Lit("push"), Space, SpaceStar, Lit("-f")],
    [Lit("git"), Space, SpaceStar, Lit("branch"), Space, SpaceStar, Lit("-d"), Space, SpaceStar, AnyStar],
    [Lit("git"), Space, SpaceStar, Lit("branch"), Space, SpaceStar, Lit("-D"), Space, SpaceStar, AnyStar],
    [Lit("git"), Space, SpaceStar, Lit("tag"), Space, SpaceStar, Lit("-d"), Space, SpaceStar, AnyStar],
    [Lit("git"), Space, SpaceStar, Lit("remote"), Space, SpaceStar, Lit("remove"), Space, SpaceStar, AnyStar],
    [Lit("git"), Space, SpaceStar, Lit("filter-branch")],
    [Lit("git"), Space, SpaceStar, Lit("update-ref"), Space, SpaceStar, Lit("-d")],
    [Lit("git"), Space, SpaceStar, Lit("checkout"), Space, SpaceStar, Lit("--orphan")]
  ]

  /** `' '.join(command.lower().split())` */
  function NormalizeCommand(command: string): string {
    CollapseSpaces(Lower(command))
  }

  /** Some pattern of the list matches the normalised command. */
  predicate GitDangerous(command: string) {
    exists k :: 0 <= k < |GitPatterns| && Matches(GitPatterns[k], NormalizeCommand(command))
  }

  /** is_dangerous_git_command: tries the patterns in order. */
  method IsDangerousGitCommand(command: string) returns (dangerous: bool)
    ensures dangerous == GitDangerous(command)
  {
    var normalized := NormalizeCommand(command);
    var k := 0;
    while k < |GitPatterns|
      invariant 0 <= k <= |GitPatterns|
      invariant forall j :: 0 <= j < k ==> !Matches(GitPatterns[j], normalized)
    {
      if Search(GitPatterns[k], normalized) {
        return true;
      }
      k := k + 1;
    }
    return false;
  }

  /** Every pattern starts with the word git, so a command without it is
      never flagged. */
  lemma GitNeedsGitWord(command: string)
    requires GitDangerous(command)
    ensures Contains(Lower(command), "git")
  {
    var n := NormalizeCommand(command);
    var k :| 0 <= k < |GitPatterns| && Matches(GitPatterns[k], n);
    var p := GitPatterns[k];
    GitPatternStartsWithGit(k);
    MatchesHasLiteral(p, 0, n);
    GraphicNoSpace("git");
    ContainsAfterCollapse(Lower(command), "git");
  }

  lemma GitPatternStartsWithGit(k: nat)
    requires k < |GitPatterns|
    ensures |GitPatterns[k]| > 0 && GitPatterns[k][0] == Lit("git")
  {
  }

  /** The `-D` branch pattern can never match: the command is lower-cased
      before matching. */
  lemma BranchUpperDNeverMatches(command: string)
    ensures !Matches(GitPatterns[8], NormalizeCommand(command))
  {
    var p := GitPatterns[8];
    assert p[6] == Lit("-D");
    GraphicNoSpace("-D");
    UpperLiteralNeverMatches(p, 6, 1, command);
  }

  /** A pattern with a capital letter in one of its literals never matches
      a normalised command. */
  lemma UpperLiteralNeverMatches(p: Pattern, j: nat, t: nat, command: string)
    requires j < |p| && p[j].Lit? && t < |p[j].text| && IsUpper(p[j].text[t])
    requires NoSpace(p[j].text)
    ensures !Matches(p, NormalizeCommand(command))
  {
    if Matches(p, NormalizeCommand(command)) {
      MatchesHasLiteral(p, j, NormalizeCommand(command));
      ContainsAfterCollapse(Lower(command), p[j].text);
      LowerIsLowered(command);
      LowerHasNoUpper(Lower(command), p[j].text, t);
    }
  }

  /** A lower-cased string contains no capital letter. */
  lemma LowerHasNoUpper(s: string, l: string, t: nat)
    requires IsLowered(s) && Contains(s, l) && t < |l|
    ensures !IsUpper(l[t])
  {
    var i :| 0 <= i <= |s| - |l| && OccursAt(s, l, i);
    assert l[t] == s[i..i + |l|][t] == s[i + t];
  }

  /** p starts with the elements of `git\s+<sub>\s+<arg>`. */
  predicate GitCommandShape(p: Pattern, sub: string, arg: string) {
    && |p| >= 7
    && p[0] == Lit("git") && p[1] == Space && p[2] == SpaceStar
    && p[3] == Lit(sub) && p[4] == Space && p[5] == SpaceStar && p[6] == Lit(arg)
  }

  /** The text `git <sub> <arg>` that such a prefix spells out. */
  lemma SpelledGitCommand(p: Pattern, sub: string, arg: string)
    requires GitCommandShape(p, sub, arg)
    ensures Spellable(p, 0, 7)
    ensures Spelled(p, 0, 7) == "git " + sub + " " + arg
  {
    SpelledGitTail(p, sub, arg);
    SpelledGitHead(p, sub, arg);
    WordsNested("git", sub, arg);
  }

  lemma SpelledGitTail(p: Pattern, sub: string, arg: string)
    requires GitCommandShape(p, sub, arg)
    ensures Spelled(p, 3, 7) == sub + (" " + arg)
  {
    assert Spelled(p, 6, 7) == arg;
    assert Spelled(p, 4, 7) == " " + arg;
  }

  lemma SpelledGitHead(p: Pattern, sub: string, arg: string)
    requires GitCommandShape(p, sub, arg)
    ensures Spellable(p, 0, 7)
    ensures Spelled(p, 0, 7) == "git" + (" " + Spelled(p, 3, 7))
  {
  }

  /** Three words joined by single spaces, associated to the right. */
  lemma WordsNested(a: string, b: string, c: string)
    ensures a + " " + b + " " + c == a + (" " + (b + (" " + c)))
  {
  }

  /** A three-word pattern matches any string holding its spelled-out text. */
  lemma GitCommandFound(p: Pattern, sub: string, arg: string, s: string)
    requires GitCommandShape(p, sub, arg) && |p| == 7
    requires Contains(s, "git " + sub + " " + arg)
    ensures Matches(p, s)
  {
    SpelledGitCommand(p, sub, arg);
    SpelledFound(p, s);
  }

  /** `git reset --hard`, `git push --force` and `git push -f` are flagged
      wherever they occur in the normalised command. */
  lemma ResetHardAndForcePushFlagged(command: string)
    requires var n := NormalizeCommand(command);
      Contains(n, "git reset --hard") || Contains(n, "git push --force") || Contains(n, "git push -f")
    ensures GitDangerous(command)
  {
    var n := NormalizeCommand(command);
    if Contains(n, "git reset --hard") {
      ThreeWordFound(0, "reset", "--hard", "git reset --hard", n);
    } else if Contains(n, "git push --force") {
      ThreeWordFound(5, "push", "--force", "git push --force", n);
    } else {
      ThreeWordFound(6, "push", "-f", "git push -f", n);
    }
  }

  /** Pattern k is `git\s+<sub>\s+<arg>`, spelled as text, for the three
      cases above. */
  lemma ThreeWordFound(k: nat, sub: string, arg: string, text: string, n: string)
    requires (k == 0 && sub == "reset" && arg == "--hard" && text == "git reset --hard")
      || (k == 5 && sub == "push" && arg == "--force" && text == "git push --force")
      || (k == 6 && sub == "push" && arg == "-f" && text == "git push -f")
    requires Contains(n, text)
    ensures Matches(GitPatterns[k], n)
  {
    assert text == "git " + sub + " " + arg;
    GitCommandFound(GitPatterns[k], sub, arg, n);
  }

  /** A lower-case command with single spaces is already normalised. */
  lemma NormalizedAsWritten(c: string, ws: seq<string>)
    requires c == Join(ws, " ") && IsLowered(c)
    requires forall k :: 0 <= k < |ws| ==> ws[k] != [] && NoSpace(ws[k])
    ensures NormalizeCommand(c) == c
  {
    LoweredUnchanged(c);
    SplitJoin(ws);
  }

  /** `git clean -f`, optionally followed by more lower-case flag letters,
      then a space or the end of the command, is flagged (so `-f`, `-fx` and,
      after lower-casing, `-fX`). */
  lemma CleanForceFlagged(command: string, i: nat, e: nat)
    requires var n := NormalizeCommand(command);
      && OccursAt(n, "git clean -f", i) && i + 12 <= e <= |n|
      && (forall t :: i + 12 <= t < e ==> IsLower(n[t]))
      && (e == |n| || n[e] == ' ')
    ensures GitDangerous(command)
  {
    var n := NormalizeCommand(command);
    CleanForceShape();
    CleanForceMatch(GitPatterns[3], n, i, e);
  }

  /** Pattern 3: `git clean -f[a-z]*(?:\s|$)`. */
  lemma CleanForceShape()
    ensures var p := GitPatterns[3];
      GitCommandShape(p, "clean", "-f") && |p| == 9 && p[7] == LowerStar && p[8] == SpaceOrEnd
  {
  }

  lemma CleanForceMatch(p: Pattern, n: string, i: nat, e: nat)
    requires GitCommandShape(p, "clean", "-f") && |p| == 9 && p[7] == LowerStar && p[8] == SpaceOrEnd
    requires OccursAt(n, "git clean -f", i) && i + 12 <= e <= |n|
    requires forall t :: i + 12 <= t < e ==> IsLower(n[t])
    requires e == |n| || n[e] == ' '
    ensures Matches(p, n)
  {
    SpelledGitCommand(p, "clean", "-f");
    assert "git " + "clean" + " " + "-f" == "git clean -f";
    assert MatchAt(p, 8, n, e);
    LowerStarRun(p, 7, n, i + 12, e);
    SpelledThen(p, 0, 7, n, i, i + 12);
  }

  /** `git clean -` followed by lower-case letters holding `f` then `d`
      (pattern 1) or `d` then `f` (pattern 2) is flagged: `-fd`, `-df`,
      `-xdf`, `-fdx`. */
  lemma CleanForceDirFlagged(command: string, x: string, a: char, y: string, b: char)
    requires (a == 'f' && b == 'd') || (a == 'd' && b == 'f')
    requires forall t :: 0 <= t < |x| ==> IsLower(x[t])
    requires forall t :: 0 <= t < |y| ==> IsLower(y[t])
    requires Contains(NormalizeCommand(command), "git clean -" + x + [a] + y + [b])
    ensures GitDangerous(command)
  {
    var n := NormalizeCommand(command);
    var w := "git clean -" + x + [a] + y + [b];
    var i :| 0 <= i <= |n| - |w| && OccursAt(n, w, i);
    var k := if a == 'f' then 1 else 2;
    CleanDirShape(k);
    CleanFlagsMatch(GitPatterns[k], n, i, x, a, y, b);
  }

  /** Patterns 1 and 2: `git clean -[a-z]*f[a-z]*d` and the same with d
      before f. */
  lemma CleanDirShape(k: nat)
    requires k == 1 || k == 2
    ensures var p := GitPatterns[k];
      && GitCommandShape(p, "clean", "-") && |p| == 11
      && p[7] == LowerStar && p[9] == LowerStar
      && p[8] == Lit([if k == 1 then 'f' else 'd']) && p[10] == Lit([if k == 1 then 'd' else 'f'])
  {
  }

  lemma CleanFlagsMatch(p: Pattern, n: string, i: nat, x: string, a: char, y: string, b: char)
    requires GitCommandShape(p, "clean", "-") && |p| == 11
    requires p[7] == LowerStar && p[8] == Lit([a]) && p[9] == LowerStar && p[10] == Lit([b])
    requires forall t :: 0 <= t < |x| ==> IsLower(x[t])
    requires forall t :: 0 <= t < |y| ==> IsLower(y[t])
    requires OccursAt(n, "git clean -" + x + [a] + y + [b], i)
    ensures Matches(p, n)
  {
    SpelledGitCommand(p, "clean", "-");
    assert "git " + "clean" + " " + "-" == "git clean -";
    assert "git clean -" + x + [a] + y + [b] == "git clean -" + (x + [a] + y + [b]);
    SliceConcat(n, i, "git clean -", x + [a] + y + [b]);
    FlagRunMatches(p, n, i + 11, x, a, y, b);
    SpelledThen(p, 0, 7, n, i, i + 11);
  }

  /** `[a-z]*a[a-z]*b` matches the letters x, a, y, b. */
  lemma FlagRunMatches(p: Pattern, s: string, j: nat, x: string, a: char, y: string, b: char)
    requires |p| == 11 && p[7] == LowerStar && p[8] == Lit([a]) && p[9] == LowerStar && p[10] == Lit([b])
    requires forall t :: 0 <= t < |x| ==> IsLower(x[t])
    requires forall t :: 0 <= t < |y| ==> IsLower(y[t])
    requires j + |x| + |y| + 2 <= |s| && s[j..j + |x| + |y| + 2] == x + [a] + y + [b]
    ensures MatchAt(p, 7, s, j)
  {
    var w := x + [a] + y + [b];
    var ea := j + |x|;
    var eb := ea + 1 + |y|;
    forall t | j <= t < ea ensures IsLower(s[t]) {
      assert s[t] == w[t - j];
    }
    forall t | ea + 1 <= t < eb ensures IsLower(s[t]) {
      assert s[t] == w[t - j];
    }
    assert s[ea] == w[|x|];
    assert s[eb] == w[|x| + 1 + |y|];
    assert s[eb..eb + 1] == [b];
    assert MatchAt(p, 10, s, eb);
    LowerStarRun(p, 9, s, ea + 1, eb);
    assert s[ea..ea + 1] == [a];
    assert MatchAt(p, 8, s, ea);
    LowerStarRun(p, 7, s, j, ea);
  }

  /** A pattern with a literal holding a character the string lacks never
      matches it. */
  lemma LitCharAbsent(p: Pattern, j: nat, c: char, s: string)
    requires j < |p| && p[j].Lit? && c in p[j].text && c !in s
    ensures !Matches(p, s)
  {
    if Matches(p, s) {
      MatchesHasLiteral(p, j, s);
    }
  }

  /** Where the dash sits in each pattern but `git remote remove`. */
  lemma DashLiteral(k: nat) returns (j: nat)
    requires k < |GitPatterns| && k != 10
    ensures j < |GitPatterns[k]| && GitPatterns[k][j].Lit? && '-' in GitPatterns[k][j].text
  {
    if k == 4 {
      j := 9;
      assert GitPatterns[4][9].text[0] == '-';
    } else if k == 11 {
      j := 3;
      assert GitPatterns[11][3].text[6] == '-';
    } else {
      j := 6;
      assert GitPatterns[k][6].text[0] == '-';
    }
  }

  /** Every pattern but `git remote remove` holds a dash, so a normalised
      command with no dash and no `v` is never flagged (`git status`,
      `git push`). */
  lemma NoDashNotFlagged(command: string)
    requires '-' !in NormalizeCommand(command) && 'v' !in NormalizeCommand(command)
    ensures !GitDangerous(command)
  {
    var n := NormalizeCommand(command);
    forall k | 0 <= k < |GitPatterns| ensures !Matches(GitPatterns[k], n) {
      if k == 10 {
        assert GitPatterns[10][6] == Lit("remove") && "remove"[4] == 'v';
        LitCharAbsent(GitPatterns[10], 6, 'v', n);
      } else {
        var j := DashLiteral(k);
        LitCharAbsent(GitPatterns[k], j, '-', n);
      }
    }
  }

  /** Each pattern holds one of the letters r, f, p, d, h in a literal. */
  lemma KeyLetterLiteral(k: nat) returns (j: nat, c: char)
    requires k < |GitPatterns|
    ensures c == 'r' || c == 'f' || c == 'p' || c == 'd' || c == 'h'
    ensures j < |GitPatterns[k]| && GitPatterns[k][j].Lit? && c in GitPatterns[k][j].text
  {
    if k == 1 {
      j, c := 8, 'f';
    } else if k == 2 {
      j, c := 10, 'f';
    } else if k == 3 {
      j, c := 6, 'f';
      assert GitPatterns[3][6].text[1] == c;
    } else if k == 5 || k == 6 || k == 12 {
      j, c := 3, 'p';
      assert GitPatterns[k][3].text[if k == 12 then 1 else 0] == c;
    } else if k == 9 {
      j, c := 6, 'd';
      assert GitPatterns[9][6].text[1] == c;
    } else if k == 13 {
      j, c := 3, 'h';
      assert GitPatterns[13][3].text[1] == c;
    } else if k == 7 || k == 8 {
      j, c := 3, 'r';
      assert GitPatterns[k][3].text[1] == c;
    } else if k == 11 {
      j, c := 3, 'r';
      assert GitPatterns[11][3].text[5] == c;
    } else {
      j, c := 3, 'r';
      assert GitPatterns[k][3].text[0] == c;
    }
  }

  /** So a normalised command without any of those letters is never flagged
      (`git clean -n`, `git status`). */
  lemma NoKeyLetterNotFlagged(command: string)
    requires var n := NormalizeCommand(command);
      'r' !in n && 'f' !in n && 'p' !in n && 'd' !in n && 'h' !in n
    ensures !GitDangerous(command)
  {
    var n := NormalizeCommand(command);
    forall k | 0 <= k < |GitPatterns| ensures !Matches(GitPatterns[k], n) {
      var j, c := KeyLetterLiteral(k);
      LitCharAbsent(GitPatterns[k], j, c, n);
    }
  }

  // The unit-test verdicts, for any command that normalises to the text
  // shown (so also `GIT   Status` or `git clean -fX`).

  /** `git status` and a plain `git push` pass through. */
  lemma GitStatusAndPushNotFlagged(command: string)
    requires NormalizeCommand(command) == "git status" || NormalizeCommand(command) == "git push"
    ensures !GitDangerous(command)
  {
    var n := NormalizeCommand(command);
    if n == "git status" {
      NoKeyLetterIn(n);
      NoKeyLetterNotFlagged(command);
    } else {
      assert '-' !in n && 'v' !in n by {
        forall t | 0 <= t < |n| ensures n[t] != '-' && n[t] != 'v' {
          assert n[t] in "git push";
        }
      }
      NoDashNotFlagged(command);
    }
  }

  lemma NoKeyLetterIn(n: string)
    requires n == "git status" || n == "git clean -n"
    ensures 'r' !in n && 'f' !in n && 'p' !in n && 'd' !in n && 'h' !in n
  {
    forall t | 0 <= t < |n| ensures n[t] !in "rfpdh" {
      assert n[t] in n;
    }
  }

  /** The dry run `git clean -n` passes through. */
  lemma GitCleanDryRunNotFlagged(command: string)
    requires NormalizeCommand(command) == "git clean -n"
    ensures !GitDangerous(command)
  {
    NoKeyLetterIn(NormalizeCommand(command));
    NoKeyLetterNotFlagged(command);
  }

  /** `git clean -f` and `git clean -fx` are flagged. */
  lemma GitCleanForceExamples(command: string)
    requires NormalizeCommand(command) == "git clean -f" || NormalizeCommand(command) == "git clean -fx"
    ensures GitDangerous(command)
  {
    var n := NormalizeCommand(command);
    assert OccursAt(n, "git clean -f", 0) by {
      assert n[..12] == "git clean -f";
    }
    CleanForceFlagged(command, 0, |n|);
  }

  /** `git clean -fd`, `git clean -df` and `git clean -xdf` are flagged. */
  lemma GitCleanForceDirExamples(command: string)
    requires var n := NormalizeCommand(command);
      n == "git clean -fd" || n == "git clean -df" || n == "git clean -xdf"
    ensures GitDangerous(command)
  {
    var n := NormalizeCommand(command);
    var x := if n == "git clean -xdf" then "x" else "";
    var a := if n == "git clean -fd" then 'f' else 'd';
    var b := if n == "git clean -fd" then 'd' else 'f';
    CleanDirSpelling(n, x, a, b);
    CleanDirExample(command, x, a, b);
  }

  lemma CleanDirSpelling(n: string, x: string, a: char, b: char)
    requires n == "git clean -fd" || n == "git clean -df" || n == "git clean -xdf"
    requires x == (if n == "git clean -xdf" then "x" else "")
    requires a == (if n == "git clean -fd" then 'f' else 'd') && b == (if n == "git clean -fd" then 'd' else 'f')
    ensures n == "git clean -" + x + [a] + [b]
  {
  }

  lemma CleanDirExample(command: string, x: string, a: char, b: char)
    requires (a == 'f' && b == 'd') || (a == 'd' && b == 'f')
    requires forall t :: 0 <= t < |x| ==> IsLower(x[t])
    requires NormalizeCommand(command) == "git clean -" + x + [a] + [b]
    ensures GitDangerous(command)
  {
    var n := NormalizeCommand(command);
    assert n == "git clean -" + x + [a] + [] + [b];
    assert OccursAt(n, n, 0);
    CleanForceDirFlagged(command, x, a, [], b);
  }

  /** `git reset --hard`, `git push --force` and `git push -f` are flagged. */
  lemma GitResetAndPushExamples(command: string)
    requires var n := NormalizeCommand(command);
      n == "git reset --hard" || n == "git push --force" || n == "git push -f"
    ensures GitDangerous(command)
  {
    var n := NormalizeCommand(command);
    assert OccursAt(n, n, 0);
    ResetHardAndForcePushFlagged(command);
  }

  // ------------------------------------------------------------ .env access

  /** `(\..*)?\.env$` matches the whole of t (up to a final newline). */
  predicate DefaultEnvTail(t: string) {
    var u := if EndsWith(t, "\n") then t[..|t| - 1] else t;
    u == ".env" || (|u| >= 5 && u[0] == '.' && EndsWith(u, ".env") && NoNewline(u[1..|u| - 4]))
  }

  /** re.search(r'default(\..*)?\.env$', file_path) succeeds. */
  predicate DefaultEnvAtEnd(fp: string) {
    exists i :: 0 <= i <= |fp| - 7 && OccursAt(fp, "default", i) && DefaultEnvTail(fp[i + 7..])
  }

  /** The file-tool rule: a path naming a `.env` file that is not an example
      and not a default file. */
  predicate FileEnvAccess(fp: string) {
    !EndsWith(fp, ".env.example") && ContainsText(fp, ".env") && !DefaultEnvAtEnd(fp)
  }

  /** `\s+.*` after a command word (cat, touch, cp, mv). */
  function CommandThenEnv(word: string): Pattern {
    [Lit(word), Space, SpaceStar, AnyStar, EnvToken]
  }

  /** The Bash patterns, in order. */
  const EnvPatterns: seq<Pattern> := [
    [EnvToken],
    CommandThenEnv("cat"),
    [Lit("echo"), Space, SpaceStar, AnyStar, Lit(">"), SpaceStar, EnvToken],
    CommandThenEnv("touch"),
    CommandThenEnv("cp"),
    CommandThenEnv("mv")
  ]

  /** The Bash rule: some pattern matches the command. */
  predicate BashEnvAccess(command: string) {
    exists k :: 0 <= k < |EnvPatterns| && Matches(EnvPatterns[k], command)
  }

  /** The five command-specific patterns add nothing: the rule holds exactly
      when the `.env` token occurs somewhere. */
  lemma BashEnvAccessIsToken(command: string)
    ensures BashEnvAccess(command) <==> exists j :: 0 <= j <= |command| && EnvAt(command, j)
  {
    if BashEnvAccess(command) {
      var k :| 0 <= k < |EnvPatterns| && Matches(EnvPatterns[k], command);
      var p := EnvPatterns[k];
      var i: nat :| i <= |command| && MatchAt(p, 0, command, i);
      assert p[|p| - 1] == EnvToken;
      MatchAtHasEnv(p, 0, |p| - 1, command, i);
    }
    if exists j :: 0 <= j <= |command| && EnvAt(command, j) {
      var j :| 0 <= j <= |command| && EnvAt(command, j);
      assert MatchAt([EnvToken], 0, command, j);
      assert Matches(EnvPatterns[0], command);
    }
  }

  /** `.env` directly after a word character belongs to a longer name and is
      not the token (so `prod.env` and `x.env` in a longer word are not
      flagged). It is not the token either when followed by `.example` or a
      word character. */
  lemma EnvTokenBoundaries(command: string, j: nat)
    requires EnvAt(command, j)
    ensures j == 0 || !IsWordChar(command[j - 1])
    ensures j + 4 == |command| || !IsWordChar(command[j + 4])
    ensures !StartsWith(command[j + 4..], ".example")
  {
  }

  /** The exception is_env_file_access raises when the inspected field is
      not a string. */
  datatype EnvError = FieldNotString

  /** is_env_file_access. */
  function EnvFileAccess(toolName: Json, toolInput: map<string, Json>): (r: Result<bool, EnvError>)
  {
    if toolName in [JString("Read"), JString("Edit"), JString("MultiEdit"), JString("Write")] then
      match Get(toolInput, "file_path", JString(""))
      case JString(fp) => Ok(FileEnvAccess(fp))
      case _ => Err(FieldNotString)
    else if toolName == JString("Bash") then
      match Get(toolInput, "command", JString(""))
      case JString(c) => Ok(BashEnvAccess(c))
      case _ => Err(FieldNotString)
    else Ok(false)
  }

  /** No tool other than Read, Edit, MultiEdit, Write and Bash is flagged. */
  lemma OtherToolsNeverFlagged(toolName: Json, toolInput: map<string, Json>)
    requires toolName !in [JString("Read"), JString("Edit"), JString("MultiEdit"), JString("Write"), JString("Bash")]
    ensures EnvFileAccess(toolName, toolInput) == Ok(false)
  {
  }

  /** For the file tools, a path ending in `.env.example` is never flagged,
      and a path is flagged exactly when it mentions `.env` and does not end
      in a default `.env` name. */
  lemma FileToolRule(toolName: Json, toolInput: map<string, Json>, fp: string)
    requires toolName in [JString("Read"), JString("Edit"), JString("MultiEdit"), JString("Write")]
    requires Get(toolInput, "file_path", JString("")) == JString(fp)
    ensures EndsWith(fp, ".env.example") ==> EnvFileAccess(toolName, toolInput) == Ok(false)
    ensures EnvFileAccess(toolName, toolInput) == Ok(true) <==>
      !EndsWith(fp, ".env.example") && Contains(fp, ".env") && !DefaultEnvAtEnd(fp)
  {
  }

  // --------------------------------------------------------------------- main

  datatype DenyReason = BadJson | InvalidToolInput | UnexpectedError | DangerousRm | DangerousGit
  datatype AskReason = EnvFile | PotentialRm

  /** The hook's answer: a JSON permission decision, or a silent exit 0. */
  datatype Decision = Deny(why: DenyReason) | Ask(question: AskReason) | Allow | PassThrough

  /** The verdict for a safe tool use. */
  function SafeOutcome(autoAllow: bool): Decision {
    if autoAllow then Allow else PassThrough
  }

  /** main: the decision for the decoded stdin (None when it is not JSON). */
  function Decide(input: Option<Json>, autoAllow: bool): (d: Decision)
  {
    match input
    case None => Deny(BadJson)
    case Some(v) =>
      if !v.JObject? then Deny(UnexpectedError)
      else
        var toolName := Get(v.fields, "tool_name", JString(""));
        var toolInput := Get(v.fields, "tool_input", JObject(map[]));
        if !toolInput.JObject? then Deny(InvalidToolInput)
        else match EnvFileAccess(toolName, toolInput.fields)
          case Err(_) => Deny(UnexpectedError)
          case Ok(true) => Ask(EnvFile)
          case Ok(false) =>
            if toolName == JString("Bash") then
              var command := Get(toolInput.fields, "command", JString(""));
              var verdict := RmVerdict(command.s);
              if verdict == 2 then Deny(DangerousRm)
              else if verdict == 1 then Ask(PotentialRm)
              else if GitDangerous(command.s) then Deny(DangerousGit)
              else SafeOutcome(autoAllow)
            else SafeOutcome(autoAllow)
  }

  /** The hook input of a Bash call. */
  function BashInput(command: string): Json {
    JObject(map["tool_name" := JString("Bash"), "tool_input" := JObject(map["command" := JString(command)])])
  }

  /** The checks a Bash call goes through, in order: `.env` access, the
      rm verdict, the git patterns. */
  lemma DecideBashInput(command: string, autoAllow: bool)
    ensures Decide(Some(BashInput(command)), autoAllow) ==
      if BashEnvAccess(command) then Ask(EnvFile)
      else if RmVerdict(command) == 2 then Deny(DangerousRm)
      else if RmVerdict(command) == 1 then Ask(PotentialRm)
      else if GitDangerous(command) then Deny(DangerousGit)
      else SafeOutcome(autoAllow)
  {
    var env := EnvFileAccess(JString("Bash"), map["command" := JString(command)]);
    assert env == Ok(BashEnvAccess(command));
  }

  /** A Bash command is let through exactly when it touches no `.env` file,
      is not a dangerous rm and matches no git pattern. */
  lemma BashLetThroughIff(command: string, autoAllow: bool)
    ensures Decide(Some(BashInput(command)), autoAllow) == SafeOutcome(autoAllow) <==>
      !BashEnvAccess(command) && RmVerdict(command) == 0 && !GitDangerous(command)
  {
    DecideBashInput(command, autoAllow);
  }

  /** The `.env` check comes first: a Bash command that touches a `.env`
      file is asked about even when it is also a dangerous rm. */
  lemma EnvCheckComesFirst(command: string, autoAllow: bool)
    requires BashEnvAccess(command)
    ensures Decide(Some(BashInput(command)), autoAllow) == Ask(EnvFile)
  {
    DecideBashInput(command, autoAllow);
  }

  /** The rm check comes before the git check. */
  lemma RmCheckBeforeGit(command: string, autoAllow: bool)
    requires !BashEnvAccess(command) && RmVerdict(command) != 0
    ensures Decide(Some(BashInput(command)), autoAllow) ==
      (if RmVerdict(command) == 2 then Deny(DangerousRm) else Ask(PotentialRm))
  {
    DecideBashInput(command, autoAllow);
  }

  /** A tool_input that is not an object is denied before anything else is
      looked at. */
  lemma NonObjectToolInputDenied(fields: map<string, Json>, autoAllow: bool)
    requires "tool_input" in fields && !fields["tool_input"].JObject?
    ensures Decide(Some(JObject(fields)), autoAllow) == Deny(InvalidToolInput)
  {
  }
}
