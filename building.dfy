/** `build_phase` of `src/generate.rs`: the build steps run before any file
    is gathered, the files the specification lists, their libraries, the
    version file and the archive they are written to. */
module Building {
  import opened Wrappers
  import opened Strings
  import opened Paths
  import opened Lib
  import opened Zip
  import opened BuildErrors
  import opened Config
  import FileItems
  import Archive
  import LdCache

  // =====================================================================
  // parse_version_file and the names derived from the stem
  // =====================================================================

  /** `parse_version_file`: the text of the file, trimmed. */
  function ParseVersionFile(path: string, fs: FileItems.Fs): (r: Result<string, BuildError>)
    ensures r.Err? <==> fs.text(path).None?
    ensures r.Err? ==> r.error == IO(path)
  {
    match fs.text(path)
    case None => Err(IO(path))
    case Some(text) => Ok(Trim(text))
  }

  /** The version is the file's text with white space removed at its two
      ends only: the interior is kept as it is, and neither end of the
      version is white space. */
  lemma VersionIsTrimmedText(path: string, fs: FileItems.Fs)
    requires fs.text(path).Some?
    ensures var text := fs.text(path).value;
      var v := ParseVersionFile(path, fs).value;
      && (exists lead: nat :: lead + |v| <= |text| && text[lead..lead + |v|] == v
            && AllWhiteSpace(text[..lead]) && AllWhiteSpace(text[lead + |v|..]))
      && (|v| > 0 ==> !IsWhiteSpace(v[0]) && !IsWhiteSpace(v[|v| - 1]))
  {
    TrimIsInfix(fs.text(path).value);
  }

  /** A version file holding nothing but white space gives the empty
      version: it is not rejected. */
  lemma EmptyVersionAccepted(path: string, fs: FileItems.Fs)
    requires fs.text(path).Some? && AllWhiteSpace(fs.text(path).value)
    ensures ParseVersionFile(path, fs) == Ok("")
  {
    TrimStartAllWhiteSpace(fs.text(path).value);
  }

  /** A file holding a version read this way reads back as the same
      version. */
  lemma VersionReadsBack(path: string, fs: FileItems.Fs, path': string, fs': FileItems.Fs)
    requires ParseVersionFile(path, fs).Ok?
    requires fs'.text(path') == Some(ParseVersionFile(path, fs).value)
    ensures ParseVersionFile(path', fs') == ParseVersionFile(path, fs)
  {
    TrimIdempotent(fs.text(path).value);
  }

  /** The archive `build_phase` writes: `<stem>_<version>.bundle`. The stem
      and the version can be read back from it. */
  function ArchiveName(stem: string, version: string): (name: string)
    ensures |name| == |stem| + |version| + 8
    ensures name[..|stem|] == stem && name[|stem|] == '_'
    ensures name[|stem| + 1..|name| - 7] == version && EndsWith(name, ".bundle")
  {
    stem + "_" + version + ".bundle"
  }

  /** Index of the last `.` in a name, if there is one. */
  function LastDot(s: string): (r: Option<nat>)
    ensures r.Some? ==> r.value < |s| && s[r.value] == '.'
    ensures r.Some? ==> forall k :: r.value < k < |s| ==> s[k] != '.'
    ensures r.None? ==> forall k :: 0 <= k < |s| ==> s[k] != '.'
  {
    if |s| == 0 then None
    else if s[|s| - 1] == '.' then Some(|s| - 1)
    else LastDot(s[..|s| - 1])
  }

  /** `Path::file_stem` of a file name: the text before its last `.`, or the
      whole name when that `.` is its first character, when it has none,
      and for `..`. */
  function FileStem(name: string): (r: string)
    ensures |r| <= |name| && r == name[..|r|]
  {
    if name == ".." then name
    else
      match LastDot(name)
      case None => name
      case Some(i) => if i == 0 then name else name[..i]
  }

  /** `PathBuf::from(stem)` after `set_extension("log")`: the path is cut
      right after the stem of its file name and `.log` is added; a path
      with no file name is left as it is. */
  function LogFileName(stem: string): string
  {
    match FileName(stem)
    case None => stem
    case Some(name) =>
      var q := StripTrailing(stem);
      stem[..|q| - |name| + |FileStem(name)|] + ".log"
  }

  /** A name of one segment is its own last segment. */
  lemma OneSegment(s: string)
    requires s != "" && '/' !in s
    ensures StripTrailing(s) == s && LastSegment(s) == s
  {
    assert s[|s| - 1] in s;
  }

  /** A one-segment name without a `.` gets `.log` added. */
  lemma LogNameAddsExtension(base: string)
    requires base != "" && '/' !in base && '.' !in base
    ensures LogFileName(base) == base + ".log"
  {
    OneSegment(base);
  }

  lemma LastDotAt(s: string, i: nat)
    requires i < |s| && s[i] == '.'
    requires forall k :: i < k < |s| ==> s[k] != '.'
    ensures LastDot(s) == Some(i)
  {
  }

  lemma DotAfter(base: string, ext: string)
    requires '.' !in ext
    ensures LastDot(base + "." + ext) == Some(|base|)
  {
    var s := base + "." + ext;
    forall k | |base| < k < |s| ensures s[k] != '.' {
      assert s[k] == ext[k - |base| - 1];
    }
    LastDotAt(s, |base|);
  }

  lemma NoSlashAround(base: string, ext: string)
    requires '/' !in base && '/' !in ext
    ensures '/' !in base + "." + ext
  {
    var s := base + "." + ext;
    forall k | 0 <= k < |s| ensures s[k] != '/' {
      if k < |base| { assert s[k] == base[k]; }
      else if k > |base| { assert s[k] == ext[k - |base| - 1]; }
    }
  }

  /** A one-segment name whose last `.` follows a first part without one has
      its extension replaced: the log of `my.game` is `my.log`. */
  lemma LogNameReplacesExtension(base: string, ext: string)
    requires base != "" && '/' !in base && '.' !in base
    requires '/' !in ext && '.' !in ext
    ensures LogFileName(base + "." + ext) == base + ".log"
  {
    var s := base + "." + ext;
    NoSlashAround(base, ext);
    OneSegment(s);
    assert s != ".." by { assert s[0] == base[0]; assert base[0] in base; }
    DotAfter(base, ext);
    assert s[..|base|] == base;
  }

  // =====================================================================
  // run_command
  // =====================================================================

  /** What became of a program `run_command` started: it could not be
      started, or it exited, with its two outputs valid UTF-8 or not, the
      log written or not, and a successful status or not. */
  datatype Outcome =
    | NotStarted
    | Exited(stdoutUtf8: bool, stderrUtf8: bool, logged: bool, success: bool)

  /** `run_command`: a program that cannot be started or whose log cannot be
      written is an `IO` error, output that is not UTF-8 a `Utf8` error, and
      an unsuccessful exit `Build`. */
  function RunResult(program: string, o: Outcome): (r: Result<(), BuildError>)
    ensures r == Ok(()) <==> o.Exited? && o.stdoutUtf8 && o.stderrUtf8 && o.logged && o.success
    ensures r == Err(Build) <==> o.Exited? && o.stdoutUtf8 && o.stderrUtf8 && o.logged && !o.success
    ensures r.Err? && r.error != Build ==> r.error == IO(program) || r.error == Utf8(program)
    ensures o.NotStarted? ==> r == Err(IO(program))
  {
    match o
    case NotStarted => Err(IO(program))
    case Exited(out, err, logged, success) =>
      if !out || !err then Err(Utf8(program))
      else if !logged then Err(IO(program))
      else if !success then Err(Build)
      else Ok(())
  }

  /** A process to start: program, arguments and added environment. */
  datatype Command = Command(program: string, args: seq<string>, env: map<string, string>)

  /** `apt-get install -y <deps>`, non-interactively. */
  function AptGet(deps: seq<string>): Command
  {
    Command("apt-get", ["install", "-y"] + deps, map["DEBIAN_FRONTEND" := "noninteractive"])
  }

  function Plain(program: string): Command
  {
    Command(program, [], map[])
  }

  const Ldconfig := Plain("ldconfig")

  /** The processes started so far, in order. What each one gives is fixed
      by `outcome`. */
  class Runner {
    var started: seq<Command>
    const outcome: Command -> Outcome

    constructor (outcome: Command -> Outcome)
      ensures started == [] && this.outcome == outcome
    {
      started := [];
      this.outcome := outcome;
    }

    /** `run_command` */
    method Run(cmd: Command) returns (r: Result<(), BuildError>)
      modifies this
      ensures started == old(started) + [cmd]
      ensures r == RunResult(cmd.program, outcome(cmd))
    {
      started := started + [cmd];
      r := RunResult(cmd.program, outcome(cmd));
    }
  }

  // =====================================================================
  // The build steps: packages, modules, ldconfig, the build command
  // =====================================================================

  /** The commands a run of steps started, in order, and how it ended. */
  datatype Steps = Steps(started: seq<Command>, result: Result<(), BuildError>)

  const NoSteps := Steps([], Ok(()))

  /** `a` followed by `b`, unless `a` failed. */
  function Then(a: Steps, b: Steps): Steps
  {
    if a.result.Err? then a else Steps(a.started + b.started, b.result)
  }

  function RunStep(cmd: Command, outcome: Command -> Outcome): Steps
  {
    Steps([cmd], RunResult(cmd.program, outcome(cmd)))
  }

  /** `find_path` the target, then run what was found. */
  function FindAndRun(pc: FileItems.PathContext, present: string -> bool, target: string,
                      outcome: Command -> Outcome): Steps
  {
    match FileItems.Located(pc.locations, present, target)
    case Err(e) => Steps([], Err(e))
    case Ok(path) => RunStep(Plain(path), outcome)
  }

  /** The first `n` modules, each found and run in list order. */
  function ModuleSteps(modules: seq<string>, n: nat, pc: FileItems.PathContext, present: string -> bool,
                       outcome: Command -> Outcome): Steps
    requires n <= |modules|
  {
    if n == 0 then NoSteps
    else Then(ModuleSteps(modules, n - 1, pc, present, outcome), FindAndRun(pc, present, modules[n - 1], outcome))
  }

  function PackageSteps(b: BuildSpec, outcome: Command -> Outcome): Steps
  {
    match b.requiredPackages
    case None => NoSteps
    case Some(deps) => RunStep(AptGet(deps), outcome)
  }

  function ModulesSteps(b: BuildSpec, pc: FileItems.PathContext, present: string -> bool,
                        outcome: Command -> Outcome): Steps
  {
    match b.requiredModules
    case None => NoSteps
    case Some(ms) => Then(ModuleSteps(ms, |ms|, pc, present, outcome), RunStep(Ldconfig, outcome))
  }

  function BuildCommandSteps(b: BuildSpec, pc: FileItems.PathContext, present: string -> bool,
                             outcome: Command -> Outcome): Steps
  {
    match b.buildCommand
    case None => NoSteps
    case Some(cmd) => FindAndRun(pc, present, cmd, outcome)
  }

  /** Everything `build_phase` runs before it gathers files. */
  function PrepareSteps(b: BuildSpec, pc: FileItems.PathContext, present: string -> bool,
                        outcome: Command -> Outcome): Steps
  {
    Then(Then(PackageSteps(b, outcome), ModulesSteps(b, pc, present, outcome)),
         BuildCommandSteps(b, pc, present, outcome))
  }

  // ---- fail-fast --------------------------------------------------------

  predicate Succeeds(c: Command, outcome: Command -> Outcome)
  {
    RunResult(c.program, outcome(c)) == Ok(())
  }

  /** Steps stop at the first failure: every command but the last one
      succeeded; an ending that is not a failed command is a success or a
      program that was not found, after successful commands. */
  predicate FailFast(s: Steps, outcome: Command -> Outcome)
  {
    var n := |s.started|;
    && (forall i :: 0 <= i < n - 1 ==> Succeeds(s.started[i], outcome))
    && (n > 0 && !Succeeds(s.started[n - 1], outcome) ==>
          s.result == RunResult(s.started[n - 1].program, outcome(s.started[n - 1])))
    && (s.result.Err? && (n == 0 || Succeeds(s.started[n - 1], outcome)) ==> s.result.error.Find?)
  }

  lemma ThenFailFast(a: Steps, b: Steps, outcome: Command -> Outcome)
    requires FailFast(a, outcome) && FailFast(b, outcome)
    ensures FailFast(Then(a, b), outcome)
  {
    if a.result.Ok? {
      var s := Then(a, b);
      forall i | 0 <= i < |s.started| - 1
        ensures Succeeds(s.started[i], outcome)
      {
        if i < |a.started| {
          assert s.started[i] == a.started[i];
        } else {
          assert s.started[i] == b.started[i - |a.started|];
        }
      }
      if |b.started| == 0 {
        assert s.started == a.started;
      } else {
        assert s.started[|s.started| - 1] == b.started[|b.started| - 1];
      }
    }
  }

  /** `find_path` fails only with `Find` of its target. */
  lemma {:induction false} LocatedFails(locations: seq<string>, present: string -> bool, target: string)
    ensures FileItems.Located(locations, present, target).Err? ==>
      FileItems.Located(locations, present, target).error == Find(target)
    decreases |locations|
  {
    if |locations| > 0 && !present(Join(locations[0], target)) {
      LocatedFails(locations[1..], present, target);
    }
  }

  lemma FindAndRunFailFast(pc: FileItems.PathContext, present: string -> bool, target: string,
                           outcome: Command -> Outcome)
    ensures FailFast(FindAndRun(pc, present, target, outcome), outcome)
  {
    LocatedFails(pc.locations, present, target);
  }

  lemma ModuleStepsFailFast(modules: seq<string>, n: nat, pc: FileItems.PathContext, present: string -> bool,
                            outcome: Command -> Outcome)
    requires n <= |modules|
    ensures FailFast(ModuleSteps(modules, n, pc, present, outcome), outcome)
  {
    if n > 0 {
      ModuleStepsFailFast(modules, n - 1, pc, present, outcome);
      FindAndRunFailFast(pc, present, modules[n - 1], outcome);
      ThenFailFast(ModuleSteps(modules, n - 1, pc, present, outcome),
                   FindAndRun(pc, present, modules[n - 1], outcome), outcome);
    }
  }

  /** The steps before gathering stop at the first failure. */
  lemma PrepareFailFast(b: BuildSpec, pc: FileItems.PathContext, present: string -> bool, outcome: Command -> Outcome)
    ensures FailFast(PrepareSteps(b, pc, present, outcome), outcome)
  {
    if b.requiredModules.Some? {
      var ms := b.requiredModules.value;
      ModuleStepsFailFast(ms, |ms|, pc, present, outcome);
      ThenFailFast(ModuleSteps(ms, |ms|, pc, present, outcome), RunStep(Ldconfig, outcome), outcome);
    }
    if b.buildCommand.Some? {
      FindAndRunFailFast(pc, present, b.buildCommand.value, outcome);
    }
    ThenFailFast(PackageSteps(b, outcome), ModulesSteps(b, pc, present, outcome), outcome);
    ThenFailFast(Then(PackageSteps(b, outcome), ModulesSteps(b, pc, present, outcome)),
                 BuildCommandSteps(b, pc, present, outcome), outcome);
  }

  /** The first command that does not succeed is the last one started, and
      its error is the error of the whole phase: in particular the first
      unsuccessful exit stops everything with `Build`. A successful phase
      started only commands that succeeded. */
  lemma StopsAtFirstFailure(b: BuildSpec, pc: FileItems.PathContext, present: string -> bool,
                            outcome: Command -> Outcome, i: nat)
    requires i < |PrepareSteps(b, pc, present, outcome).started|
    requires !Succeeds(PrepareSteps(b, pc, present, outcome).started[i], outcome)
    ensures var s := PrepareSteps(b, pc, present, outcome);
      i == |s.started| - 1 && s.result == RunResult(s.started[i].program, outcome(s.started[i]))
      && s.result.Err?
  {
    PrepareFailFast(b, pc, present, outcome);
  }

  // ---- order ------------------------------------------------------------

  /** The command run for a target `find_path` finds. (A target that is not
      found is never run, so what stands for it then does not matter.) */
  function FoundCommand(pc: FileItems.PathContext, present: string -> bool, target: string): Command
  {
    match FileItems.Located(pc.locations, present, target)
    case Ok(path) => Plain(path)
    case Err(_) => Plain(target)
  }

  function ModuleCommands(modules: seq<string>, n: nat, pc: FileItems.PathContext, present: string -> bool): seq<Command>
    requires n <= |modules|
  {
    if n == 0 then [] else ModuleCommands(modules, n - 1, pc, present) + [FoundCommand(pc, present, modules[n - 1])]
  }

  /** The commands in the order `build_phase` means to run them: the package
      installation when packages are listed; each module in list order and
      then `ldconfig`, when modules are listed; the build command last. */
  function PlannedCommands(b: BuildSpec, pc: FileItems.PathContext, present: string -> bool): seq<Command>
  {
    (if b.requiredPackages.Some? then [AptGet(b.requiredPackages.value)] else [])
    + (if b.requiredModules.Some?
       then ModuleCommands(b.requiredModules.value, |b.requiredModules.value|, pc, present) + [Ldconfig]
       else [])
    + (if b.buildCommand.Some? then [FoundCommand(pc, present, b.buildCommand.value)] else [])
  }

  /** The steps started a prefix of `cmds`, and all of it if they succeeded. */
  predicate Within(s: Steps, cmds: seq<Command>)
  {
    s.started <= cmds && (s.result.Ok? ==> s.started == cmds)
  }

  lemma ThenWithin(a: Steps, b: Steps, ca: seq<Command>, cb: seq<Command>)
    requires Within(a, ca) && Within(b, cb)
    ensures Within(Then(a, b), ca + cb)
  {
    if a.result.Err? {
      assert a.started == (ca + cb)[..|a.started|];
    } else {
      assert a.started + b.started == (ca + cb)[..|a.started| + |b.started|];
    }
  }

  lemma ModuleStepsWithin(modules: seq<string>, n: nat, pc: FileItems.PathContext, present: string -> bool,
                          outcome: Command -> Outcome)
    requires n <= |modules|
    ensures Within(ModuleSteps(modules, n, pc, present, outcome), ModuleCommands(modules, n, pc, present))
  {
    if n > 0 {
      ModuleStepsWithin(modules, n - 1, pc, present, outcome);
      ThenWithin(ModuleSteps(modules, n - 1, pc, present, outcome), FindAndRun(pc, present, modules[n - 1], outcome),
                 ModuleCommands(modules, n - 1, pc, present), [FoundCommand(pc, present, modules[n - 1])]);
    }
  }

  /** The commands started are always the planned ones, in the planned
      order, up to where the phase stopped; a successful phase ran them all. */
  lemma PrepareOrder(b: BuildSpec, pc: FileItems.PathContext, present: string -> bool, outcome: Command -> Outcome)
    ensures Within(PrepareSteps(b, pc, present, outcome), PlannedCommands(b, pc, present))
  {
    var cp := if b.requiredPackages.Some? then [AptGet(b.requiredPackages.value)] else [];
    var cm := if b.requiredModules.Some?
              then ModuleCommands(b.requiredModules.value, |b.requiredModules.value|, pc, present) + [Ldconfig]
              else [];
    var cb := if b.buildCommand.Some? then [FoundCommand(pc, present, b.buildCommand.value)] else [];
    if b.requiredModules.Some? {
      var ms := b.requiredModules.value;
      ModuleStepsWithin(ms, |ms|, pc, present, outcome);
      ThenWithin(ModuleSteps(ms, |ms|, pc, present, outcome), RunStep(Ldconfig, outcome),
                 ModuleCommands(ms, |ms|, pc, present), [Ldconfig]);
    }
    ThenWithin(PackageSteps(b, outcome), ModulesSteps(b, pc, present, outcome), cp, cm);
    ThenWithin(Then(PackageSteps(b, outcome), ModulesSteps(b, pc, present, outcome)),
               BuildCommandSteps(b, pc, present, outcome), cp + cm, cb);
  }

  // ---- the steps, run ---------------------------------------------------

  /** `find_path` then `run_command`, as `build_phase` does for each module
      and for the build command. */
  method RunFound(runner: Runner, pc: FileItems.PathContext, present: string -> bool, target: string)
    returns (r: Result<(), BuildError>)
    modifies runner
    ensures runner.started == old(runner.started) + FindAndRun(pc, present, target, runner.outcome).started
    ensures r == FindAndRun(pc, present, target, runner.outcome).result
  {
    var path := pc.FindPath(present, target);
    if path.Err? {
      return Err(path.error);
    }
    r := runner.Run(Plain(path.value));
  }

  lemma ModuleStepsNext(modules: seq<string>, i: nat, pc: FileItems.PathContext, present: string -> bool,
                        outcome: Command -> Outcome, start: seq<Command>, before: seq<Command>, after: seq<Command>)
    requires i < |modules|
    requires ModuleSteps(modules, i, pc, present, outcome).result == Ok(())
    requires before == start + ModuleSteps(modules, i, pc, present, outcome).started
    requires after == before + FindAndRun(pc, present, modules[i], outcome).started
    ensures after == start + ModuleSteps(modules, i + 1, pc, present, outcome).started
    ensures ModuleSteps(modules, i + 1, pc, present, outcome).result == FindAndRun(pc, present, modules[i], outcome).result
  {
  }

  lemma {:induction false} ModuleStepsErrSticks(modules: seq<string>, m: nat, n: nat, pc: FileItems.PathContext,
                                                present: string -> bool, outcome: Command -> Outcome)
    requires m <= n <= |modules|
    requires ModuleSteps(modules, m, pc, present, outcome).result.Err?
    ensures ModuleSteps(modules, n, pc, present, outcome).started == ModuleSteps(modules, m, pc, present, outcome).started
    ensures ModuleSteps(modules, n, pc, present, outcome).result == ModuleSteps(modules, m, pc, present, outcome).result
    decreases n - m
  {
    if m < n {
      ModuleStepsErrSticks(modules, m, n - 1, pc, present, outcome);
    }
  }

  /** The module loop of `build_phase`. */
  method RunModules(runner: Runner, modules: seq<string>, pc: FileItems.PathContext, present: string -> bool)
    returns (r: Result<(), BuildError>)
    modifies runner
    ensures runner.started == old(runner.started) + ModuleSteps(modules, |modules|, pc, present, runner.outcome).started
    ensures r == ModuleSteps(modules, |modules|, pc, present, runner.outcome).result
  {
    ghost var start := runner.started;
    for i := 0 to |modules|
      invariant ModuleSteps(modules, i, pc, present, runner.outcome).result == Ok(())
      invariant runner.started == start + ModuleSteps(modules, i, pc, present, runner.outcome).started
    {
      ghost var before := runner.started;
      r := RunFound(runner, pc, present, modules[i]);
      ModuleStepsNext(modules, i, pc, present, runner.outcome, start, before, runner.started);
      if r.Err? {
        ModuleStepsErrSticks(modules, i + 1, |modules|, pc, present, runner.outcome);
        return;
      }
    }
    r := Ok(());
  }

  /** `a` then `b` appends what `b` started to what `a` started. */
  lemma ThenAppends(a: Steps, b: Steps, start: seq<Command>, before: seq<Command>, after: seq<Command>)
    requires a.result == Ok(())
    requires before == start + a.started && after == before + b.started
    ensures after == start + Then(a, b).started && Then(a, b).result == b.result
  {
  }

  /** The package installation, when packages are listed. */
  method RunPackages(runner: Runner, b: BuildSpec) returns (r: Result<(), BuildError>)
    modifies runner
    ensures runner.started == old(runner.started) + PackageSteps(b, runner.outcome).started
    ensures r == PackageSteps(b, runner.outcome).result
  {
    r := Ok(());
    if b.requiredPackages.Some? {
      r := runner.Run(AptGet(b.requiredPackages.value));
    }
  }

  /** The modules and then `ldconfig`, when modules are listed. */
  method RunModulesAndLdconfig(runner: Runner, b: BuildSpec, pc: FileItems.PathContext, present: string -> bool)
    returns (r: Result<(), BuildError>)
    modifies runner
    ensures runner.started == old(runner.started) + ModulesSteps(b, pc, present, runner.outcome).started
    ensures r == ModulesSteps(b, pc, present, runner.outcome).result
  {
    r := Ok(());
    if b.requiredModules.Some? {
      var ms := b.requiredModules.value;
      ghost var start := runner.started;
      r := RunModules(runner, ms, pc, present);
      if r.Err? {
        return;
      }
      ghost var before := runner.started;
      r := runner.Run(Ldconfig);
      ThenAppends(ModuleSteps(ms, |ms|, pc, present, runner.outcome), RunStep(Ldconfig, runner.outcome),
                  start, before, runner.started);
    }
  }

  /** The build command, when there is one. */
  method RunBuildCommand(runner: Runner, b: BuildSpec, pc: FileItems.PathContext, present: string -> bool)
    returns (r: Result<(), BuildError>)
    modifies runner
    ensures runner.started == old(runner.started) + BuildCommandSteps(b, pc, present, runner.outcome).started
    ensures r == BuildCommandSteps(b, pc, present, runner.outcome).result
  {
    r := Ok(());
    if b.buildCommand.Some? {
      r := RunFound(runner, pc, present, b.buildCommand.value);
    }
  }

  /** Packages, modules and `ldconfig`, then the build command. */
  method PrepareBuild(runner: Runner, b: BuildSpec, pc: FileItems.PathContext, present: string -> bool)
    returns (r: Result<(), BuildError>)
    modifies runner
    ensures runner.started == old(runner.started) + PrepareSteps(b, pc, present, runner.outcome).started
    ensures r == PrepareSteps(b, pc, present, runner.outcome).result
  {
    ghost var start := runner.started;
    ghost var packages := PackageSteps(b, runner.outcome);
    ghost var modules := ModulesSteps(b, pc, present, runner.outcome);
    r := RunPackages(runner, b);
    if r.Err? {
      return;
    }
    ghost var before := runner.started;
    r := RunModulesAndLdconfig(runner, b, pc, present);
    ThenAppends(packages, modules, start, before, runner.started);
    if r.Err? {
      return;
    }
    before := runner.started;
    r := RunBuildCommand(runner, b, pc, present);
    ThenAppends(Then(packages, modules), BuildCommandSteps(b, pc, present, runner.outcome), start, before, runner.started);
  }

  // =====================================================================
  // Gathering the listed files
  // =====================================================================

  /** The files found for the four lists of the `Build` section. */
  datatype Gathered = Gathered(
    executables: seq<FileEntry>,
    libraries: seq<FileEntry>,
    resources: seq<FileEntry>,
    extraElf: seq<FileEntry>)

  /** `process_file_items` of one optional list, under `base`. */
  function ListFiles(items: Option<seq<string>>, base: string, pc: FileItems.PathContext, fs: FileItems.Fs)
    : Result<seq<FileEntry>, BuildError>
  {
    match items
    case None => Ok([])
    case Some(xs) => FileItems.ItemsFiles(xs, |xs|, base, pc, fs)
  }

  /** Executables under `bin`, libraries under `lib`, resources under `res`
      and the extra ELF files under `_unused`, in that order, the first
      error ending it. */
  function GatherSpec(b: BuildSpec, pc: FileItems.PathContext, fs: FileItems.Fs): Result<Gathered, BuildError>
  {
    match ListFiles(b.executables, "bin", pc, fs)
    case Err(e) => Err(e)
    case Ok(exes) =>
      match ListFiles(b.libraries, "lib", pc, fs)
      case Err(e) => Err(e)
      case Ok(libs) =>
        match ListFiles(b.resources, "res", pc, fs)
        case Err(e) => Err(e)
        case Ok(res) =>
          match ListFiles(b.extraElfFiles, "_unused", pc, fs)
          case Err(e) => Err(e)
          case Ok(extra) => Ok(Gathered(exes, libs, res, extra))
  }

  /** The files whose libraries are resolved: executables, extra ELF files
      and libraries. */
  function Elves(g: Gathered): seq<FileEntry>
  {
    g.executables + g.extraElf + g.libraries
  }

  /** The files written to the archive: executables, libraries, resources
      and the resolved libraries; the extra ELF files are not among them. */
  function Archived(g: Gathered, deps: seq<FileEntry>): seq<FileEntry>
  {
    g.executables + g.libraries + g.resources + deps
  }

  /** An extra ELF file that is not also listed, nor resolved, as something
      else reaches dependency resolution but not the archive's file list. */
  lemma ExtraElfOnlyResolved(g: Gathered, deps: seq<FileEntry>, e: FileEntry)
    requires e in g.extraElf
    requires e !in g.executables && e !in g.libraries && e !in g.resources && e !in deps
    ensures e in Elves(g) && e !in Archived(g, deps)
  {
  }

  method ListItems(items: Option<seq<string>>, base: string, pc: FileItems.PathContext, fs: FileItems.Fs)
    returns (r: Result<seq<FileEntry>, BuildError>)
    ensures r == ListFiles(items, base, pc, fs)
  {
    if items.None? {
      return Ok([]);
    }
    r := FileItems.ProcessFileItems(items.value, base, pc, fs, []);
    match FileItems.ItemsFiles(items.value, |items.value|, base, pc, fs)
    case Ok(v) => assert [] + v == v;
    case Err(_) =>
  }

  /** The four `process_file_items` calls of `build_phase`. */
  method GatherBuildFiles(b: BuildSpec, pc: FileItems.PathContext, fs: FileItems.Fs)
    returns (r: Result<Gathered, BuildError>)
    ensures r == GatherSpec(b, pc, fs)
  {
    var exes := ListItems(b.executables, "bin", pc, fs);
    if exes.Err? {
      return Err(exes.error);
    }
    var libs := ListItems(b.libraries, "lib", pc, fs);
    if libs.Err? {
      return Err(libs.error);
    }
    var res := ListItems(b.resources, "res", pc, fs);
    if res.Err? {
      return Err(res.error);
    }
    var extra := ListItems(b.extraElfFiles, "_unused", pc, fs);
    if extra.Err? {
      return Err(extra.error);
    }
    r := Ok(Gathered(exes.value, libs.value, res.value, extra.value));
  }

  // =====================================================================
  // build_phase
  // =====================================================================

  /** What dependency resolution reads: the two library caches and the
      needed-library lists of ELF files. */
  datatype LdInputs = LdInputs(
    baseCache: Result<set<string>, LdCache.LdError>,
    buildCache: Result<map<string, string>, LdCache.LdError>,
    scan: string -> Result<seq<string>, LdCache.LdError>)

  /** `deps` is a result `resolve_deps` may give for `elves`. */
  predicate Resolved(elves: seq<FileEntry>, ld: LdInputs, canon: string -> Option<string>, deps: seq<FileEntry>)
  {
    && ld.baseCache.Ok? && ld.buildCache.Ok?
    && var env := LdCache.LdEnv(ld.scan, ld.baseCache.value, ld.buildCache.value, canon);
    LdCache.Closed(elves, env, deps) && LdCache.WellSourced(elves, env, deps)
  }

  /** `e` is an error `resolve_deps` may give for `elves`. */
  ghost predicate ResolveFailed(elves: seq<FileEntry>, ld: LdInputs, canon: string -> Option<string>, e: LdCache.LdError)
  {
    if ld.baseCache.Err? then e == ld.baseCache.error
    else if ld.buildCache.Err? then e == ld.buildCache.error
    else LdCache.FailureJustified(elves, LdCache.LdEnv(ld.scan, ld.baseCache.value, ld.buildCache.value, canon), e)
  }

  method Resolve(elves: seq<FileEntry>, ld: LdInputs, canon: string -> Option<string>)
    returns (r: Result<seq<FileEntry>, LdCache.LdError>)
    ensures r.Ok? ==> Resolved(elves, ld, canon, r.value)
    ensures r.Err? ==> ResolveFailed(elves, ld, canon, r.error)
  {
    r := LdCache.ResolveDepsWithCaches(elves, ld.baseCache, ld.buildCache, ld.scan, canon);
  }

  /** The version `build_phase` reads: the version file is looked up like
      any other item, then read and trimmed. */
  function VersionOf(b: BuildSpec, pc: FileItems.PathContext, fs: FileItems.Fs): Result<string, BuildError>
  {
    match FileItems.Located(pc.locations, fs.present, b.versionFile)
    case Err(e) => Err(e)
    case Ok(path) => ParseVersionFile(path, fs)
  }

  /** `parse_version_file(pc.find_path(version_file)?)` */
  method ReadVersion(b: BuildSpec, pc: FileItems.PathContext, fs: FileItems.Fs) returns (r: Result<string, BuildError>)
    ensures r == VersionOf(b, pc, fs)
  {
    var path := pc.FindPath(fs.present, b.versionFile);
    if path.Err? {
      return Err(path.error);
    }
    r := ParseVersionFile(path.value, fs);
  }

  /** What `insert_files` writes for `files`: the entries and how it ends. */
  predicate Inserted(files: seq<FileEntry>, fs: FileItems.Fs, entries: seq<ZipEntry>, r: Result<(), BuildError>)
  {
    match Archive.Collect(files, |files|)
    case Err(e) => entries == [] && r == Err(e)
    case Ok(m) =>
      entries == Archive.Emit(m, Archive.Dirs, |m|, fs).0 && r == Archive.Emit(m, Archive.Dirs, |m|, fs).1
  }

  /** `insert_files` into a new archive. */
  method InsertInto(zf: ZipWriter, files: seq<FileEntry>, fs: FileItems.Fs) returns (r: Result<(), BuildError>)
    requires zf.entries == []
    modifies zf
    ensures Inserted(files, fs, zf.entries, r)
  {
    r := Archive.InsertFiles(zf, files, fs, Archive.Dirs);
  }

  /** Whether a step that gives a value succeeded, without the value. */
  function Unit<T>(r: Result<T, BuildError>): Result<(), BuildError>
  {
    match r
    case Ok(_) => Ok(())
    case Err(e) => Err(e)
  }

  /** What the part of `build_phase` after gathering does, given what
      gathering gave (`g`) and what dependency resolution gave
      (`resolution`): `r` is its result and `entries` what it writes to the
      archive. A resolution failure is `Ld` of its error; then a version
      error; then `IO` of an archive that cannot be created; otherwise
      `insert_files` decides the entries and whether it fails. */
  ghost predicate PackageSpec(g: Gathered, b: BuildSpec, stem: string, pc: FileItems.PathContext, fs: FileItems.Fs,
                              ld: LdInputs, r: Result<(string, string), BuildError>, entries: seq<ZipEntry>,
                              resolution: Result<seq<FileEntry>, LdCache.LdError>)
  {
    match resolution
    case Err(e) => r == Err(Ld(e)) && entries == [] && ResolveFailed(Elves(g), ld, fs.canon, e)
    case Ok(deps) =>
      && Resolved(Elves(g), ld, fs.canon, deps)
      && (match VersionOf(b, pc, fs)
          case Err(e) => r == Err(e) && entries == []
          case Ok(version) =>
            var output := ArchiveName(stem, version);
            if !fs.creatable(output) then r == Err(IO(output)) && entries == []
            else Inserted(Archived(g, deps), fs, entries, Unit(r)) && (r.Ok? ==> r.value == (output, version)))
  }

  /** Resolving the libraries, reading the version, creating the archive
      and writing the files to it: the part of `build_phase` after the
      files are gathered. `resolution` is what dependency resolution gave. */
  method Package(g: Gathered, b: BuildSpec, stem: string, pc: FileItems.PathContext, fs: FileItems.Fs, ld: LdInputs)
    returns (r: Result<(string, string), BuildError>, zf: ZipWriter, ghost resolution: Result<seq<FileEntry>, LdCache.LdError>)
    ensures fresh(zf)
    ensures PackageSpec(g, b, stem, pc, fs, ld, r, zf.entries, resolution)
  {
    zf := new ZipWriter();
    var resolved := Resolve(Elves(g), ld, fs.canon);
    resolution := resolved;
    if resolved.Err? {
      return Err(Ld(resolved.error)), zf, resolution;
    }
    var version := ReadVersion(b, pc, fs);
    if version.Err? {
      return Err(version.error), zf, resolution;
    }
    var output := ArchiveName(stem, version.value);
    if !fs.creatable(output) {
      return Err(IO(output)), zf, resolution;
    }
    var written := InsertInto(zf, Archived(g, resolved.value), fs);
    if written.Err? {
      return Err(written.error), zf, resolution;
    }
    r := Ok((output, version.value));
  }

  /** The commands `build_phase` starts: none when the log cannot be
      created, otherwise those of the build steps. */
  function PhaseStarted(b: BuildSpec, stem: string, pc: FileItems.PathContext, fs: FileItems.Fs,
                        outcome: Command -> Outcome): seq<Command>
  {
    if !fs.creatable(LogFileName(stem)) then [] else PrepareSteps(b, pc, fs.present, outcome).started
  }

  /** What `build_phase` does, given what gathering gave (`g`) and what
      dependency resolution gave (`resolution`): `r` is its result and
      `entries` what it writes to the archive. The log comes first, then
      the build steps, then gathering, then `PackageSpec`; each failure
      stops the phase with its own error and an empty archive. */
  ghost predicate PhaseSpec(b: BuildSpec, stem: string, pc: FileItems.PathContext, fs: FileItems.Fs,
                            outcome: Command -> Outcome, ld: LdInputs, r: Result<(string, string), BuildError>,
                            entries: seq<ZipEntry>, g: Gathered, resolution: Result<seq<FileEntry>, LdCache.LdError>)
  {
    var prep := PrepareSteps(b, pc, fs.present, outcome);
    if !fs.creatable(LogFileName(stem)) then r == Err(IO(LogFileName(stem))) && entries == []
    else if prep.result.Err? then r == Err(prep.result.error) && entries == []
    else match GatherSpec(b, pc, fs)
      case Err(e) => r == Err(e) && entries == []
      case Ok(gathered) => gathered == g && PackageSpec(g, b, stem, pc, fs, ld, r, entries, resolution)
  }

  /** A successful build phase created the log, ran every build step,
      gathered `g`, resolved its libraries, read the version, named the
      archive after the stem and the version, and wrote every file. */
  lemma PhaseSucceeded(b: BuildSpec, stem: string, pc: FileItems.PathContext, fs: FileItems.Fs,
                       outcome: Command -> Outcome, ld: LdInputs, r: Result<(string, string), BuildError>,
                       entries: seq<ZipEntry>, g: Gathered, resolution: Result<seq<FileEntry>, LdCache.LdError>)
    requires PhaseSpec(b, stem, pc, fs, outcome, ld, r, entries, g, resolution) && r.Ok?
    ensures fs.creatable(LogFileName(stem))
    ensures PrepareSteps(b, pc, fs.present, outcome).result.Ok? && GatherSpec(b, pc, fs) == Ok(g)
    ensures resolution.Ok? && Resolved(Elves(g), ld, fs.canon, resolution.value)
    ensures VersionOf(b, pc, fs) == Ok(r.value.1) && r.value.0 == ArchiveName(stem, r.value.1)
    ensures fs.creatable(r.value.0)
    ensures Inserted(Archived(g, resolution.value), fs, entries, Ok(()))
  {
  }

  /** `build_phase`: create the log, run the build steps, gather the files,
      then package them. It gives the archive's name and the version, and
      the archive being written. `g` is what gathering gave and
      `resolution` what dependency resolution gave. */
  method BuildPhase(b: BuildSpec, stem: string, pc: FileItems.PathContext, fs: FileItems.Fs, runner: Runner, ld: LdInputs)
    returns (r: Result<(string, string), BuildError>, zf: ZipWriter,
             ghost g: Gathered, ghost resolution: Result<seq<FileEntry>, LdCache.LdError>)
    modifies runner
    ensures fresh(zf)
    ensures runner.started == old(runner.started) + PhaseStarted(b, stem, pc, fs, runner.outcome)
    ensures PhaseSpec(b, stem, pc, fs, runner.outcome, ld, r, zf.entries, g, resolution)
  {
    zf := new ZipWriter();
    g := Gathered([], [], [], []);
    resolution := Ok([]);
    var log := LogFileName(stem);
    if !fs.creatable(log) {
      return Err(IO(log)), zf, g, resolution;
    }
    var prepared := PrepareBuild(runner, b, pc, fs.present);
    if prepared.Err? {
      return Err(prepared.error), zf, g, resolution;
    }
    var gathered := GatherBuildFiles(b, pc, fs);
    if gathered.Err? {
      return Err(gathered.error), zf, g, resolution;
    }
    var files := gathered.value;
    g := files;
    r, zf, resolution := Package(files, b, stem, pc, fs, ld);
  }
}
