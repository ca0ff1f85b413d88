/** `src/bin/bundle-run.rs`: where a bundle is unpacked and where its home
    is, the environment its program gets, and which commands run. */
module BundleRun {
  import opened Wrappers
  import opened Strings
  import opened Paths
  import opened BundleIni

  const GamesRoot := "/home/games"
  const PatchName := "runner-patch"
  const HomeVar := "HOME"
  const RuntimeVar := "XDG_RUNTIME_DIR"

  datatype RunError =
    | BadArchive                  // the bundle cannot be opened or its metadata read
    | NoId                        // "Corrupt bundle has no ID"
    | ExtractFailed(dir: string)  // creating the data directory or unpacking into it failed
    | CommandFailed(program: string)
    | SwitchUserFailed
    | NoHome                      // "no home directory set"
    | HomeNotCreated(dir: string)
    | BadIni                      // the unpacked `bundle.ini` cannot be read

  // =====================================================================
  // data_dir and make_home_dir
  // =====================================================================

  /** `data_dir`: the bundle's ID (the store ID, else `homebrew-` and the
      homebrew ID) and the directory it is unpacked into. */
  function DataDir(config: BundleConfig): Result<(string, string), RunError>
  {
    if config.storeId.Some? then
      var id := config.storeId.value;
      Ok((id, Join(Join(GamesRoot, "bundle-data"), id)))
    else if config.homebrewId.Some? then
      var id := "homebrew-" + config.homebrewId.value;
      Ok((id, Join(Join(GamesRoot, "bundle-data"), id)))
    else Err(NoId)
  }

  /** The store ID wins over a homebrew ID; a homebrew bundle's ID is
      marked as such; a bundle with neither has no data directory. A
      relative ID gives a directory under `/home/games/bundle-data`. */
  lemma DataDirIds(config: BundleConfig)
    ensures DataDir(config).Ok? <==> config.storeId.Some? || config.homebrewId.Some?
    ensures config.storeId.Some? ==> DataDir(config).value.0 == config.storeId.value
    ensures config.storeId.None? && config.homebrewId.Some? ==>
      DataDir(config).value.0 == "homebrew-" + config.homebrewId.value
    ensures DataDir(config).Ok? && !IsAbsolute(DataDir(config).value.0) ==>
      DataDir(config).value.1 == "/home/games/bundle-data/" + DataDir(config).value.0
  {
    assert Join(GamesRoot, "bundle-data") == "/home/games/bundle-data";
  }

  /** The ID is joined as a path: an absolute store ID is the data
      directory itself, outside `/home/games/bundle-data`. */
  lemma AbsoluteIdEscapes(config: BundleConfig)
    requires config.storeId.Some? && IsAbsolute(config.storeId.value)
    ensures DataDir(config) == Ok((config.storeId.value, config.storeId.value))
  {
  }

  /** `make_home_dir`: `bundle-home/<id>` under the user's home. */
  function HomeDir(userHome: Option<string>, id: string): Result<string, RunError>
  {
    match userHome
    case None => Err(NoHome)
    case Some(h) => Ok(Join(Join(h, "bundle-home"), id))
  }

  lemma HomeDirPath(userHome: Option<string>, id: string)
    ensures HomeDir(userHome, id).Ok? <==> userHome.Some?
    ensures userHome.Some? && |userHome.value| > 0 && userHome.value[|userHome.value| - 1] != '/'
            && !IsAbsolute(id) ==>
      HomeDir(userHome, id).value == userHome.value + "/bundle-home/" + id
  {
  }

  // =====================================================================
  // Command and add_xdg_dirs
  // =====================================================================

  /** The environment a command gets: the variables set (`Some`) or
      removed (`None`) on it, as `get_envs` lists them. */
  type Env = map<string, Option<string>>

  /** `add_xdg_dirs` on an environment. */
  function WithXdgDirs(envs: Env): Env
  {
    if HomeVar in envs && envs[HomeVar].Some? then envs[RuntimeVar := Some(Join(envs[HomeVar].value, ".runtime"))]
    else envs
  }

  /** The runtime directory is set, under the home, exactly when the home
      is set on the command; nothing else changes, and adding it twice is
      adding it once. */
  lemma XdgDirsSet(envs: Env)
    ensures var e := WithXdgDirs(envs);
      && (HomeVar in envs && envs[HomeVar].Some? ==> e[RuntimeVar] == Some(Join(envs[HomeVar].value, ".runtime")))
      && (!(HomeVar in envs && envs[HomeVar].Some?) ==> e == envs)
      && (forall k :: k != RuntimeVar ==> (k in e <==> k in envs) && (k in envs ==> e[k] == envs[k]))
      && WithXdgDirs(e) == e
  {
  }

  /** A command being prepared: `std::process::Command`'s program, working
      directory and explicitly set environment. */
  class Command {
    const program: string
    var dir: Option<string>
    var envs: Env

    constructor (program: string)
      ensures this.program == program && dir.None? && envs == map[]
    {
      this.program := program;
      dir := None;
      envs := map[];
    }

    /** `current_dir` */
    method CurrentDir(d: string)
      modifies this
      ensures dir == Some(d) && envs == old(envs)
    {
      dir := Some(d);
    }

    /** `env` */
    method SetEnv(key: string, value: string)
      modifies this
      ensures envs == old(envs)[key := Some(value)] && dir == old(dir)
    {
      envs := envs[key := Some(value)];
    }

    /** `add_xdg_dirs`: the runtime directory is `.runtime` under the home
      set on this command, if one is. */
    method AddXdgDirs()
      modifies this
      ensures envs == WithXdgDirs(old(envs)) && dir == old(dir)
    {
      if HomeVar in envs && envs[HomeVar].Some? {
        var home := envs[HomeVar].value;
        SetEnv(RuntimeVar, Join(home, ".runtime"));
      }
    }

    function Launched(): Launch
      reads this
    {
      Launch(program, dir, envs)
    }
  }

  /** A command as it is started. */
  datatype Launch = Launch(program: string, dir: Option<string>, envs: Env)

  // =====================================================================
  // run_bundle
  // =====================================================================

  /** The runner patch, run in the data directory. */
  function PatchLaunch(dataDir: string): Launch
  {
    Launch(Join(dataDir, PatchName), Some(dataDir), map[])
  }

  /** The bundle's program, run in the data directory with the bundle's
      home as its home. */
  function ExecLaunch(dataDir: string, exec: string, home: string): Launch
  {
    Launch(Join(dataDir, exec), Some(dataDir), WithXdgDirs(map[HomeVar := Some(home)]))
  }

  /** The command `run_bundle` builds for the bundle's program. */
  method ExecCommand(dataDir: string, exec: string, home: string) returns (cmd: Command)
    ensures fresh(cmd)
    ensures cmd.Launched() == ExecLaunch(dataDir, exec, home)
  {
    cmd := new Command(Join(dataDir, exec));
    cmd.CurrentDir(dataDir);
    cmd.SetEnv(HomeVar, home);
    cmd.AddXdgDirs();
  }

  /** The program gets its home and a runtime directory under it, and
      nothing else set. */
  lemma ExecEnvironment(dataDir: string, exec: string, home: string)
    ensures ExecLaunch(dataDir, exec, home).envs
         == map[HomeVar := Some(home), RuntimeVar := Some(Join(home, ".runtime"))]
  {
  }

  /** What `run_bundle` depends on besides the bundle: the results of file
      system calls, of switching user, and of starting commands. */
  datatype World = World(
    archive: Option<BundleConfig>,      // the metadata of the bundle file
    unpacked: string -> bool,           // creating a data directory and extracting into it succeed
    present: string -> bool,            // `Path::exists`
    starts: Launch -> bool,             // a command starts and its output is text
    switched: bool,                     // switching to `user` succeeds
    userHome: Option<string>,           // `dirs::home_dir` after the switch
    creatable: string -> bool,          // `create_dir_all` succeeds
    ini: string -> Option<BundleConfig>) // the `bundle.ini` read from a data directory

  /** Commands started, and how `run_bundle` ended. */
  datatype Run = Run(launched: seq<Launch>, result: Result<(), RunError>)

  /** A command, run for its effect only: its exit status is not looked at. */
  function RunCommand(l: Launch, w: World): Run
  {
    Run([l], if w.starts(l) then Ok(()) else Err(CommandFailed(l.program)))
  }

  /** `patch_bundle` */
  function PatchBundle(dataDir: string, w: World): Run
  {
    if w.present(Join(dataDir, PatchName)) then RunCommand(PatchLaunch(dataDir), w) else Run([], Ok(()))
  }

  /** `run_bundle` after the bundle is unpacked and patched. */
  function RunUnpacked(id: string, dataDir: string, w: World): Run
  {
    if !w.switched then Run([], Err(SwitchUserFailed))
    else
      match HomeDir(w.userHome, id)
      case Err(e) => Run([], Err(e))
      case Ok(home) =>
        if !w.creatable(home) then Run([], Err(HomeNotCreated(home)))
        else
          match w.ini(Join(dataDir, "bundle.ini"))
          case None => Run([], Err(BadIni))
          case Some(spec) =>
            if spec.exec.None? then Run([], Ok(()))
            else RunCommand(ExecLaunch(dataDir, spec.exec.value, home), w)
  }

  /** `run_bundle`: unpack (`extract_bundle`, with `patch_bundle`), switch
      user, make the home, then run the bundle's program if it has one. */
  function RunBundle(w: World): Run
  {
    match w.archive
    case None => Run([], Err(BadArchive))
    case Some(config) =>
      match DataDir(config)
      case Err(e) => Run([], Err(e))
      case Ok((id, dataDir)) =>
        if !w.unpacked(dataDir) then Run([], Err(ExtractFailed(dataDir)))
        else
          var patch := PatchBundle(dataDir, w);
          if patch.result.Err? then patch
          else
            var rest := RunUnpacked(id, dataDir, w);
            Run(patch.launched + rest.launched, rest.result)
  }

  /** When `run_bundle` succeeds, it has run the runner patch exactly when
      the unpacked bundle holds one, then the program exactly when the
      unpacked `bundle.ini` names one, both in the data directory; the
      program had the bundle's home and a runtime directory under it. */
  lemma RunBundleCommands(w: World)
    requires RunBundle(w).result.Ok?
    ensures w.archive.Some? && DataDir(w.archive.value).Ok?
    ensures var (id, dataDir) := DataDir(w.archive.value).value;
      var home := HomeDir(w.userHome, id).value;
      var spec := w.ini(Join(dataDir, "bundle.ini"));
      && w.switched && w.userHome.Some? && spec.Some?
      && RunBundle(w).launched ==
           (if w.present(Join(dataDir, PatchName)) then [PatchLaunch(dataDir)] else [])
           + (if spec.value.exec.Some? then [ExecLaunch(dataDir, spec.value.exec.value, home)] else [])
      && forall l :: l in RunBundle(w).launched ==> l.dir == Some(dataDir)
  {
  }

  /** Nothing runs before the bundle is unpacked into its data directory,
      and a patch that does not start stops everything after it. */
  lemma RunBundleStops(w: World)
    ensures w.archive.None? ==> RunBundle(w) == Run([], Err(BadArchive))
    ensures w.archive.Some? && DataDir(w.archive.value).Err? ==> RunBundle(w) == Run([], Err(NoId))
    ensures w.archive.Some? && DataDir(w.archive.value).Ok? ==>
      var dataDir := DataDir(w.archive.value).value.1;
      && (!w.unpacked(dataDir) ==> RunBundle(w) == Run([], Err(ExtractFailed(dataDir))))
      && (w.unpacked(dataDir) && w.present(Join(dataDir, PatchName)) && !w.starts(PatchLaunch(dataDir)) ==>
            RunBundle(w) == Run([PatchLaunch(dataDir)], Err(CommandFailed(Join(dataDir, PatchName)))))
  {
    if w.archive.Some? && DataDir(w.archive.value).Err? {
      DataDirIds(w.archive.value);
    }
  }
}
