# bundle-gen, modelled in Dafny

`bundle-gen` builds *bundles* for the Atari VCS: zip archives holding a
program, its shared libraries, its resources and a `bundle.ini` metadata
file. Three companion tools work on them: `bundle-read` prints their
metadata, `bundle-deploy` rewrites them for the store, and `bundle-run`
unpacks and runs them.

This project models the core of the repository in Dafny and proves what
each part promises. The parts are:

- `config.dfy` (module `Config`): the bundle specification and the rules
  `check` applies to it. The store rules, the homebrew rules and the
  dispatch between them are each stated error by error.
- `ldcache.dfy` (module `LdCache`): `find_additional_versions` and the
  `resolve_deps` worklist, which finds the shared libraries the ELF files
  need beyond those the target device has. Its result is proved closed:
  every file in the bundle's ELF set has each needed name taken care of.
  It is also proved well sourced: each entry is an alias of an input or a
  build-cache library for a name that an input or an earlier entry needs,
  with no duplicates. Every failure comes from a file reached that way.
- `file_items.dfy` (modules `BuildErrors` and `FileItems`): `find_path`,
  `process_dir` and `process_file_items`. These decide how the files a
  specification lists are found and named inside the bundle.
- `archive.dfy` (module `Archive`): `insert_files`. Files are gathered in
  a name-ordered map, where a name given two locations is an error. They
  are then written in name order, and each file is preceded by the
  directories the previous file did not have.
- `building.dfy` (module `Building`): `parse_version_file`, `run_command`
  and `build_phase`, which covers the build steps, the gathering, the
  dependency resolution, the version and the archive name.
- `bundle.dfy` (module `Bundling`): `make_launcher_sh`, the metadata
  `make_bundle` derives, what `make_bundle` writes after the build phase,
  and the checks `generate` makes before it builds.
- `bundle_read.dfy` (module `BundleRead`): `to_cloned_vec`,
  `bundle_to_map`, and the output of `--all` and `--field`.
- `bundle_deploy.dfy` (module `BundleDeploy`): `parse_version`, which is
  `u32::from_str` plus a zero check; `size_archive`; the copy
  `replace_version` writes; and the upload form.
- `bundle_run.dfy` (module `BundleRun`): `data_dir`, `make_home_dir`, the
  `add_xdg_dirs` extension of `Command`, and what `run_bundle` starts.

Shared pieces sit in `wrappers.dfy` (`Option`, `Result`), `strings.dfy`
(splitting, joining, trimming and byte order of strings), `paths.dfy` (the
parts of `std::path::Path` the source uses) and `lib.dfy`. `lib.dfy` holds
`FileEntry`, the `bundle.ini` record of the `atari_bundle` crate, and a
zip writer that records the entries added to it.

The file system, the processes started, `shell_words::split`,
`fs::canonicalize` and the library caches cannot be seen from here. Each
becomes a parameter: a function from path to answer, such as
`FileItems.Fs`, `LdCache.LdEnv`, `Building.LdInputs` or `BundleRun.World`.
Every property is proved for all answers these inputs may give.

The code writes state step by step in several places: the zip writer, the
list of commands a build has started, the store copy being written, and
the `Command` being prepared. These are classes whose methods state their
new state through a specification function. The properties are proved
about those functions.

## Model

| member | source | states |
|---|---|---|
| Config.CheckStoreBundle | src/config.rs:78-121 | accepts exactly the valid store specifications; each error is reported exactly when its condition holds and every earlier test passed: a homebrew ID, tags without a launcher command and the reverse, a game or application without a command, a launcher-only bundle without a launcher command or with a command |
| Config.StoreRulesBeforeTrailing | src/config.rs:108-118 | the final launcher-tags test of the store rules can never fail once the earlier tests have passed |
| Config.CheckHomebrewBundle | src/config.rs:123-145 | accepts exactly the valid homebrew specifications; reports a launcher or a launcher-only bundle first, then a missing command, then a background flag set to true |
| Config.Check | src/config.rs:147-157 | a store ID selects the store rules, even when a homebrew ID is also set, which then gives `ConflictingOrigins`; otherwise a homebrew ID selects the homebrew rules; `NoOriginId` exactly when neither ID is set; accepts exactly the valid specifications |
| LdCache.FindAdditionalVersions | src/ldcache.rs:60-110 | adds the library's aliases to the map, overriding entries with the same key, and never fails |
| LdCache.AddPrefixAliases | src/ldcache.rs:70-106 | the prefix loop adds the aliases found among all the dotted prefixes |
| LdCache.PrefixAliasesKeys | src/ldcache.rs:75-105 | a key is added exactly when it is one of the dotted prefixes and its sibling file canonicalises to the library's location; the entry is the alias entry |
| LdCache.AliasesCharacterised | src/ldcache.rs:68-109 | no aliases without a file name; otherwise a key is an alias exactly when it is a dot-separated prefix of the file name whose sibling canonicalises to the library itself; the alias keeps the library's location, is named beside the library's bundle name, and holds no `/` |
| LdCache.Seed | src/ldcache.rs:124-134 | each input location is queued and put on the stack once, so no location is on the stack twice; `own_libs` holds the file names of the first entry for each location; `own_extra_libs` holds the aliases collected for those entries |
| LdCache.SeedAliasesOwner | src/ldcache.rs:124-134 | every collected alias belongs to the first input with its location |
| LdCache.SeedAliasesInjective | src/ldcache.rs:124-134 | collected alias entries carry an input's location, and no two keys share an entry |
| LdCache.ScanDep | src/ldcache.rs:140-173 | the new state for one needed name: unchanged when the target device has it or it is in `own_libs`; otherwise the alias is taken and the name added to `own_libs` when there is one, before the build cache is consulted; otherwise the build cache's file is added as `lib/<name>` and pushed unless already queued; otherwise `MissingDependency` of the name; the loop invariant is kept, and queueing strictly shrinks the unqueued part of the build cache |
| LdCache.ScanDeps | src/ldcache.rs:138-181 | on success every name the file needs is taken care of, and the invariant is kept; a failure is `MissingDependency` of one of this file's names that the target device, the inputs, the aliases and the build cache all lack, and it is justified |
| LdCache.InvResult | src/ldcache.rs:136-184 | once the stack is empty, the result is closed under dependencies and well sourced |
| LdCache.ResolveDeps | src/ldcache.rs:118-184 | the result is closed: every input and every resolved library has each needed name provided by the target device, an input, an alias or a resolved library, and a needed name that has an alias is provided only by that alias, never by the build cache; it is well sourced: each entry is an alias, or a `lib/<name>` build-cache file for a name no input has or is aliased as, for a name needed by an input or by an earlier entry, with no duplicates; a failure is a read error of, or a name found nowhere needed by, a file reached from the inputs through such a chain |
| LdCache.ResolveDepsWithCaches | src/ldcache.rs:112-185 | a failure to load the target cache, then the build cache, is the result; otherwise the result is closed and well sourced and a failure is justified, as for `ResolveDeps` |
| FileItems.LocatedIsFirst | src/generate.rs:71-82 | `find_path` gives the first location, in list order, under which the target exists, and `Find(target)` exactly when there is none |
| FileItems.PathContext.FindPath | src/generate.rs:71-82 | the loop computes the specified result |
| FileItems.ProcessDir | src/generate.rs:85-128 | appends the walk of the directory to the list, or gives its first error |
| FileItems.DirFilesMirror | src/generate.rs:85-128 | every entry of a directory's walk is a regular file below it, named by the same relative path below the entry name |
| FileItems.DirFilesComplete | src/generate.rs:85-128 | conversely, every regular file reachable through listed directories is in the walk |
| FileItems.ListingErrSticks | src/generate.rs:92-126 | the first item whose metadata cannot be read ends the walk with its error |
| FileItems.ProcessFileItems | src/generate.rs:222-261 | appends the files of every item in order, stopping at the first error |
| FileItems.ItemsErrSticks | src/generate.rs:233-258 | processing stops at the first item that fails, with its error |
| FileItems.ItemNaming | src/generate.rs:238-257 | a file item is named `base/<file name>`; a directory item's files are exactly its walk, below `base/<file name>`, or directly below `base` when the item ends with `/`; an item without a file name, or that is neither a file nor a directory, adds nothing |
| FileItems.DotItemNaming | src/generate.rs:238-251 | an item ending in a `.` segment is named after the directory before it (`assets/.` goes below `res/assets`), while `assets/./` ends with `/` and goes directly below `res` |
| Archive.InsertFiles | src/generate.rs:130-186 | on a clash nothing is written and the error is returned; otherwise the archive receives the specified output of the sorted map |
| Archive.GatherFiles | src/generate.rs:134-142 | the first loop computes the map of the files, or the error for the first clash |
| Archive.CollectSpec | src/generate.rs:134-142 | gathering fails exactly when some name is given two different locations, and names the first such file; otherwise the map is sorted by name and holds exactly the files given |
| Archive.InsertSpec | src/generate.rs:137 | `BTreeMap::insert` keeps the map sorted, stores the entry, drops any other location of the name, and reports the old one |
| Archive.WriteSorted | src/generate.rs:144-184 | the second loop writes every map entry in order and stops at the first failure |
| Archive.AddDirs | src/generate.rs:162-170 | adds the directories of the new path that the previous path lacks at the same position, from position 1 on |
| Archive.EmitFiles | src/generate.rs:144-184 | the archive's file entries are the map's entries, in name order |
| Archive.EmitDirsFirst | src/generate.rs:147-179 | before each file is written, every containing directory except the outermost is already in the archive, and the file is the last entry |
| Archive.EmitDirsAreContaining | src/generate.rs:162-170 | every directory entry written is a containing directory of some file, never the outermost |
| Archive.EmitErrSticks | src/generate.rs:174-181 | writing stops at the first file whose metadata, opening or copy fails |
| Archive.DirsOfChild | src/generate.rs:154-159 | the containing directories of a path are those of its parent, followed by the parent |
| Building.ParseVersionFile | src/generate.rs:188-193 | fails exactly when the file cannot be read, with `IO` of its path |
| Building.VersionIsTrimmedText | src/generate.rs:188-193 | the version is the file's text with white space removed at both ends only; neither end of the result is white space |
| Building.EmptyVersionAccepted | src/generate.rs:188-193 | a version file holding only white space gives the empty version |
| Building.VersionReadsBack | src/generate.rs:188-193 | writing a version read this way and reading it again gives the same version |
| Building.RunResult | src/generate.rs:195-220 | success exactly when the program started, both outputs are UTF-8, the log was written and the exit succeeded; `Build` exactly for an unsuccessful exit after all that; otherwise `IO` or `Utf8` of the program |
| Building.Runner.Run | src/generate.rs:195-220 | records the command as started and returns its `run_command` result |
| Building.StopsAtFirstFailure | src/generate.rs:272-298 | the first command that fails is the last one started, and its error is the phase's error |
| Building.PrepareOrder | src/generate.rs:272-298 | the commands started are a prefix of the planned ones, in order: packages, each module in list order, `ldconfig`, then the build command; a successful phase runs them all |
| Building.PrepareBuild | src/generate.rs:272-298 | the method starts exactly the specified steps and returns their result |
| Building.RunModules | src/generate.rs:283-290 | each module is found and run in list order, stopping at the first failure |
| Building.GatherBuildFiles | src/generate.rs:300-321 | gathers executables under `bin`, libraries under `lib`, resources under `res` and extra ELF files under `_unused`, in that order, the first error ending it |
| Building.ExtraElfOnlyResolved | src/generate.rs:315-350 | an extra ELF file listed nowhere else reaches dependency resolution but not the archive |
| Building.Resolve | src/generate.rs:336 | the resolution result carries the guarantees of `resolve_deps` |
| Building.ArchiveName | src/generate.rs:339 | the name is the stem, `_`, the version and `.bundle`, and the stem and version can be read back from it |
| Building.LogNameAddsExtension | src/generate.rs:268-269 | the log of a one-segment stem without a dot is the stem plus `.log` |
| Building.LogNameReplacesExtension | src/generate.rs:268-269 | a stem's last extension is replaced by `.log` |
| Building.Package | src/generate.rs:336-353 | a resolution failure is `Ld` of its error; then a version error; then `IO` of an uncreatable archive, each with nothing written; otherwise the archive holds what `insert_files` writes for executables, libraries, resources and resolved libraries, its failure is the result, and a success is the archive name and version |
| Building.BuildPhase | src/generate.rs:263-354 | no command starts when the log cannot be created, and otherwise exactly the build steps' commands; the result is `IO` of the log, then the build steps' error, then the gathering error, then as `Package`: the resolution error, the version error, `IO` of the archive, or the error of `insert_files`; an early failure writes nothing |
| Building.PhaseSucceeded | src/generate.rs:263-354 | a successful build phase created the log, ran every build step, gathered the files, resolved their libraries, read the version, named the archive after the stem and the version, and wrote every file |
| Bundling.LauncherWords | src/generate.rs:364-374 | a startup command that splits into no words is `BadCommand`; one that cannot be split is run whole with no arguments; otherwise the first word is the command, and each other word that holds no single quote reads back from the script as itself |
| Bundling.QuotedReadsBack | src/generate.rs:370 | an argument without a single quote, quoted as the script quotes it, reads back in `sh` as itself |
| Bundling.QuoteInsideBreaks | src/generate.rs:370 | an argument holding a single quote does not read back as itself |
| Bundling.MakeLauncherSh | src/generate.rs:356-394 | the script entry is started before the command is examined, so a command with no words leaves an empty entry; otherwise the entry holds the script; the result is that of the command split |
| Bundling.ProgOf | src/generate.rs:399-412 | no command gives no `Exec`; a command another program launches is the `Exec` itself; otherwise `Exec` is `run.sh` |
| Bundling.BundleMetadata | src/generate.rs:414-453 | the name, type, `Exec`, version and launcher come from the specification; a homebrew bundle has only its homebrew ID, no background and no launcher; a store bundle has its store ID, its background flag, and `launch.sh` with its tags when it provides a launcher; a specification with neither ID is `BundleOriginUnknown` |
| Bundling.HomebrewFields | src/generate.rs:416-430 | a homebrew bundle is refused with `InvalidField` when it sets launcher tags, a launcher command or the background flag at all, in that order, and is accepted otherwise |
| Bundling.StoreFields | src/generate.rs:431-450 | a store bundle with a launcher command and no tags, or tags and no launcher command, is refused with `MissingField` of the one missing |
| Bundling.CheckedHomebrew | src/generate.rs:416-430 | after `check` accepts a homebrew specification, `make_bundle` still refuses it exactly when it lists launcher tags (even none) or sets the background flag (even to false) |
| Bundling.CheckedStore | src/generate.rs:431-450 | after `check` accepts a store specification, `make_bundle` still refuses it exactly when it lists an empty set of launcher tags without a launcher command |
| Bundling.PatchInserted | src/generate.rs:455-464 | the runner patch is written by `insert_files` as a single top-level file with no directory entry, failing on a location that cannot be read |
| Bundling.FinishShape | src/generate.rs:399-466 | a successful finish writes `run.sh` when needed, `launch.sh` when the bundle provides a launcher, the metadata, then the runner patch |
| Bundling.MetadataOnce | src/generate.rs:430-450 | the metadata is written exactly once |
| Bundling.RunScriptFirst | src/generate.rs:399-409 | the first entry is `run.sh` exactly when the command needs it |
| Bundling.PatchLast | src/generate.rs:455-464 | the last entry is a file exactly when there is a runner patch, and it is the patch at its canonical location |
| Bundling.FinishBundle | src/generate.rs:399-466 | the method appends exactly the specified entries and returns the specified result |
| Bundling.MakeBundle | src/generate.rs:396-469 | starts exactly the build phase's commands; the build phase's result and archive are as `Building.BuildPhase` states; its error is the result; otherwise the archive holds what the build phase wrote followed by the scripts, metadata and patch, their first failure is the result, and a success is the archive's name |
| Bundling.Prelude | src/generate.rs:471-492 | no working directory gives `EnvIO`; a specification that cannot be canonicalised gives `IO`; one with no parent gives `NoParent` |
| Bundling.PreludePlan | src/generate.rs:471-492 | a plan exists exactly when every check passes, including `check` on the loaded specification; files are looked for in the working directory, then the specification's directory; the stem is that of the file name and holds no `/`; a rejected specification gives the error from `check` |
| Bundling.Generate | src/generate.rs:471-495 | a failed check before building stops `generate` with its error and starts no command; once the checks pass, the specification passed `check` and the result, the commands started and the archive are those of `make_bundle` with the plan the checks give |
| BundleRead.OptionToVec | src/bin/bundle-read.rs:40-47 | a value becomes a one-item list, and no value gives nothing |
| BundleRead.FlagToVec | src/bin/bundle-read.rs:49-53 | a set flag is `["true"]`, and an unset one gives nothing |
| BundleRead.TagsToVec | src/bin/bundle-read.rs:73-79 | the tags are given exactly when there is at least one |
| BundleRead.BundleToMapShows | src/bin/bundle-read.rs:55-88 | the name and type are always shown; each optional field is shown with its value exactly when set; flags as `true` exactly when set; tags exactly when nonempty |
| BundleRead.BundleToMapDomain | src/bin/bundle-read.rs:55-88 | the map holds only the twelve field names, and no field with an empty value list |
| BundleRead.PresentShows | src/bin/bundle-read.rs:82-87 | with distinct names, the filtered map shows every field with its value, or omits it when it has none, and holds nothing else |
| BundleRead.SortedKeysOrder | src/bin/bundle-read.rs:99 | the field names in the order a `BTreeMap` iterates them are strictly ascending and are the same set of names |
| LdCache.ClosedTakesAlias | src/ldcache.rs:142-147 | in a closed result, a needed name the target lacks, that no input has and that has an alias, has that alias bundled, because aliases are consulted before the build cache |
| BundleRead.ListingHeaders | src/bin/bundle-read.rs:98-104 | a header line appears exactly for the names present in the map |
| BundleRead.AllShowsPresentFields | src/bin/bundle-read.rs:98-104 | `--all` succeeds and prints a header for a field exactly when it has a value, and that header is followed directly by the field's values, one indented line each |
| BundleRead.ListingBlock | src/bin/bundle-read.rs:98-104 | in a listing, each present field's header is directly followed by its indented values |
| BundleRead.FieldQuery | src/bin/bundle-read.rs:105-112 | `--field` succeeds exactly when the field has a value, prints its values one per line, and exits with 1 for a field that does not exist |
| BundleRead.NoQuery | src/bin/bundle-read.rs:90-116 | without a flag nothing is printed and the tool succeeds; an unreadable bundle fails |
| BundleDeploy.AccumulateValue | src/bin/bundle-deploy.rs:16-26 | the digit loop of `u32::from_str` accepts exactly the digit strings whose number fits in 32 bits, gives that number, and otherwise reports `PosOverflow` |
| BundleDeploy.ParseVersionAccepts | src/bin/bundle-deploy.rs:16-26 | exactly the digit strings, optionally after a `+`, whose number is between 1 and 2^32 - 1 are accepted, as that number |
| BundleDeploy.ParseVersionRejects | src/bin/bundle-deploy.rs:16-26 | zero is refused however it is written, and anything beyond 32 bits overflows |
| BundleDeploy.NonDigitRejected | src/bin/bundle-deploy.rs:16-26 | a non-digit character is refused |
| BundleDeploy.VersionRoundTrip | src/bin/bundle-deploy.rs:107 | every store version's decimal text, with or without a leading `+`, parses back to the version |
| BundleDeploy.NatToStringValue | src/bin/bundle-deploy.rs:107 | the decimal text of a number denotes that number |
| BundleDeploy.SizeArchive | src/bin/bundle-deploy.rs:84-91 | succeeds exactly when every entry header reads, with the sum of their sizes; otherwise names the first header that does not |
| BundleDeploy.SizeAddsUp | src/bin/bundle-deploy.rs:84-91 | the size of two archives' entries together is the sum of their sizes |
| BundleDeploy.NewPath | src/bin/bundle-deploy.rs:109 | the copy's name starts with the store ID and `_`, and ends with `.zip` |
| BundleDeploy.KeptEntries | src/bin/bundle-deploy.rs:115-129 | no entry whose name ends in `bundle.ini` is copied; every other entry is copied under its own name, with its time and compression, and with mode 0o644 when it has none |
| BundleDeploy.CopiesStop | src/bin/bundle-deploy.rs:115-129 | an entry whose header cannot be read stops the loop, even one named `bundle.ini`; so does a copied entry whose data cannot be read, after its entry is started |
| BundleDeploy.MetadataDataNotRead | src/bin/bundle-deploy.rs:116-119 | an entry named `bundle.ini` whose header reads is skipped without its data being read, and nothing is written for it |
| BundleDeploy.ReplaceVersion | src/bin/bundle-deploy.rs:93-139 | the copy and the result are the ones specified: the new metadata first, then the copies |
| BundleDeploy.ReplacePlan | src/bin/bundle-deploy.rs:93-139 | succeeds exactly when the bundle reads, has a store ID, its copy can be created and every entry reads; the copy's metadata differs only in its version, which parses back as the store version; it holds every other entry; the display version is the original's, else the store version; no store ID gives `NoStoreId` |
| BundleDeploy.UploadOfCopy | src/bin/bundle-deploy.rs:155-201 | for a copy `replace_version` wrote, the form always fills in: the version field parses as the store version, the bundle ID is the store ID, and a missing note is "Automated release." |
| BundleRun.DataDirIds | src/bin/bundle-run.rs:38-52 | the store ID wins over the homebrew ID; a homebrew ID is prefixed `homebrew-`; neither ID is an error; a relative ID's directory is `/home/games/bundle-data/<id>` |
| BundleRun.AbsoluteIdEscapes | src/bin/bundle-run.rs:41-45 | an absolute store ID is itself the data directory, outside `/home/games/bundle-data` |
| BundleRun.HomeDirPath | src/bin/bundle-run.rs:76-82 | fails exactly without a home; otherwise gives `<home>/bundle-home/<id>` for a relative ID |
| BundleRun.XdgDirsSet | src/bin/bundle-run.rs:22-36 | the runtime directory is set to `<home>/.runtime` exactly when HOME is set on the command; no other variable changes; adding it twice is adding it once |
| BundleRun.Command.AddXdgDirs | src/bin/bundle-run.rs:22-36 | the command's environment becomes the one specified, and its directory is unchanged |
| BundleRun.ExecCommand | src/bin/bundle-run.rs:127-131 | the command runs the bundle's program in the data directory with the bundle's home |
| BundleRun.ExecEnvironment | src/bin/bundle-run.rs:127-131 | the variables set on the command are exactly HOME and XDG_RUNTIME_DIR, the runtime directory under that home; the rest of the environment is inherited and not modelled |
| BundleRun.RunBundleCommands | src/bin/bundle-run.rs:116-135 | a successful run starts the runner patch exactly when the unpacked bundle has one, then the program exactly when `bundle.ini` names one, both in the data directory |
| BundleRun.RunBundleStops | src/bin/bundle-run.rs:54-74 | nothing runs before the bundle is unpacked; a bundle without an ID, or one that does not unpack, starts nothing; a patch that does not start stops everything after it |

## Left out

- Logging (`trace!`, `warn!`, `debug!`), the text printed by `bundle-deploy`, and the contents of the build log are not modelled. Only whether the log could be written matters.
- The zip writer's own failures are not modelled: `add_directory`, `start_file` and `BundleConfig::to_archive` never fail (`Zip` and `Bundle`), and writing a script's text never fails (`ZipIO`). These `BuildError` cases are never produced.
- The zip format is not modelled. `Zip.ZipWriter` records the entries added: directories, files with their location, scripts with their text, and metadata. Permissions, the `large_file` flag in `insert_files`, compression and `finish` are left out.
- `Paths.Parent` gives no parent for a path ending in `.` or `..`, where `Path::parent` gives the text before that segment. The source never takes the parent of such a path. A `.` segment inside a path stays in its text, where `Path` compares components.
- The file system, `fs::canonicalize`, `Path::exists` and `read_dir` are inputs (`FileItems.Fs`). A directory listing is a finite tree, so symbolic-link loops that `process_dir` could follow are not modelled. `process_dir` does not follow links, and `pathdiff::diff_paths` always succeeds on a listed entry.
- `Archive.InsertFiles` takes the containing directories as a parameter `dirsOf`, which stands for `Path::ancestors`. `Archive.Dirs` models it, and the runner patch uses it.
- ELF parsing (`find_elf_deps`) and `ld.so.cache` loading are inputs (`LdCache.LdEnv`, `Building.LdInputs`).
- `LdCache.ResolveDeps`: the order of the result is not stated, only that each entry is needed by an input or an earlier entry.
- `Building.Resolve`: it states the guarantees of `resolve_deps` and not its exact result, because the proofs about `LdCache.ResolveDeps` are about those guarantees.
- `BundleSpec::load` (YAML parsing) is an input to `generate`. `shell_words::split` is the parameter `split`. Processes and their outcomes are inputs (`Building.Runner.outcome`, `BundleRun.World.starts`).
- `Bundling.BundleMetadata`: the `atari_bundle` builder is not part of this model. Its defaults are assumed: a missing flag is false and no encrypted image is set.
- `bundle-read`: opening the bundle and reading its metadata is an input, where `None` means it failed. The `to_string` of a bundle type is `BundleIni.TypeName`.
- `bundle-deploy`: the HTTP upload, environment variables, file metadata, the current date and its formatting are left out. The release date and sizes are parameters of `BundleDeploy.UploadForm`.
- `BundleDeploy.SizeArchive`: sizes are unbounded, so a `u64` overflow of the sum is not modelled.
- `bundle-run`: switching user, extracting the archive and starting processes are inputs (`BundleRun.World`). The text written to standard output is left out.

## Behaviour worth knowing

These follow from the code as written.

- The final launcher-tags test in `check_store_bundle` can never fail, because earlier tests already cover it (`Config.StoreRulesBeforeTrailing`). `make_bundle` is stricter than `check`. It refuses homebrew bundles that list launcher tags, even none, or set the background flag, even to false. It also refuses store bundles with an empty tag list and no launcher command (`Bundling.CheckedHomebrew`, `Bundling.CheckedStore`).
- `make_launcher_sh` wraps each argument in single quotes without escaping. An argument holding a single quote reaches the program changed, or breaks the script (`Bundling.QuoteInsideBreaks`).
- In `bundle-run`, an absolute store ID replaces the data root instead of being placed under it (`BundleRun.AbsoluteIdEscapes`). `run_command` there ignores the program's exit status.
- `bundle-deploy` drops every entry whose name ends in `bundle.ini`, so `foobundle.ini` is dropped too. An entry whose header cannot be read stops the copy even when it would have been dropped. The data of a dropped entry is never read. A copied entry whose data cannot be read is left started in the copy when the loop stops.
- An extra ELF file is not written to the archive itself. An alias of it found by `find_additional_versions` can still reach the archive among the resolved libraries.
- The help text of `--all` says fields with several values are printed comma separated, but the code prints one indented line per value. The model follows the code.
