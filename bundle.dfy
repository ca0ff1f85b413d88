/** `make_launcher_sh`, `make_bundle` and `generate` of `src/generate.rs`:
    the scripts written into a bundle, the metadata `make_bundle` derives
    from the specification, and the order in which `generate` checks its
    inputs. */
module Bundling {
  import opened Wrappers
  import opened Strings
  import opened Paths
  import opened Lib
  import opened BundleIni
  import opened Zip
  import opened BuildErrors
  import opened Config
  import FileItems
  import Archive
  import Building
  import LdCache

  // =====================================================================
  // make_launcher_sh
  // =====================================================================

  /** The script up to its command line. */
  const ScriptHeader := "#!/bin/sh\n\nset -x\n\nP=$(dirname \"$(busybox realpath \"$0\")\")\n\nexport LD_LIBRARY_PATH=\"${LD_LIBRARY_PATH}:${P}/lib\"\n\n"

  /** An argument as the script writes it: the word between single quotes,
      with nothing inside escaped. */
  function Quote(w: string): string
  {
    "'" + w + "'"
  }

  /** The program and the (quoted) arguments of a launcher script. */
  datatype Launch = Launch(cmd: string, args: seq<string>)

  /** The command of a launcher script, from what `shell_words::split` gave
      for the startup command (`None` when it could not split it). */
  function LauncherCommand(startup: string, words: Option<seq<string>>): Result<Launch, BuildError>
  {
    match words
    case None => Ok(Launch(startup, []))
    case Some(ws) =>
      if |ws| == 0 then Err(BadCommand(startup))
      else Ok(Launch(ws[0], seq(|ws| - 1, i requires 0 <= i < |ws| - 1 => Quote(ws[i + 1]))))
  }

  /** The text `make_launcher_sh` writes: the header, then a line running
      the command from the bundle's directory with the arguments and then
      the script's own arguments, then an empty line. */
  function LauncherScript(l: Launch): string
  {
    ScriptHeader + "\"${P}/" + l.cmd + "\" " + JoinWith(l.args, ' ') + " \"$@\"\n" + "\n"
  }

  /** What ends up in the script entry: the script, or nothing when the
      startup command has no words (the entry was already started). */
  function LauncherText(startup: string, words: Option<seq<string>>): string
  {
    match LauncherCommand(startup, words)
    case Ok(l) => LauncherScript(l)
    case Err(_) => ""
  }

  // ---- how the shell reads the words back --------------------------------

  function PrefixWith(c: string, r: Option<string>): Option<string>
  {
    match r
    case None => None
    case Some(v) => Some(c + v)
  }

  /** How `sh` reads one word made of plain characters, `\` escapes and
      `'...'` quoted parts: the text it stands for, or `None` when a quote
      is left open. */
  function ReadWord(w: string): Option<string>
    decreases |w|, 0
  {
    if |w| == 0 then Some("")
    else if w[0] == '\'' then ReadQuoted(w[1..])
    else if w[0] == '\\' && |w| > 1 then PrefixWith([w[1]], ReadWord(w[2..]))
    else PrefixWith([w[0]], ReadWord(w[1..]))
  }

  /** The rest of a word after an opening single quote. */
  function ReadQuoted(w: string): Option<string>
    decreases |w|, 0
  {
    if |w| == 0 then None
    else if w[0] == '\'' then ReadWord(w[1..])
    else PrefixWith([w[0]], ReadQuoted(w[1..]))
  }

  lemma {:induction false} ReadQuotedPlain(a: string, b: string)
    requires '\'' !in a
    ensures ReadQuoted(a + b) == PrefixWith(a, ReadQuoted(b))
    decreases |a|
  {
    if |a| == 0 {
      assert a + b == b;
      if ReadQuoted(b).Some? {
        assert a + ReadQuoted(b).value == ReadQuoted(b).value;
      }
    } else {
      assert a[0] in a;
      assert (a + b)[1..] == a[1..] + b;
      ReadQuotedPlain(a[1..], b);
      if ReadQuoted(b).Some? {
        assert [a[0]] + (a[1..] + ReadQuoted(b).value) == a + ReadQuoted(b).value;
      }
    }
  }

  /** A word without a single quote, quoted as the script quotes it, reads
      back as itself. */
  lemma QuotedReadsBack(w: string)
    requires '\'' !in w
    ensures ReadWord(Quote(w)) == Some(w)
  {
    assert Quote(w)[1..] == w + "'";
    ReadQuotedPlain(w, "'");
    assert ReadQuoted("'") == Some("");
    assert w + "" == w;
  }

  /** Reading never gives more characters than it reads; a word ending in a
      quote gives at least one fewer, and so does the rest of a quoted part. */
  lemma {:induction false} ReadWordShorter(y: string)
    ensures ReadWord(y).Some? ==>
      |ReadWord(y).value| + (if |y| > 0 && y[|y| - 1] == '\'' then 1 else 0) <= |y|
    decreases |y|, 1
  {
    if |y| == 0 {
    } else if y[0] == '\'' {
      ReadQuotedShorter(y[1..]);
    } else if y[0] == '\\' && |y| > 1 {
      ReadWordShorter(y[2..]);
    } else {
      ReadWordShorter(y[1..]);
      if |y| > 1 {
        assert y[1..][|y| - 2] == y[|y| - 1];
      }
    }
  }

  lemma {:induction false} ReadQuotedShorter(z: string)
    ensures ReadQuoted(z).Some? ==> |ReadQuoted(z).value| + 1 <= |z|
    decreases |z|, 1
  {
    if |z| > 0 {
      if z[0] == '\'' {
        ReadWordShorter(z[1..]);
      } else {
        ReadQuotedShorter(z[1..]);
      }
    }
  }

  lemma {:induction false} QuotedPartShorter(w: string)
    requires '\'' in w
    ensures ReadQuoted(w + "'").Some? ==> |ReadQuoted(w + "'").value| < |w|
    decreases |w|
  {
    assert (w + "'")[1..] == w[1..] + "'";
    if w[0] == '\'' {
      ReadWordShorter(w[1..] + "'");
      assert (w[1..] + "'")[|w[1..] + "'"| - 1] == '\'';
    } else {
      assert '\'' in w[1..] by {
        var k :| 0 <= k < |w| && w[k] == '\'';
        assert w[1..][k - 1] == w[k];
      }
      QuotedPartShorter(w[1..]);
    }
  }

  /** A word holding a single quote, quoted as the script quotes it, does
      not read back as itself: the script passes a different argument, or
      is broken. */
  lemma QuoteInsideBreaks(w: string)
    requires '\'' in w
    ensures ReadWord(Quote(w)) != Some(w)
  {
    assert Quote(w)[1..] == w + "'";
    QuotedPartShorter(w);
  }

  /** The script runs the first word as the command, and the shell reads
      every other word back as it was, provided none holds a single quote.
      A startup command with no words is `BadCommand`, and one that cannot
      be split becomes the whole command with no arguments. */
  lemma LauncherWords(startup: string, words: Option<seq<string>>)
    ensures words == Some([]) <==> LauncherCommand(startup, words) == Err(BadCommand(startup))
    ensures words.None? ==> LauncherCommand(startup, words) == Ok(Launch(startup, []))
    ensures words.Some? && |words.value| > 0 ==>
      var l := LauncherCommand(startup, words).value;
      && l.cmd == words.value[0] && |l.args| == |words.value| - 1
      && forall i :: 0 <= i < |l.args| && '\'' !in words.value[i + 1] ==> ReadWord(l.args[i]) == Some(words.value[i + 1])
  {
    if words.Some? && |words.value| > 0 {
      var ws := words.value;
      var l := LauncherCommand(startup, words).value;
      forall i | 0 <= i < |l.args| && '\'' !in ws[i + 1]
        ensures ReadWord(l.args[i]) == Some(ws[i + 1])
      {
        QuotedReadsBack(ws[i + 1]);
      }
    }
  }

  /** `make_launcher_sh`: the script entry is started before the command is
      examined, so a command with no words leaves an empty entry behind. */
  method MakeLauncherSh(zf: ZipWriter, name: string, startup: string, split: string -> Option<seq<string>>)
    returns (r: Result<(), BuildError>)
    modifies zf
    ensures zf.entries == old(zf.entries) + [Script(name, LauncherText(startup, split(startup)))]
    ensures r == Building.Unit(LauncherCommand(startup, split(startup)))
  {
    var launch := LauncherCommand(startup, split(startup));
    if launch.Err? {
      zf.AddScript(name, "");
      return Err(launch.error);
    }
    zf.AddScript(name, LauncherScript(launch.value));
    r := Ok(());
  }

  // =====================================================================
  // make_bundle: the metadata
  // =====================================================================

  const RunScriptName := "run.sh"
  const LaunchScriptName := "launch.sh"
  const PatchName := "runner-patch"

  /** `run.sh` is generated for a command that no other program launches. */
  predicate NeedsRunScript(cfg: BundleSpec)
  {
    cfg.exec.Some? && cfg.launcher.None?
  }

  /** The `Exec` of the metadata. */
  function ProgOf(cfg: BundleSpec): (prog: Option<string>)
    ensures cfg.exec.None? ==> prog.None?
    ensures cfg.exec.Some? && cfg.launcher.Some? ==> prog == cfg.exec
    ensures NeedsRunScript(cfg) ==> prog == Some(RunScriptName)
  {
    match cfg.exec
    case None => None
    case Some(e) => if cfg.launcher.Some? then Some(e) else Some(RunScriptName)
  }

  /** The metadata `make_bundle` writes for the version, or the error it
      reports. A homebrew ID is looked at first. Missing flags are false. */
  function BundleMetadata(cfg: BundleSpec, version: string): (r: Result<BundleConfig, BuildError>)
    ensures r.Ok? ==>
      && r.value.name == cfg.name && r.value.bundleType == cfg.bundleType
      && r.value.exec == ProgOf(cfg) && r.value.version == Some(version)
      && r.value.launcher == cfg.launcher && r.value.encryptedImage.None?
      && r.value.preferXboxMode == cfg.preferXboxMode.GetOr(false)
    ensures cfg.homebrewId.Some? && r.Ok? ==>
      r.value.homebrewId == cfg.homebrewId && r.value.storeId.None?
      && !r.value.background && r.value.launcherExec.None? && r.value.launcherTags == []
    ensures cfg.homebrewId.None? && r.Ok? ==>
      r.value.storeId == cfg.storeId && r.value.homebrewId.None?
      && r.value.background == cfg.background.GetOr(false)
      && (cfg.launcherExec.Some? ==> cfg.launcherTags.Some? && r.value.launcherExec == Some(LaunchScriptName)
                                     && r.value.launcherTags == cfg.launcherTags.value)
      && (cfg.launcherExec.None? ==> r.value.launcherExec.None? && r.value.launcherTags == [])
    ensures cfg.homebrewId.None? && cfg.storeId.None? ==> r == Err(BundleOriginUnknown)
  {
    if cfg.homebrewId.Some? then
      if cfg.launcherTags.Some? then Err(InvalidField("LauncherTags"))
      else if cfg.launcherExec.Some? then Err(InvalidField("LauncherExec"))
      else if cfg.background.Some? then Err(InvalidField("Background"))
      else Ok(BundleConfig(cfg.name, cfg.bundleType, None, cfg.homebrewId, ProgOf(cfg), None, Some(version),
                           false, cfg.preferXboxMode.GetOr(false), cfg.launcher, [], None))
    else if cfg.storeId.Some? then
      var plain := BundleConfig(cfg.name, cfg.bundleType, cfg.storeId, None, ProgOf(cfg), None, Some(version),
                                cfg.background.GetOr(false), cfg.preferXboxMode.GetOr(false), cfg.launcher, [], None);
      if cfg.launcherExec.Some? then
        if cfg.launcherTags.Some? then
          Ok(plain.(launcherExec := Some(LaunchScriptName), launcherTags := cfg.launcherTags.value))
        else Err(MissingField("LauncherTags"))
      else if cfg.launcherTags.Some? then Err(MissingField("LauncherExec"))
      else Ok(plain)
    else Err(BundleOriginUnknown)
  }

  /** A homebrew bundle is refused with `InvalidField` when it sets launcher
      tags, a launcher command or the background flag at all, in that
      order, and accepted otherwise. */
  lemma HomebrewFields(cfg: BundleSpec, version: string)
    requires cfg.homebrewId.Some?
    ensures BundleMetadata(cfg, version).Ok? <==>
      cfg.launcherTags.None? && cfg.launcherExec.None? && cfg.background.None?
    ensures cfg.launcherTags.Some? ==> BundleMetadata(cfg, version) == Err(InvalidField("LauncherTags"))
    ensures cfg.launcherTags.None? && cfg.launcherExec.Some? ==>
      BundleMetadata(cfg, version) == Err(InvalidField("LauncherExec"))
    ensures cfg.launcherTags.None? && cfg.launcherExec.None? && cfg.background.Some? ==>
      BundleMetadata(cfg, version) == Err(InvalidField("Background"))
  {
  }

  /** A store bundle needs a launcher command and launcher tags together:
      one without the other is `MissingField` of the other. */
  lemma StoreFields(cfg: BundleSpec, version: string)
    requires cfg.homebrewId.None? && cfg.storeId.Some?
    ensures BundleMetadata(cfg, version).Ok? <==> (cfg.launcherExec.Some? <==> cfg.launcherTags.Some?)
    ensures cfg.launcherExec.Some? && cfg.launcherTags.None? ==>
      BundleMetadata(cfg, version) == Err(MissingField("LauncherTags"))
    ensures cfg.launcherExec.None? && cfg.launcherTags.Some? ==>
      BundleMetadata(cfg, version) == Err(MissingField("LauncherExec"))
  {
  }

  /** After `check` accepted a homebrew specification, `make_bundle` still
      refuses it exactly when it lists launcher tags (even none) or sets the
      background flag (even to false). */
  lemma CheckedHomebrew(cfg: BundleSpec, version: string)
    requires Check(cfg) == Ok(()) && cfg.storeId.None?
    ensures cfg.homebrewId.Some?
    ensures BundleMetadata(cfg, version).Ok? <==> cfg.launcherTags.None? && cfg.background.None?
  {
    HomebrewFields(cfg, version);
  }

  /** After `check` accepted a store specification, `make_bundle` still
      refuses it exactly when it lists an empty set of launcher tags
      without a launcher command. */
  lemma CheckedStore(cfg: BundleSpec, version: string)
    requires Check(cfg) == Ok(()) && cfg.storeId.Some?
    ensures BundleMetadata(cfg, version).Ok? <==> cfg.launcherTags != Some([])
  {
    StoreFields(cfg, version);
  }

  // =====================================================================
  // make_bundle: what is written after the build phase
  // =====================================================================

  /** Entries written to the archive, and how the writing ended. */
  datatype Written = Written(entries: seq<ZipEntry>, result: Result<(), BuildError>)

  const Nothing := Written([], Ok(()))

  /** `a` followed by `b`, unless `a` failed. */
  function AndThen(a: Written, b: Written): Written
  {
    if a.result.Err? then a else Written(a.entries + b.entries, b.result)
  }

  function ScriptWritten(name: string, startup: string, split: string -> Option<seq<string>>): Written
  {
    Written([Script(name, LauncherText(startup, split(startup)))], Building.Unit(LauncherCommand(startup, split(startup))))
  }

  /** `run.sh`, when it is needed. */
  function RunScriptWritten(cfg: BundleSpec, split: string -> Option<seq<string>>): Written
  {
    if NeedsRunScript(cfg) then ScriptWritten(RunScriptName, cfg.exec.value, split) else Nothing
  }

  /** `launch.sh`, when the metadata names it. */
  function LaunchWritten(cfg: BundleSpec, config: BundleConfig, split: string -> Option<seq<string>>): Written
  {
    if config.launcherExec.Some? && cfg.launcherExec.Some? then ScriptWritten(LaunchScriptName, cfg.launcherExec.value, split)
    else Nothing
  }

  /** `launch.sh` when the bundle provides a launcher, then `bundle.ini`. */
  function MetadataWritten(cfg: BundleSpec, version: string, split: string -> Option<seq<string>>): Written
  {
    match BundleMetadata(cfg, version)
    case Err(e) => Written([], Err(e))
    case Ok(config) => AndThen(LaunchWritten(cfg, config, split), Written([Ini(config)], Ok(())))
  }

  /** The runner patch, as `insert_files` writes a single file at the top
      of the archive: no directory entry, and an error for a location that
      cannot be read. */
  function PatchWritten(cfg: BundleSpec, fs: FileItems.Fs): Written
  {
    match cfg.runnerPatch
    case None => Nothing
    case Some(p) =>
      match fs.canon(p)
      case None => Written([], Err(IO(p)))
      case Some(loc) =>
        if fs.stat(loc).None? then Written([], Err(IO(loc)))
        else Written([File(PatchName, loc)], if fs.readable(loc) then Ok(()) else Err(IO(loc)))
  }

  /** Everything `make_bundle` writes after `build_phase`. */
  function FinishSpec(cfg: BundleSpec, version: string, fs: FileItems.Fs, split: string -> Option<seq<string>>): Written
  {
    AndThen(AndThen(RunScriptWritten(cfg, split), MetadataWritten(cfg, version, split)), PatchWritten(cfg, fs))
  }

  /** The pieces of a successful finish, in the order they are written. */
  lemma FinishShape(cfg: BundleSpec, version: string, fs: FileItems.Fs, split: string -> Option<seq<string>>)
    requires FinishSpec(cfg, version, fs, split).result.Ok?
    ensures BundleMetadata(cfg, version).Ok?
    ensures RunScriptWritten(cfg, split).result.Ok? && PatchWritten(cfg, fs).result.Ok?
    ensures FinishSpec(cfg, version, fs, split).entries
         == RunScriptWritten(cfg, split).entries + LaunchWritten(cfg, BundleMetadata(cfg, version).value, split).entries
          + [Ini(BundleMetadata(cfg, version).value)] + PatchWritten(cfg, fs).entries
  {
  }

  /** When `make_bundle` succeeds after the build phase, the metadata it
      derived is written exactly once. */
  lemma MetadataOnce(cfg: BundleSpec, version: string, fs: FileItems.Fs, split: string -> Option<seq<string>>)
    requires FinishSpec(cfg, version, fs, split).result.Ok?
    ensures BundleMetadata(cfg, version).Ok?
    ensures multiset(FinishSpec(cfg, version, fs, split).entries)[Ini(BundleMetadata(cfg, version).value)] == 1
  {
    FinishShape(cfg, version, fs, split);
    var config := BundleMetadata(cfg, version).value;
    var run := RunScriptWritten(cfg, split).entries;
    var launch := LaunchWritten(cfg, config, split).entries;
    var patch := PatchWritten(cfg, fs).entries;
    assert multiset(run)[Ini(config)] == 0 && multiset(launch)[Ini(config)] == 0 && multiset(patch)[Ini(config)] == 0;
    assert multiset(run + launch + [Ini(config)] + patch) == multiset(run) + multiset(launch) + multiset([Ini(config)]) + multiset(patch);
  }

  /** ... `run.sh` comes first exactly when the command needs it ... */
  lemma RunScriptFirst(cfg: BundleSpec, version: string, fs: FileItems.Fs, split: string -> Option<seq<string>>)
    requires FinishSpec(cfg, version, fs, split).result.Ok?
    ensures var w := FinishSpec(cfg, version, fs, split).entries;
      |w| > 0 && (NeedsRunScript(cfg) <==> w[0].Script? && w[0].name == RunScriptName)
  {
    FinishShape(cfg, version, fs, split);
    var config := BundleMetadata(cfg, version).value;
    var run := RunScriptWritten(cfg, split).entries;
    var launch := LaunchWritten(cfg, config, split).entries;
    var w := FinishSpec(cfg, version, fs, split).entries;
    if NeedsRunScript(cfg) {
      assert w[0] == run[0];
    } else if |launch| > 0 {
      assert w[0] == launch[0];
    } else {
      assert w[0] == Ini(config);
    }
  }

  /** ... and the runner patch, when there is one, comes last. */
  lemma PatchLast(cfg: BundleSpec, version: string, fs: FileItems.Fs, split: string -> Option<seq<string>>)
    requires FinishSpec(cfg, version, fs, split).result.Ok?
    ensures var w := FinishSpec(cfg, version, fs, split).entries;
      && |w| > 0
      && (cfg.runnerPatch.Some? <==> w[|w| - 1].File?)
      && (cfg.runnerPatch.Some? ==> w[|w| - 1] == File(PatchName, fs.canon(cfg.runnerPatch.value).value))
  {
    FinishShape(cfg, version, fs, split);
    var config := BundleMetadata(cfg, version).value;
    var patch := PatchWritten(cfg, fs).entries;
    var w := FinishSpec(cfg, version, fs, split).entries;
    if |patch| > 0 {
      assert w[|w| - 1] == patch[0];
    } else {
      assert w[|w| - 1] == Ini(config);
    }
  }

  /** Appending `b`'s entries after `a`'s entries appends `AndThen(a, b)`. */
  lemma AndThenAppends(a: Written, b: Written, start: seq<ZipEntry>, before: seq<ZipEntry>, after: seq<ZipEntry>)
    requires a.result == Ok(())
    requires before == start + a.entries && after == before + b.entries
    ensures after == start + AndThen(a, b).entries && AndThen(a, b).result == b.result
  {
  }

  method WriteRunScript(zf: ZipWriter, cfg: BundleSpec, split: string -> Option<seq<string>>)
    returns (r: Result<(), BuildError>)
    modifies zf
    ensures zf.entries == old(zf.entries) + RunScriptWritten(cfg, split).entries
    ensures r == RunScriptWritten(cfg, split).result
  {
    r := Ok(());
    if NeedsRunScript(cfg) {
      r := MakeLauncherSh(zf, RunScriptName, cfg.exec.value, split);
    }
  }

  /** The origin branches of `make_bundle`. */
  method WriteMetadata(zf: ZipWriter, cfg: BundleSpec, version: string, split: string -> Option<seq<string>>)
    returns (r: Result<(), BuildError>)
    modifies zf
    ensures zf.entries == old(zf.entries) + MetadataWritten(cfg, version, split).entries
    ensures r == MetadataWritten(cfg, version, split).result
  {
    var metadata := BundleMetadata(cfg, version);
    if metadata.Err? {
      return Err(metadata.error);
    }
    var config := metadata.value;
    if config.launcherExec.Some? {
      r := MakeLauncherSh(zf, LaunchScriptName, cfg.launcherExec.value, split);
      if r.Err? {
        return;
      }
    }
    zf.AddIni(config);
    r := Ok(());
  }

  /** A name without a separator lies in no directory of the archive. */
  lemma PatchAtTop()
    ensures Archive.Dirs(PatchName) == [""]
  {
    SegmentParent(PatchName);
    Archive.DirsOfChild(PatchName);
    Archive.DirsOfChild("");
  }

  /** The single runner-patch file, as `insert_files` writes it. */
  lemma PatchInserted(loc: string, fs: FileItems.Fs)
    ensures Archive.Collect([FileEntry(loc, PatchName)], 1) == Ok([FileEntry(loc, PatchName)])
    ensures var e := Archive.Emit([FileEntry(loc, PatchName)], Archive.Dirs, 1, fs);
      && e.0 == (if fs.stat(loc).None? then [] else [File(PatchName, loc)])
      && e.1 == (if fs.stat(loc).None? || !fs.readable(loc) then Err(IO(loc)) else Ok(()))
  {
    var m := [FileEntry(loc, PatchName)];
    assert Archive.Collect(m, 0) == Ok([]);
    assert Archive.Insert([], m[0]) == (m, None);
    PatchAtTop();
    assert Archive.PrevDirs(m, Archive.Dirs, 0) == [];
    assert Archive.DirEntries([], [""], 1) == [];
    Archive.EmitNext(m, Archive.Dirs, 0, fs);
  }

  method WritePatch(zf: ZipWriter, cfg: BundleSpec, fs: FileItems.Fs) returns (r: Result<(), BuildError>)
    modifies zf
    ensures zf.entries == old(zf.entries) + PatchWritten(cfg, fs).entries
    ensures r == PatchWritten(cfg, fs).result
  {
    r := Ok(());
    if cfg.runnerPatch.Some? {
      var p := cfg.runnerPatch.value;
      var loc := fs.canon(p);
      if loc.None? {
        return Err(IO(p));
      }
      PatchInserted(loc.value, fs);
      r := Archive.InsertFiles(zf, [FileEntry(loc.value, PatchName)], fs, Archive.Dirs);
    }
  }

  /** `make_bundle` after `build_phase`. */
  method FinishBundle(zf: ZipWriter, cfg: BundleSpec, version: string, fs: FileItems.Fs, split: string -> Option<seq<string>>)
    returns (r: Result<(), BuildError>)
    modifies zf
    ensures zf.entries == old(zf.entries) + FinishSpec(cfg, version, fs, split).entries
    ensures r == FinishSpec(cfg, version, fs, split).result
  {
    ghost var start := zf.entries;
    ghost var run := RunScriptWritten(cfg, split);
    ghost var metadata := MetadataWritten(cfg, version, split);
    r := WriteRunScript(zf, cfg, split);
    if r.Err? {
      return;
    }
    ghost var before := zf.entries;
    r := WriteMetadata(zf, cfg, version, split);
    AndThenAppends(run, metadata, start, before, zf.entries);
    if r.Err? {
      return;
    }
    before := zf.entries;
    r := WritePatch(zf, cfg, fs);
    AndThenAppends(AndThen(run, metadata), PatchWritten(cfg, fs), start, before, zf.entries);
  }

  /** What `make_bundle` does, given what the build phase gave (`built`),
      wrote (`archived`), gathered (`g`) and resolved (`resolution`): `r`
      is its result and `entries` the whole archive. A build-phase error is
      the result; otherwise the scripts, the metadata and the patch follow
      what the build phase wrote, and the result is the archive's name. */
  ghost predicate MakeBundleSpec(cfg: BundleSpec, stem: string, pc: FileItems.PathContext, fs: FileItems.Fs,
                                 outcome: Building.Command -> Building.Outcome, ld: Building.LdInputs, split: string -> Option<seq<string>>,
                                 r: Result<string, BuildError>, entries: seq<ZipEntry>,
                                 built: Result<(string, string), BuildError>, archived: seq<ZipEntry>,
                                 g: Building.Gathered, resolution: Result<seq<FileEntry>, LdCache.LdError>)
  {
    && Building.PhaseSpec(cfg.build, stem, pc, fs, outcome, ld, built, archived, g, resolution)
    && (built.Err? ==> r == Err(built.error) && entries == archived)
    && (built.Ok? ==>
          var finish := FinishSpec(cfg, built.value.1, fs, split);
          && entries == archived + finish.entries
          && r == (if finish.result.Err? then Err(finish.result.error) else Ok(built.value.0)))
  }

  /** `make_bundle`: the build phase, then the scripts, the metadata and the
      runner patch. `built` is what the build phase gave, `archived` what
      it wrote, `g` what it gathered and `resolution` what dependency
      resolution gave. */
  method MakeBundle(cfg: BundleSpec, stem: string, pc: FileItems.PathContext, fs: FileItems.Fs,
                    runner: Building.Runner, ld: Building.LdInputs, split: string -> Option<seq<string>>)
    returns (r: Result<string, BuildError>, zf: ZipWriter,
             ghost built: Result<(string, string), BuildError>, ghost archived: seq<ZipEntry>,
             ghost g: Building.Gathered, ghost resolution: Result<seq<FileEntry>, LdCache.LdError>)
    modifies runner
    ensures fresh(zf)
    ensures runner.started == old(runner.started) + Building.PhaseStarted(cfg.build, stem, pc, fs, runner.outcome)
    ensures MakeBundleSpec(cfg, stem, pc, fs, runner.outcome, ld, split, r, zf.entries, built, archived, g, resolution)
  {
    var phase: Result<(string, string), BuildError>;
    phase, zf, g, resolution := Building.BuildPhase(cfg.build, stem, pc, fs, runner, ld);
    built := phase;
    archived := zf.entries;
    if phase.Err? {
      return Err(phase.error), zf, built, archived, g, resolution;
    }
    var finished := FinishBundle(zf, cfg, phase.value.1, fs, split);
    if finished.Err? {
      return Err(finished.error), zf, built, archived, g, resolution;
    }
    r := Ok(phase.value.0);
  }

  // =====================================================================
  // generate
  // =====================================================================

  /** What `generate` settles before it builds: where files are looked
      for, the checked specification, and the stem of the names. */
  datatype Plan = Plan(pc: FileItems.PathContext, spec: BundleSpec, stem: string)

  /** The checks of `generate`, in order: the working directory, the
      specification's canonical path and its parent, loading and checking
      the specification, and the specification's file name. */
  function Prelude(arg: string, wd: Option<string>, canon: string -> Option<string>,
                   loaded: Result<BundleSpec, SpecError>): (r: Result<Plan, BuildError>)
    ensures wd.None? ==> r == Err(EnvIO)
    ensures wd.Some? && canon(arg).None? ==> r == Err(IO(arg))
    ensures wd.Some? && canon(arg).Some? && Parent(canon(arg).value).None? ==> r == Err(NoParent(canon(arg).value))
  {
    if wd.None? then Err(EnvIO)
    else if canon(arg).None? then Err(IO(arg))
    else
      var p := canon(arg).value;
      if Parent(p).None? then Err(NoParent(p))
      else if loaded.Err? then Err(BundleSpecError(loaded.error))
      else if Check(loaded.value).Err? then Err(BundleSpecError(Check(loaded.value).error))
      else if FileName(arg).None? then Err(ExpectedFile(arg))
      else Ok(Plan(FileItems.PathContext([wd.value, Parent(p).value]), loaded.value, Building.FileStem(FileName(arg).value)))
  }

  /** A bundle is only built from a specification `check` accepts; files
      are looked for in the working directory first, then in the
      specification's directory; the names use the stem of the
      specification's file name as given. Every failed check before that
      stops `generate` with its own error. */
  lemma PreludePlan(arg: string, wd: Option<string>, canon: string -> Option<string>, loaded: Result<BundleSpec, SpecError>)
    ensures var r := Prelude(arg, wd, canon, loaded);
      r.Ok? <==>
        && wd.Some? && canon(arg).Some? && Parent(canon(arg).value).Some?
        && loaded.Ok? && ValidSpec(loaded.value) && FileName(arg).Some?
    ensures var r := Prelude(arg, wd, canon, loaded);
      r.Ok? ==>
        && r.value.spec == loaded.value
        && r.value.pc.locations == [wd.value, Parent(canon(arg).value).value]
        && r.value.stem == Building.FileStem(FileName(arg).value)
        && '/' !in r.value.stem
    ensures var r := Prelude(arg, wd, canon, loaded);
      wd.Some? && canon(arg).Some? && Parent(canon(arg).value).Some? && loaded.Ok? && !ValidSpec(loaded.value) ==>
        r == Err(BundleSpecError(Check(loaded.value).error))
  {
    if FileName(arg).Some? {
      var name := FileName(arg).value;
      var stem := Building.FileStem(name);
      assert stem == name[..|stem|];
    }
  }

  /** `generate`: the checks, then `make_bundle` with the plan they give.
      It gives the archive's name. `entries` is the archive written, and
      `built`, `archived`, `g` and `resolution` are as in `MakeBundleSpec`. */
  method Generate(arg: string, wd: Option<string>, loaded: Result<BundleSpec, SpecError>, fs: FileItems.Fs,
                  runner: Building.Runner, ld: Building.LdInputs, split: string -> Option<seq<string>>)
    returns (r: Result<string, BuildError>, ghost entries: seq<ZipEntry>,
             ghost built: Result<(string, string), BuildError>, ghost archived: seq<ZipEntry>,
             ghost g: Building.Gathered, ghost resolution: Result<seq<FileEntry>, LdCache.LdError>)
    modifies runner
    ensures Prelude(arg, wd, fs.canon, loaded).Err? ==>
      r == Err(Prelude(arg, wd, fs.canon, loaded).error) && runner.started == old(runner.started)
    ensures Prelude(arg, wd, fs.canon, loaded).Ok? ==>
      var plan := Prelude(arg, wd, fs.canon, loaded).value;
      && ValidSpec(plan.spec)
      && runner.started == old(runner.started) + Building.PhaseStarted(plan.spec.build, plan.stem, plan.pc, fs, runner.outcome)
      && MakeBundleSpec(plan.spec, plan.stem, plan.pc, fs, runner.outcome, ld, split, r, entries, built, archived, g, resolution)
    ensures r.Ok? ==> Prelude(arg, wd, fs.canon, loaded).Ok? && ValidSpec(loaded.value)
  {
    entries, built, archived, g, resolution := [], Err(EnvIO), [], Building.Gathered([], [], [], []), Ok([]);
    var plan := Prelude(arg, wd, fs.canon, loaded);
    if plan.Err? {
      return Err(plan.error), entries, built, archived, g, resolution;
    }
    PreludePlan(arg, wd, fs.canon, loaded);
    var zf: ZipWriter;
    r, zf, built, archived, g, resolution := MakeBundle(plan.value.spec, plan.value.stem, plan.value.pc, fs, runner, ld, split);
    entries := zf.entries;
  }
}
