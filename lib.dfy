/** `src/lib.rs`: the record that every stage of bundle generation passes on. */
module Lib {

  /** An item waiting to be written to a bundle: where it is on disk, and
      the path it gets inside the bundle. */
  datatype FileEntry = FileEntry(location: string, name: string)
}

/** The metadata record of a bundle (`bundle.ini`), as the `atari_bundle`
    crate holds it. The crate itself is not part of this model: only the
    fields the bundle tools read and set are. */
module BundleIni {
  import opened Wrappers

  datatype BundleType = Game | Application | LauncherOnly

  /** The `Display` text of a bundle type. */
  function TypeName(t: BundleType): string
  {
    match t
    case Game => "Game"
    case Application => "Application"
    case LauncherOnly => "LauncherOnly"
  }

  /** The `[Bundle]` section of `bundle.ini`. */
  datatype BundleConfig = BundleConfig(
    name: string,
    bundleType: BundleType,
    storeId: Option<string>,
    homebrewId: Option<string>,
    exec: Option<string>,
    encryptedImage: Option<string>,
    version: Option<string>,
    background: bool,
    preferXboxMode: bool,
    launcher: Option<string>,
    launcherTags: seq<string>,
    launcherExec: Option<string>)
}

/** A zip archive being written, as the sequence of entries in write order. */
module Zip {
  import opened BundleIni

  datatype ZipEntry =
    | Directory(name: string)                 // `add_directory`
    | File(name: string, location: string)    // `start_file`, then the file at `location` copied in
    | Script(name: string, text: string)      // an executable (0o755) text file generated in place
    | Ini(config: BundleConfig)               // `BundleConfig::to_archive`: the `bundle.ini` entry

  /** `zip::ZipWriter`: the entries written so far, in order. Writing the
      bytes themselves, and the writer's own I/O failures, are not modelled. */
  class ZipWriter {
    var entries: seq<ZipEntry>

    constructor ()
      ensures entries == []
    {
      entries := [];
    }

    /** `add_directory` */
    method AddDirectory(name: string)
      modifies this
      ensures entries == old(entries) + [Directory(name)]
    {
      entries := entries + [Directory(name)];
    }

    /** `start_file`, with the contents of the file at `location` copied in after it. */
    method StartFile(name: string, location: string)
      modifies this
      ensures entries == old(entries) + [File(name, location)]
    {
      entries := entries + [File(name, location)];
    }

    /** `start_file` of an executable, with `text` written to it. */
    method AddScript(name: string, text: string)
      modifies this
      ensures entries == old(entries) + [Script(name, text)]
    {
      entries := entries + [Script(name, text)];
    }

    /** `BundleConfig::to_archive` */
    method AddIni(config: BundleConfig)
      modifies this
      ensures entries == old(entries) + [Ini(config)]
    {
      entries := entries + [Ini(config)];
    }
  }
}
