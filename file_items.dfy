/** The errors of bundle generation (`BuildError` in `src/generate.rs`). */
module BuildErrors {
  import opened LdCache
  import opened Config

  datatype BuildError =
    | Find(target: string)
    | IO(path: string)
    | ZipIO(entry: string)
    | EnvIO
    | Zip
    | ExpectedFile(path: string)
    | NoParent(path: string)
    | Ld(ld: LdError)
    | Bundle
    | BundleSpecError(spec: SpecError)
    | Build
    | BundleOriginUnknown
    | Utf8(program: string)
    | InvalidField(field: string)
    | MissingField(field: string)
    | BadCommand(command: string)
    | DuplicateZipFileEntry(name: string)
}

/** Finding the files a specification lists and naming them in the bundle:
    `PathContext::find_path`, `process_dir` and `process_file_items` of
    `src/generate.rs`.

    The file system is an input. `Node` is what `metadata` reports for a
    path, and for a directory what `read_dir` lists, recursively. */
module FileItems {
  import opened Wrappers
  import opened Strings
  import opened Paths
  import opened Lib
  import opened BuildErrors

  /** One item of a directory listing: the iterator's error; a name whose
      `DirEntry::metadata` fails; or a name with what that metadata gives
      (it does not follow symbolic links). */
  datatype DirEntry = Unlisted | Unreadable(name: string) | Listed(name: string, node: Node)

  /** A regular file, a directory with its listing, a directory that
      `read_dir` cannot list, or anything else (a symbolic link, a device,
      ...). */
  datatype Node = RegularFile | Directory(listing: seq<DirEntry>) | Unlistable | Special

  /** `FileType::is_dir` */
  predicate IsDir(node: Node)
  {
    node.Directory? || node.Unlistable?
  }

  /** The answers of the file system that bundle assembly asks for. */
  datatype Fs = Fs(
    present: string -> bool,            // `Path::exists`
    canon: string -> Option<string>,    // `fs::canonicalize`
    stat: string -> Option<Node>,       // `fs::metadata`
    text: string -> Option<string>,     // `fs::read_to_string`
    readable: string -> bool,           // metadata, open and copy of a file all succeed
    creatable: string -> bool)          // `File::create` succeeds

  // =====================================================================
  // find_path
  // =====================================================================

  /** The result `find_path` is specified to give. */
  function Located(locations: seq<string>, present: string -> bool, target: string): Result<string, BuildError>
  {
    if |locations| == 0 then Err(Find(target))
    else if present(Join(locations[0], target)) then Ok(Join(locations[0], target))
    else Located(locations[1..], present, target)
  }

  /** `find_path` gives the first location, in list order, below which the
      target exists, or `Find(target)` when there is none. */
  lemma {:induction false} LocatedIsFirst(locations: seq<string>, present: string -> bool, target: string)
    ensures Located(locations, present, target).Ok? ==>
      exists i :: 0 <= i < |locations| && Located(locations, present, target).value == Join(locations[i], target)
        && present(Join(locations[i], target))
        && forall j :: 0 <= j < i ==> !present(Join(locations[j], target))
    ensures Located(locations, present, target).Err? <==>
      forall j :: 0 <= j < |locations| ==> !present(Join(locations[j], target))
    ensures Located(locations, present, target).Err? ==> Located(locations, present, target).error == Find(target)
  {
    if |locations| > 0 && !present(Join(locations[0], target)) {
      LocatedIsFirst(locations[1..], present, target);
      var r := Located(locations, present, target);
      if r.Ok? {
        var i :| 0 <= i < |locations| - 1 && r.value == Join(locations[1..][i], target)
          && present(Join(locations[1..][i], target))
          && forall j :: 0 <= j < i ==> !present(Join(locations[1..][j], target));
        assert forall j :: 0 <= j < i + 1 ==> !present(Join(locations[j], target)) by {
          forall j | 0 <= j < i + 1 ensures !present(Join(locations[j], target)) {
            if j > 0 {
              assert locations[j] == locations[1..][j - 1];
            }
          }
        }
      } else {
        forall j | 0 <= j < |locations| ensures !present(Join(locations[j], target)) {
          if j > 0 {
            assert locations[j] == locations[1..][j - 1];
          }
        }
      }
    }
  }

  /** `PathContext`: where to look for the files a specification names. */
  datatype PathContext = PathContext(locations: seq<string>)
  {
    /** `find_path` */
    method FindPath(present: string -> bool, target: string) returns (r: Result<string, BuildError>)
      ensures r == Located(locations, present, target)
    {
      for i := 0 to |locations|
        invariant Located(locations, present, target) == Located(locations[i..], present, target)
      {
        assert locations[i..][1..] == locations[i + 1..];
        var p := Join(locations[i], target);
        if present(p) {
          return Ok(p);
        }
      }
      return Err(Find(target));
    }
  }

  // =====================================================================
  // process_dir
  // =====================================================================

  /** `prefix` followed by the entries of `r`, or the error of `r`. */
  function Prepend(prefix: seq<FileEntry>, r: Result<seq<FileEntry>, BuildError>): Result<seq<FileEntry>, BuildError>
  {
    match r
    case Ok(v) => Ok(prefix + v)
    case Err(e) => Err(e)
  }

  lemma PrependTwice(a: seq<FileEntry>, b: seq<FileEntry>, r: Result<seq<FileEntry>, BuildError>)
    ensures Prepend(a, Prepend(b, r)) == Prepend(a + b, r)
  {
    if r.Ok? {
      assert a + (b + r.value) == a + b + r.value;
    }
  }

  /** The entries `process_dir` pushes for the listed directory `node` at
      `path`, named below `name`: the first `n` items of its listing, in
      listing order, each sub-directory expanded in place; or the first
      error. */
  function ListingFiles(node: Node, n: nat, path: string, name: string): Result<seq<FileEntry>, BuildError>
    requires node.Directory? && n <= |node.listing|
    decreases node, 0, n
  {
    if n == 0 then Ok([])
    else
      match ListingFiles(node, n - 1, path, name)
      case Err(e) => Err(e)
      case Ok(before) =>
        assert node.listing[n - 1] in node.listing;
        match node.listing[n - 1]
        case Unlisted => Ok(before)
        case Unreadable(child) => Err(IO(Join(path, child)))
        case Listed(child, sub) =>
          if sub == RegularFile then Ok(before + [FileEntry(Join(path, child), Join(name, child))])
          else if IsDir(sub) then
            match DirFiles(sub, Join(path, child), Join(name, child))
            case Err(e) => Err(e)
            case Ok(inner) => Ok(before + inner)
          else Ok(before)
  }

  /** The entries `process_dir` pushes for a directory, or its error. */
  function DirFiles(node: Node, path: string, name: string): Result<seq<FileEntry>, BuildError>
    requires IsDir(node)
    decreases node, 1
  {
    if node.Unlistable? then Err(IO(path))
    else ListingFiles(node, |node.listing|, path, name)
  }

  /** Once a listing item fails, the walk of the rest of the listing
      reports that same error. */
  lemma {:induction false} ListingErrSticks(node: Node, m: nat, n: nat, path: string, name: string)
    requires node.Directory? && m <= n <= |node.listing|
    requires ListingFiles(node, m, path, name).Err?
    ensures ListingFiles(node, n, path, name) == ListingFiles(node, m, path, name)
    decreases n
  {
    if m < n {
      ListingErrSticks(node, m, n - 1, path, name);
    }
  }

  /** `base.join(s0).join(s1)...`: the path of a relative path `segs` below `base`. */
  function JoinAll(base: string, segs: seq<string>): string
    decreases |segs|
  {
    if |segs| == 0 then base else JoinAll(Join(base, segs[0]), segs[1..])
  }

  /** There is a regular file at the relative path `segs` below `node`,
      reached through listed directories. */
  ghost predicate FileAt(node: Node, segs: seq<string>)
    decreases node
  {
    if |segs| == 0 then node == RegularFile
    else
      node.Directory?
      && exists i :: (0 <= i < |node.listing| && node.listing[i].Listed?
                      && node.listing[i].name == segs[0]
                      && FileAt(node.listing[i].node, segs[1..]))
  }

  /** What `process_dir` produces: only regular files, each named in the
      bundle by the same relative path below `name` as it has on disk below
      `path`. */
  ghost predicate Mirrors(node: Node, path: string, name: string, e: FileEntry)
  {
    exists segs :: |segs| > 0 && FileAt(node, segs)
      && e.location == JoinAll(path, segs) && e.name == JoinAll(name, segs)
  }

  lemma {:induction false} ListingFilesMirror(node: Node, n: nat, path: string, name: string)
    requires node.Directory? && n <= |node.listing|
    requires ListingFiles(node, n, path, name).Ok?
    ensures forall e :: e in ListingFiles(node, n, path, name).value ==> Mirrors(node, path, name, e)
    decreases node, 0, n
  {
    if n > 0 {
      ListingFilesMirror(node, n - 1, path, name);
      var before := ListingFiles(node, n - 1, path, name).value;
      var all := ListingFiles(node, n, path, name).value;
      var added := ListingItemFiles(node, n - 1, path, name);
      assert all == before + added;
      ListingItemMirror(node, n - 1, path, name);
      forall e | e in all ensures Mirrors(node, path, name, e) {
        if e !in before {
          assert e in added;
        }
      }
    }
  }

  /** The entries the listed item `i` adds when the walk reaches it without error. */
  function ListingItemFiles(node: Node, i: nat, path: string, name: string): seq<FileEntry>
    requires node.Directory? && i < |node.listing|
    requires ListingFiles(node, i + 1, path, name).Ok?
  {
    var item := node.listing[i];
    assert item in node.listing;
    if item.Listed? && item.node == RegularFile then [FileEntry(Join(path, item.name), Join(name, item.name))]
    else if item.Listed? && IsDir(item.node) then DirFiles(item.node, Join(path, item.name), Join(name, item.name)).value
    else []
  }

  lemma ListingItemMirror(node: Node, i: nat, path: string, name: string)
    requires node.Directory? && i < |node.listing|
    requires ListingFiles(node, i + 1, path, name).Ok?
    ensures forall e :: e in ListingItemFiles(node, i, path, name) ==> Mirrors(node, path, name, e)
    decreases node, 0, i
  {
    var item := node.listing[i];
    assert item in node.listing;
    if item.Listed? && item.node == RegularFile {
      ListingFileMirror(node, i, path, name);
    } else if item.Listed? && IsDir(item.node) {
      var inner := DirFiles(item.node, Join(path, item.name), Join(name, item.name)).value;
      DirFilesMirror(item.node, Join(path, item.name), Join(name, item.name));
      forall e | e in inner ensures Mirrors(node, path, name, e) {
        ListingSubdirMirror(node, i, path, name, e);
      }
    }
  }

  /** A regular file listed directly in `node` is mirrored by its entry. */
  lemma ListingFileMirror(node: Node, i: nat, path: string, name: string)
    requires node.Directory? && i < |node.listing|
    requires node.listing[i].Listed? && node.listing[i].node == RegularFile
    ensures Mirrors(node, path, name, FileEntry(Join(path, node.listing[i].name), Join(name, node.listing[i].name)))
  {
    var segs := [node.listing[i].name];
    assert FileAt(node.listing[i].node, segs[1..]);
    assert node.listing[i].name == segs[0];
    assert FileAt(node, segs);
    assert JoinAll(path, segs) == Join(path, segs[0]);
    assert JoinAll(name, segs) == Join(name, segs[0]);
  }

  /** An entry mirroring the listed sub-directory `node.listing[i]` mirrors `node`. */
  lemma ListingSubdirMirror(node: Node, i: nat, path: string, name: string, e: FileEntry)
    requires node.Directory? && i < |node.listing| && node.listing[i].Listed?
    requires Mirrors(node.listing[i].node, Join(path, node.listing[i].name), Join(name, node.listing[i].name), e)
    ensures Mirrors(node, path, name, e)
  {
    var child := node.listing[i].name;
    var segs :| |segs| > 0 && FileAt(node.listing[i].node, segs)
      && e.location == JoinAll(Join(path, child), segs) && e.name == JoinAll(Join(name, child), segs);
    var full := [child] + segs;
    assert full[0] == child && full[1..] == segs;
    assert node.listing[i].Listed? && node.listing[i].name == full[0] && FileAt(node.listing[i].node, full[1..]);
    assert FileAt(node, full);
    assert JoinAll(path, full) == e.location && JoinAll(name, full) == e.name;
  }

  /** Every entry of a directory's walk is one of its regular files, with
      its relative path kept in the bundle name. */
  lemma DirFilesMirror(node: Node, path: string, name: string)
    requires IsDir(node) && DirFiles(node, path, name).Ok?
    ensures forall e :: e in DirFiles(node, path, name).value ==> Mirrors(node, path, name, e)
    decreases node, 1
  {
    ListingFilesMirror(node, |node.listing|, path, name);
  }

  /** Conversely, when the walk succeeds, every regular file reachable
      through the first `n` listed items is in it. */
  lemma {:induction false} ListingFilesComplete(node: Node, n: nat, path: string, name: string, segs: seq<string>, i: nat)
    requires node.Directory? && i < n <= |node.listing|
    requires ListingFiles(node, n, path, name).Ok?
    requires |segs| > 0 && node.listing[i].Listed? && node.listing[i].name == segs[0]
    requires FileAt(node.listing[i].node, segs[1..])
    ensures FileEntry(JoinAll(path, segs), JoinAll(name, segs)) in ListingFiles(node, n, path, name).value
    decreases node, 0, n
  {
    ListingFilesStep(node, n, path, name);
    var before := ListingFiles(node, n - 1, path, name).value;
    var added := ListingItemFiles(node, n - 1, path, name);
    var e := FileEntry(JoinAll(path, segs), JoinAll(name, segs));
    if i < n - 1 {
      ListingFilesComplete(node, n - 1, path, name, segs, i);
      InLeft(e, before, added);
    } else {
      ItemEntryIn(node, i, path, name, segs);
      InRight(e, before, added);
    }
  }

  lemma InLeft(e: FileEntry, a: seq<FileEntry>, b: seq<FileEntry>)
    requires e in a
    ensures e in a + b
  {
  }

  lemma InRight(e: FileEntry, a: seq<FileEntry>, b: seq<FileEntry>)
    requires e in b
    ensures e in a + b
  {
  }

  /** The file at `segs` below the listed item `i` is among the entries that
      item adds. */
  lemma {:induction false} ItemEntryIn(node: Node, i: nat, path: string, name: string, segs: seq<string>)
    requires node.Directory? && i < |node.listing|
    requires ListingFiles(node, i + 1, path, name).Ok?
    requires |segs| > 0 && node.listing[i].Listed? && node.listing[i].name == segs[0]
    requires FileAt(node.listing[i].node, segs[1..])
    ensures FileEntry(JoinAll(path, segs), JoinAll(name, segs)) in ListingItemFiles(node, i, path, name)
    decreases node, 0, i
  {
    var item := node.listing[i];
    assert item in node.listing;
    assert JoinAll(path, segs) == JoinAll(Join(path, item.name), segs[1..]);
    assert JoinAll(name, segs) == JoinAll(Join(name, item.name), segs[1..]);
    if |segs| == 1 {
      assert segs[1..] == [];
      assert item.node == RegularFile;
    } else {
      DirFilesComplete(item.node, Join(path, item.name), Join(name, item.name), segs[1..]);
    }
  }

  /** A walk that reaches item `n - 1` without error adds that item's entries. */
  lemma ListingFilesStep(node: Node, n: nat, path: string, name: string)
    requires node.Directory? && 0 < n <= |node.listing|
    requires ListingFiles(node, n, path, name).Ok?
    ensures ListingFiles(node, n - 1, path, name).Ok?
    ensures ListingFiles(node, n, path, name).value
         == ListingFiles(node, n - 1, path, name).value + ListingItemFiles(node, n - 1, path, name)
  {
    assert node.listing[n - 1] in node.listing;
  }

  /** When a directory's walk succeeds, every regular file reachable below
      it through listed directories is in the walk. */
  lemma DirFilesComplete(node: Node, path: string, name: string, segs: seq<string>)
    requires IsDir(node) && DirFiles(node, path, name).Ok?
    requires |segs| > 0 && FileAt(node, segs)
    ensures FileEntry(JoinAll(path, segs), JoinAll(name, segs)) in DirFiles(node, path, name).value
    decreases node, 1
  {
    var i :| 0 <= i < |node.listing| && node.listing[i].Listed?
      && node.listing[i].name == segs[0] && FileAt(node.listing[i].node, segs[1..]);
    ListingFilesComplete(node, |node.listing|, path, name, segs, i);
  }

  /** `process_dir`: pushes onto `files` every regular file below the
      directory `node` (found at `path`), named below `name`. */
  method ProcessDir(node: Node, path: string, name: string, files: seq<FileEntry>)
    returns (r: Result<seq<FileEntry>, BuildError>)
    requires IsDir(node)
    ensures r == Prepend(files, DirFiles(node, path, name))
    decreases node, 1
  {
    if node.Unlistable? {
      return Err(IO(path));
    }
    var items := node.listing;
    var acc := files;
    for i := 0 to |items|
      invariant ListingFiles(node, i, path, name).Ok?
      invariant acc == files + ListingFiles(node, i, path, name).value
    {
      assert items[i] in items;
      match items[i] {
        case Unlisted =>
        case Unreadable(child) =>
          ListingErrSticks(node, i + 1, |items|, path, name);
          return Err(IO(Join(path, child)));
        case Listed(child, kind) =>
          if kind == RegularFile {
            acc := acc + [FileEntry(Join(path, child), Join(name, child))];
          } else if IsDir(kind) {
            var sub := ProcessDir(kind, Join(path, child), Join(name, child), acc);
            if sub.Err? {
              ListingErrSticks(node, i + 1, |items|, path, name);
              return Err(sub.error);
            }
            acc := sub.value;
          }
      }
    }
    return Ok(acc);
  }

  // =====================================================================
  // process_file_items
  // =====================================================================

  /** Where the entries of a directory item go: below `base/<file name>`,
      or directly below `base` when the item is written with a trailing `/`. */
  function DirItemRoot(item: string, base: string, file: string): string
  {
    if !EndsWith(item, "/") then Join(base, file) else base
  }

  /** The entries one item contributes, or its error: it is looked up,
      canonicalised and inspected (following links), and only then is its
      file name checked. */
  function ItemFiles(item: string, base: string, pc: PathContext, fs: Fs): Result<seq<FileEntry>, BuildError>
  {
    match Located(pc.locations, fs.present, item)
    case Err(e) => Err(e)
    case Ok(found) =>
      match fs.canon(found)
      case None => Err(IO(item))
      case Some(path) =>
        match fs.stat(path)
        case None => Err(IO(path))
        case Some(meta) =>
          match FileName(item)
          case None => Ok([])
          case Some(file) =>
            if meta == RegularFile then Ok([FileEntry(path, Join(base, file))])
            else if IsDir(meta) then DirFiles(meta, path, DirItemRoot(item, base, file))
            else Ok([])
  }

  /** The entries of the first `n` items, or the first error. */
  function ItemsFiles(items: seq<string>, n: nat, base: string, pc: PathContext, fs: Fs): Result<seq<FileEntry>, BuildError>
    requires n <= |items|
  {
    if n == 0 then Ok([])
    else
      match ItemsFiles(items, n - 1, base, pc, fs)
      case Err(e) => Err(e)
      case Ok(before) => Prepend(before, ItemFiles(items[n - 1], base, pc, fs))
  }

  /** Processing stops at the first item that fails, with its error. */
  lemma {:induction false} ItemsErrSticks(items: seq<string>, m: nat, n: nat, base: string, pc: PathContext, fs: Fs)
    requires m <= n <= |items|
    requires ItemsFiles(items, m, base, pc, fs).Err?
    ensures ItemsFiles(items, n, base, pc, fs) == ItemsFiles(items, m, base, pc, fs)
    decreases n
  {
    if m < n {
      ItemsErrSticks(items, m, n - 1, base, pc, fs);
    }
  }

  /** The body of `process_file_items`' loop: one item. */
  method ProcessItem(item: string, base: string, pc: PathContext, fs: Fs, entries: seq<FileEntry>)
    returns (r: Result<seq<FileEntry>, BuildError>)
    ensures r == Prepend(entries, ItemFiles(item, base, pc, fs))
  {
    var found := pc.FindPath(fs.present, item);
    if found.Err? {
      return Err(found.error);
    }
    var path := fs.canon(found.value);
    if path.None? {
      return Err(IO(item));
    }
    var meta := fs.stat(path.value);
    if meta.None? {
      return Err(IO(path.value));
    }
    var file := FileName(item);
    if file.None? {
      assert entries + [] == entries;
      return Ok(entries);
    }
    if meta.value == RegularFile {
      return Ok(entries + [FileEntry(path.value, Join(base, file.value))]);
    } else if IsDir(meta.value) {
      r := ProcessDir(meta.value, path.value, DirItemRoot(item, base, file.value), entries);
    } else {
      assert entries + [] == entries;
      return Ok(entries);
    }
  }

  /** Pushing the files of item `i` after those of the items before it. */
  lemma ItemsNext(items: seq<string>, i: nat, base: string, pc: PathContext, fs: Fs, entries: seq<FileEntry>,
                  acc: seq<FileEntry>)
    requires i < |items| && Prepend(entries, ItemsFiles(items, i, base, pc, fs)) == Ok(acc)
    ensures Prepend(acc, ItemFiles(items[i], base, pc, fs)) == Prepend(entries, ItemsFiles(items, i + 1, base, pc, fs))
  {
    PrependTwice(entries, ItemsFiles(items, i, base, pc, fs).value, ItemFiles(items[i], base, pc, fs));
  }

  /** `process_file_items`: pushes onto `entries` the files of every item,
      in order, stopping at the first error. */
  method ProcessFileItems(items: seq<string>, base: string, pc: PathContext, fs: Fs, entries: seq<FileEntry>)
    returns (r: Result<seq<FileEntry>, BuildError>)
    ensures r == Prepend(entries, ItemsFiles(items, |items|, base, pc, fs))
  {
    var acc := entries;
    assert entries + [] == entries;
    for i := 0 to |items|
      invariant Prepend(entries, ItemsFiles(items, i, base, pc, fs)) == Ok(acc)
    {
      var step := ProcessItem(items[i], base, pc, fs, acc);
      ItemsNext(items, i, base, pc, fs, entries, acc);
      if step.Err? {
        ItemsErrSticks(items, i + 1, |items|, base, pc, fs);
        return step;
      }
      acc := step.value;
    }
    return Ok(acc);
  }

  /** The naming rule for one found item: a file becomes `base/<file name>`;
      the files of a directory are named by their path below it, placed
      below `base/<file name>`, or directly below `base` when the item ends
      with `/`, and all of them are there; an item without a file name, or
      that is neither a file nor a directory, contributes nothing. */
  lemma ItemNaming(item: string, base: string, pc: PathContext, fs: Fs, path: string, meta: Node)
    requires Located(pc.locations, fs.present, item).Ok?
    requires fs.canon(Located(pc.locations, fs.present, item).value) == Some(path)
    requires fs.stat(path) == Some(meta)
    requires ItemFiles(item, base, pc, fs).Ok?
    ensures FileName(item).None? ==> ItemFiles(item, base, pc, fs).value == []
    ensures FileName(item).Some? && meta == RegularFile ==>
      ItemFiles(item, base, pc, fs).value == [FileEntry(path, Join(base, FileName(item).value))]
    ensures FileName(item).Some? && IsDir(meta) ==>
      forall e :: e in ItemFiles(item, base, pc, fs).value <==>
        Mirrors(meta, path, DirItemRoot(item, base, FileName(item).value), e)
    ensures meta != RegularFile && !IsDir(meta) ==> ItemFiles(item, base, pc, fs).value == []
  {
    if FileName(item).Some? && IsDir(meta) {
      var root := DirItemRoot(item, base, FileName(item).value);
      DirFilesMirror(meta, path, root);
      forall e | Mirrors(meta, path, root, e) ensures e in DirFiles(meta, path, root).value {
        var segs :| |segs| > 0 && FileAt(meta, segs)
          && e.location == JoinAll(path, segs) && e.name == JoinAll(root, segs);
        DirFilesComplete(meta, path, root, segs);
      }
    }
  }

  /** A directory item written with a trailing `.` segment is named after
      the directory, as `Path::file_name` drops that segment: `assets/.`
      goes below `res/assets`, while `assets/./` ends with `/` and goes
      directly below `res`. */
  lemma DotItemNaming()
    ensures FileName("assets/.") == Some("assets")
    ensures DirItemRoot("assets/.", "res", "assets") == "res/assets"
    ensures FileName("assets/./") == Some("assets")
    ensures DirItemRoot("assets/./", "res", "assets") == "res"
  {
    assert "assets/./"[..8] == "assets/.";
    assert "assets/."[..7] == "assets/";
    assert "assets/"[..6] == "assets";
    assert StripTrailing("assets/./") == StripTrailing("assets/.") == "assets";
    assert LastSlash("assets") == None;
  }
}
