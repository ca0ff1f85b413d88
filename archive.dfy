/** `insert_files` of `src/generate.rs`: the files of a bundle are first
    gathered into a map from bundle name to location (a `BTreeMap`, so a
    name given twice must agree on its location), then written in name
    order, each preceded by those of its directories that the previous
    file did not already have. */
module Archive {
  import opened Wrappers
  import opened Strings
  import opened Paths
  import opened Lib
  import opened Zip
  import opened BuildErrors
  import FileItems

  // =====================================================================
  // The map: a list of entries kept sorted by name
  // =====================================================================

  predicate SortedByName(m: seq<FileEntry>)
  {
    forall i, j :: 0 <= i < j < |m| ==> Less(m[i].name, m[j].name)
  }

  /** The location stored under `name`. */
  function Lookup(m: seq<FileEntry>, name: string): Option<string>
  {
    if |m| == 0 then None
    else if m[0].name == name then Some(m[0].location)
    else Lookup(m[1..], name)
  }

  /** `BTreeMap::insert`: the new map, and the location the name had before. */
  function Insert(m: seq<FileEntry>, e: FileEntry): (seq<FileEntry>, Option<string>)
  {
    if |m| == 0 then ([e], None)
    else if m[0].name == e.name then ([e] + m[1..], Some(m[0].location))
    else if Less(e.name, m[0].name) then ([e] + m, None)
    else
      var (rest, prev) := Insert(m[1..], e);
      ([m[0]] + rest, prev)
  }

  /** In a sorted map, a name is stored with a location exactly when that
      entry is in the map. */
  lemma {:induction false} LookupIn(m: seq<FileEntry>, name: string, location: string)
    requires SortedByName(m)
    ensures Lookup(m, name) == Some(location) <==> FileEntry(location, name) in m
  {
    if |m| > 0 {
      LookupIn(m[1..], name, location);
      if m[0].name == name && FileEntry(location, name) in m[1..] {
        var k :| 0 <= k < |m[1..]| && m[1..][k] == FileEntry(location, name);
        assert Less(m[0].name, m[k + 1].name);
        LessIrreflexive(name);
      }
    }
  }

  /** `Insert` keeps the map sorted, stores the entry, drops any other
      location of its name, and reports the location the name had. */
  lemma {:induction false} InsertSpec(m: seq<FileEntry>, e: FileEntry)
    requires SortedByName(m)
    ensures SortedByName(Insert(m, e).0)
    ensures Insert(m, e).1 == Lookup(m, e.name)
    ensures forall x :: x in Insert(m, e).0 <==> x == e || (x in m && x.name != e.name)
  {
    var r := Insert(m, e).0;
    if |m| == 0 {
    } else if m[0].name == e.name {
      forall x | x in m[1..] ensures x.name != e.name {
        var k :| 0 <= k < |m[1..]| && m[1..][k] == x;
        assert Less(m[0].name, m[k + 1].name);
        LessIrreflexive(x.name);
      }
      LookupIn(m, e.name, m[0].location);
    } else if Less(e.name, m[0].name) {
      forall j | 0 <= j < |m| ensures Less(e.name, m[j].name) {
        if j > 0 {
          LessTransitive(e.name, m[0].name, m[j].name);
        }
      }
      forall x | x in m ensures x.name != e.name {
        LessIrreflexive(e.name);
      }
      LookupNone(m, e.name);
    } else {
      LessTotal(e.name, m[0].name);
      InsertSpec(m[1..], e);
      var rest := Insert(m[1..], e).0;
      assert r == [m[0]] + rest;
      forall j | 0 <= j < |rest| ensures Less(m[0].name, rest[j].name) {
        assert rest[j] in rest;
      }
      forall x ensures x in r <==> x == e || (x in m && x.name != e.name) {
        assert x in r <==> x == m[0] || x in rest;
        assert x in m <==> x == m[0] || x in m[1..];
      }
    }
  }

  /** A name smaller than every stored name is not stored. */
  lemma LookupNone(m: seq<FileEntry>, name: string)
    requires forall j :: 0 <= j < |m| ==> Less(name, m[j].name)
    ensures Lookup(m, name) == None
  {
    if |m| > 0 {
      LessIrreflexive(name);
      LookupNone(m[1..], name);
    }
  }

  // =====================================================================
  // Gathering the files
  // =====================================================================

  /** File `j` names an entry that an earlier file gave a different location. */
  ghost predicate ClashAt(files: seq<FileEntry>, j: nat)
    requires j < |files|
  {
    exists i :: 0 <= i < j && files[i].name == files[j].name && files[i].location != files[j].location
  }

  /** The map after the first `n` files, or the error for the first name
      given two locations. */
  function Collect(files: seq<FileEntry>, n: nat): Result<seq<FileEntry>, BuildError>
    requires n <= |files|
  {
    if n == 0 then Ok([])
    else
      match Collect(files, n - 1)
      case Err(e) => Err(e)
      case Ok(m) =>
        var (m', prev) := Insert(m, files[n - 1]);
        if prev.Some? && prev.value != files[n - 1].location then Err(DuplicateZipFileEntry(files[n - 1].name))
        else Ok(m')
  }

  /** The entries of a list, as a set. */
  function Elems(m: seq<FileEntry>): set<FileEntry>
  {
    if |m| == 0 then {} else {m[0]} + Elems(m[1..])
  }

  lemma {:induction false} ElemsIn(m: seq<FileEntry>, x: FileEntry)
    ensures x in Elems(m) <==> x in m
  {
    if |m| > 0 {
      ElemsIn(m[1..], x);
      assert x in m <==> x == m[0] || x in m[1..];
    }
  }

  /** The map holds the first `n` files and nothing else. */
  ghost predicate HoldsFiles(m: seq<FileEntry>, files: seq<FileEntry>, n: nat)
    requires n <= |files|
  {
    Elems(m) == Elems(files[..n])
  }

  /** Gathering fails exactly when some name is given two different
      locations, and then names the first file that does so; otherwise the
      map holds each of the files once, sorted by name. */
  lemma {:induction false} CollectSpec(files: seq<FileEntry>, n: nat)
    requires n <= |files|
    ensures Collect(files, n).Ok? <==> forall j :: 0 <= j < n ==> !ClashAt(files, j)
    ensures Collect(files, n).Ok? ==> SortedByName(Collect(files, n).value) && HoldsFiles(Collect(files, n).value, files, n)
    ensures Collect(files, n).Err? ==>
      exists j :: 0 <= j < n && ClashAt(files, j) && (forall k :: 0 <= k < j ==> !ClashAt(files, k))
        && Collect(files, n).error == DuplicateZipFileEntry(files[j].name)
  {
    if n > 0 {
      CollectSpec(files, n - 1);
      if Collect(files, n - 1).Ok? {
        CollectStep(files, n);
      } else {
        assert Collect(files, n) == Collect(files, n - 1);
      }
    }
  }

  /** One file added to a map that holds the files before it. */
  lemma CollectStep(files: seq<FileEntry>, n: nat)
    requires 0 < n <= |files| && Collect(files, n - 1).Ok?
    requires SortedByName(Collect(files, n - 1).value) && HoldsFiles(Collect(files, n - 1).value, files, n - 1)
    ensures Collect(files, n).Ok? <==> !ClashAt(files, n - 1)
    ensures Collect(files, n).Err? ==> Collect(files, n).error == DuplicateZipFileEntry(files[n - 1].name)
    ensures Collect(files, n).Ok? ==> SortedByName(Collect(files, n).value) && HoldsFiles(Collect(files, n).value, files, n)
  {
    var m := Collect(files, n - 1).value;
    var f := files[n - 1];
    InsertSpec(m, f);
    if Lookup(m, f.name).Some? && Lookup(m, f.name).value != f.location {
      ClashFromLookup(files, m, n - 1);
    } else {
      NoClashAt(files, m, n - 1);
      if Lookup(m, f.name).Some? {
        LookupIn(m, f.name, f.location);
      }
      InsertedHolds(files, n, m, Insert(m, f).0);
    }
  }

  /** When the map of the first `j` files holds the name of file `j` with
      another location, file `j` clashes. */
  lemma ClashFromLookup(files: seq<FileEntry>, m: seq<FileEntry>, j: nat)
    requires j < |files| && SortedByName(m) && HoldsFiles(m, files, j)
    requires Lookup(m, files[j].name).Some? && Lookup(m, files[j].name).value != files[j].location
    ensures ClashAt(files, j)
  {
    var f := files[j];
    var l := Lookup(m, f.name).value;
    LookupIn(m, f.name, l);
    ElemsIn(m, FileEntry(l, f.name));
    ElemsIn(files[..j], FileEntry(l, f.name));
    var i :| 0 <= i < j && files[..j][i] == FileEntry(l, f.name);
    assert files[i] == FileEntry(l, f.name);
  }

  /** Adding file `n - 1` where its name was absent, or held the same
      location, gives the map of the first `n` files. */
  lemma InsertedHolds(files: seq<FileEntry>, n: nat, m: seq<FileEntry>, m': seq<FileEntry>)
    requires 0 < n <= |files| && SortedByName(m) && HoldsFiles(m, files, n - 1)
    requires Lookup(m, files[n - 1].name).None? || files[n - 1] in m
    requires forall x :: x in m' <==> x == files[n - 1] || (x in m && x.name != files[n - 1].name)
    ensures HoldsFiles(m', files, n)
  {
    var f := files[n - 1];
    assert files[..n] == files[..n - 1] + [f];
    forall x ensures x in Elems(m') <==> x in Elems(files[..n]) {
      ElemsIn(m', x);
      ElemsIn(m, x);
      ElemsIn(files[..n], x);
      ElemsIn(files[..n - 1], x);
      if x in m && x.name == f.name {
        LookupIn(m, f.name, x.location);
        if f in m {
          LookupIn(m, f.name, f.location);
        }
      }
    }
  }

  /** When the map of the first `j` files holds the name of file `j` with
      no other location, file `j` does not clash. */
  lemma NoClashAt(files: seq<FileEntry>, m: seq<FileEntry>, j: nat)
    requires j < |files| && SortedByName(m) && HoldsFiles(m, files, j)
    requires Lookup(m, files[j].name).None? || Lookup(m, files[j].name) == Some(files[j].location)
    ensures !ClashAt(files, j)
  {
    if ClashAt(files, j) {
      var i :| 0 <= i < j && files[i].name == files[j].name && files[i].location != files[j].location;
      assert files[i] in files[..j];
      ElemsIn(files[..j], files[i]);
      ElemsIn(m, files[i]);
      LookupIn(m, files[j].name, files[i].location);
      assert false;
    }
  }

  /** Once gathering fails, later files do not change the error. */
  lemma {:induction false} CollectErrSticks(files: seq<FileEntry>, m: nat, n: nat)
    requires m <= n <= |files|
    requires Collect(files, m).Err?
    ensures Collect(files, n) == Collect(files, m)
    decreases n
  {
    if m < n {
      CollectErrSticks(files, m, n - 1);
    }
  }

  // =====================================================================
  // Writing the files
  // =====================================================================

  function Reverse<T>(s: seq<T>): (r: seq<T>)
    ensures |r| == |s| && forall i :: 0 <= i < |s| ==> r[i] == s[|s| - 1 - i]
  {
    if |s| == 0 then [] else Reverse(s[1..]) + [s[0]]
  }

  /** The directories that contain `p`, outermost first (`ancestors`,
      reversed, without `p` itself). */
  function Dirs(p: string): seq<string>
  {
    Reverse(Ancestors(p)[1..])
  }

  /** The containing directories of a path are those of its parent,
      followed by the parent itself; a path without a parent has none. */
  lemma DirsOfChild(p: string)
    ensures Parent(p).None? ==> Dirs(p) == []
    ensures Parent(p).Some? ==> Dirs(p) == Dirs(Parent(p).value) + [Parent(p).value]
  {
    if Parent(p).Some? {
      var q := Parent(p).value;
      assert Ancestors(p)[1..] == Ancestors(q);
      assert Ancestors(q) == [q] + Ancestors(q)[1..];
    }
  }

  /** The directories added before a file whose containing directories are
      `newC`, when the previous file's were `oldC`: those at positions 1 to
      `n - 1` that the previous file did not have at the same position. */
  function DirEntries(oldC: seq<string>, newC: seq<string>, n: nat): seq<ZipEntry>
    requires n <= |newC|
  {
    if n <= 1 then []
    else
      DirEntries(oldC, newC, n - 1)
        + (if n - 1 >= |oldC| || oldC[n - 1] != newC[n - 1] then [Directory(newC[n - 1])] else [])
  }

  /** The containing directories of the entry written before the `k`-th. */
  function PrevDirs(m: seq<FileEntry>, dirsOf: string -> seq<string>, k: nat): seq<string>
    requires k < |m|
  {
    if k == 0 then [] else dirsOf(m[k - 1].name)
  }

  /** What writing the first `n` map entries appends to the archive, and
      how it ends, where `dirsOf` gives each entry's containing directories.
      A location whose metadata cannot be read stops the writing before its
      file is started; one that cannot be opened or copied stops it after. */
  function Emit(m: seq<FileEntry>, dirsOf: string -> seq<string>, n: nat, fs: FileItems.Fs): (seq<ZipEntry>, Result<(), BuildError>)
    requires n <= |m|
  {
    if n == 0 then ([], Ok(()))
    else
      var (written, r) := Emit(m, dirsOf, n - 1, fs);
      if r.Err? then (written, r)
      else
        var (more, r') := Step(m, dirsOf, n - 1, fs);
        (written + more, r')
  }

  /** The file entries among `out`, in order. */
  function FilesOf(out: seq<ZipEntry>): seq<ZipEntry>
  {
    if |out| == 0 then []
    else (if out[|out| - 1].File? then FilesOf(out[..|out| - 1]) + [out[|out| - 1]] else FilesOf(out[..|out| - 1]))
  }

  lemma {:induction false} FilesOfAppend(a: seq<ZipEntry>, b: seq<ZipEntry>)
    ensures FilesOf(a + b) == FilesOf(a) + FilesOf(b)
    decreases |b|
  {
    if |b| == 0 {
      assert a + b == a;
    } else {
      assert (a + b)[..|a + b| - 1] == a + b[..|b| - 1];
      FilesOfAppend(a, b[..|b| - 1]);
    }
  }

  lemma {:induction false} DirEntriesAreDirectories(oldC: seq<string>, newC: seq<string>, n: nat)
    requires n <= |newC|
    ensures FilesOf(DirEntries(oldC, newC, n)) == []
    ensures forall x :: x in DirEntries(oldC, newC, n) ==> exists i :: 1 <= i < n && x == Directory(newC[i])
  {
    if n > 1 {
      DirEntriesAreDirectories(oldC, newC, n - 1);
      var extra := if n - 1 >= |oldC| || oldC[n - 1] != newC[n - 1] then [Directory(newC[n - 1])] else [];
      FilesOfAppend(DirEntries(oldC, newC, n - 1), extra);
      assert FilesOf(extra) == [] by {
        if |extra| == 1 {
          assert extra[..0] == [];
        }
      }
    }
  }

  /** Every directory the previous file lacked at some position is added. */
  lemma {:induction false} DirEntriesAdds(oldC: seq<string>, newC: seq<string>, n: nat, i: nat)
    requires n <= |newC| && 1 <= i < n
    requires i >= |oldC| || oldC[i] != newC[i]
    ensures Directory(newC[i]) in DirEntries(oldC, newC, n)
  {
    if i < n - 1 {
      DirEntriesAdds(oldC, newC, n - 1, i);
    }
  }

  /** The files are written in map order: the archive's file entries are
      the map's entries, in order. */
  lemma {:induction false} EmitFiles(m: seq<FileEntry>, dirsOf: string -> seq<string>, n: nat, fs: FileItems.Fs)
    requires n <= |m| && Emit(m, dirsOf, n, fs).1.Ok?
    ensures FilesOf(Emit(m, dirsOf, n, fs).0) == seq(n, k requires 0 <= k < n => File(m[k].name, m[k].location))
  {
    if n > 0 {
      EmitFiles(m, dirsOf, n - 1, fs);
      assert seq(n, k requires 0 <= k < n => File(m[k].name, m[k].location))
        == seq(n - 1, k requires 0 <= k < n - 1 => File(m[k].name, m[k].location)) + [File(m[n - 1].name, m[n - 1].location)];
      EmitNext(m, dirsOf, n - 1, fs);
      FilesOfAppend(Emit(m, dirsOf, n - 1, fs).0, Step(m, dirsOf, n - 1, fs).0);
      StepFiles(m, dirsOf, n - 1, fs);
    }
  }

  /** A map entry written in full adds exactly its own file entry. */
  lemma StepFiles(m: seq<FileEntry>, dirsOf: string -> seq<string>, k: nat, fs: FileItems.Fs)
    requires k < |m| && Step(m, dirsOf, k, fs).1.Ok?
    ensures FilesOf(Step(m, dirsOf, k, fs).0) == [File(m[k].name, m[k].location)]
  {
    var e := m[k];
    var dirs := DirEntries(PrevDirs(m, dirsOf, k), dirsOf(e.name), |dirsOf(e.name)|);
    DirEntriesAreDirectories(PrevDirs(m, dirsOf, k), dirsOf(e.name), |dirsOf(e.name)|);
    FilesOfAppend(dirs, [File(e.name, e.location)]);
    assert FilesOf([File(e.name, e.location)]) == [File(e.name, e.location)] by {
      assert [File(e.name, e.location)][..0] == [];
    }
  }

  lemma EmitNext(m: seq<FileEntry>, dirsOf: string -> seq<string>, k: nat, fs: FileItems.Fs)
    requires k < |m| && Emit(m, dirsOf, k, fs).1.Ok?
    ensures Emit(m, dirsOf, k + 1, fs).0 == Emit(m, dirsOf, k, fs).0 + Step(m, dirsOf, k, fs).0
    ensures Emit(m, dirsOf, k + 1, fs).1 == Step(m, dirsOf, k, fs).1
  {
  }

  /** Appending the `k`-th entry's output after the first `k` entries'
      output appends the first `k + 1` entries' output. */
  lemma EmitAppends(m: seq<FileEntry>, dirsOf: string -> seq<string>, k: nat, fs: FileItems.Fs,
                    start: seq<ZipEntry>, before: seq<ZipEntry>, after: seq<ZipEntry>)
    requires k < |m| && Emit(m, dirsOf, k, fs).1.Ok?
    requires before == start + Emit(m, dirsOf, k, fs).0 && after == before + Step(m, dirsOf, k, fs).0
    ensures after == start + Emit(m, dirsOf, k + 1, fs).0
    ensures Emit(m, dirsOf, k + 1, fs).1 == Step(m, dirsOf, k, fs).1
  {
    EmitNext(m, dirsOf, k, fs);
  }

  /** Writing more entries only appends to what was written. */
  lemma {:induction false} EmitPrefix(m: seq<FileEntry>, dirsOf: string -> seq<string>, k: nat, n: nat, fs: FileItems.Fs)
    requires k <= n <= |m|
    ensures Emit(m, dirsOf, k, fs).0 <= Emit(m, dirsOf, n, fs).0
    ensures Emit(m, dirsOf, n, fs).1.Ok? ==> Emit(m, dirsOf, k, fs).1.Ok?
    decreases n
  {
    if k < n {
      EmitPrefix(m, dirsOf, k, n - 1, fs);
    }
  }

  /** Writing stops at the first entry that fails. */
  lemma {:induction false} EmitErrSticks(m: seq<FileEntry>, dirsOf: string -> seq<string>, k: nat, n: nat, fs: FileItems.Fs)
    requires k <= n <= |m| && Emit(m, dirsOf, k, fs).1.Err?
    ensures Emit(m, dirsOf, n, fs).0 == Emit(m, dirsOf, k, fs).0
    ensures Emit(m, dirsOf, n, fs).1 == Emit(m, dirsOf, k, fs).1
    decreases n
  {
    if k < n {
      EmitErrSticks(m, dirsOf, k, n - 1, fs);
    }
  }

  /** Before each file is written, every one of its containing directories
      except the outermost (the root) has been added: either just now, or
      for an earlier file that had it at the same position. */
  lemma {:induction false} EmitDirsFirst(m: seq<FileEntry>, dirsOf: string -> seq<string>, k: nat, fs: FileItems.Fs, i: nat)
    requires k < |m| && Emit(m, dirsOf, k + 1, fs).1.Ok?
    requires 1 <= i < |dirsOf(m[k].name)|
    ensures Directory(dirsOf(m[k].name)[i]) in Emit(m, dirsOf, k + 1, fs).0
    ensures Emit(m, dirsOf, k + 1, fs).0[|Emit(m, dirsOf, k + 1, fs).0| - 1] == File(m[k].name, m[k].location)
    decreases k
  {
    var oldC := PrevDirs(m, dirsOf, k);
    var newC := dirsOf(m[k].name);
    var before := Emit(m, dirsOf, k, fs).0;
    var dirs := DirEntries(oldC, newC, |newC|);
    assert Emit(m, dirsOf, k + 1, fs).0 == before + dirs + [File(m[k].name, m[k].location)];
    if i >= |oldC| || oldC[i] != newC[i] {
      DirEntriesAdds(oldC, newC, |newC|, i);
    } else {
      EmitDirsFirst(m, dirsOf, k - 1, fs, i);
      assert Directory(newC[i]) in before;
    }
  }

  /** Every directory added is one of the containing directories of some
      entry, never the outermost one. */
  lemma {:induction false} EmitDirsAreContaining(m: seq<FileEntry>, dirsOf: string -> seq<string>, n: nat, fs: FileItems.Fs)
    requires n <= |m|
    ensures forall x :: x in Emit(m, dirsOf, n, fs).0 && x.Directory? ==>
      exists k, i :: 0 <= k < n && 1 <= i < |dirsOf(m[k].name)| && x.name == dirsOf(m[k].name)[i]
  {
    if n > 0 {
      EmitDirsAreContaining(m, dirsOf, n - 1, fs);
      if Emit(m, dirsOf, n - 1, fs).1.Ok? {
        DirEntriesAreDirectories(PrevDirs(m, dirsOf, n - 1), dirsOf(m[n - 1].name), |dirsOf(m[n - 1].name)|);
      }
    }
  }

  /** What writing the map entry `k` appends, and how it ends, once the
      entries before it are written. */
  function Step(m: seq<FileEntry>, dirsOf: string -> seq<string>, k: nat, fs: FileItems.Fs): (seq<ZipEntry>, Result<(), BuildError>)
    requires k < |m|
  {
    var e := m[k];
    var dirs := DirEntries(PrevDirs(m, dirsOf, k), dirsOf(m[k].name), |dirsOf(m[k].name)|);
    if fs.stat(e.location).None? then (dirs, Err(IO(e.location)))
    else if !fs.readable(e.location) then (dirs + [File(e.name, e.location)], Err(IO(e.location)))
    else (dirs + [File(e.name, e.location)], Ok(()))
  }

  /** The inner loop of `insert_files`: the directories of `newC` that
      `oldC` lacks at the same position, from position 1 on. */
  method AddDirs(zf: ZipWriter, oldC: seq<string>, newC: seq<string>)
    modifies zf
    ensures zf.entries == old(zf.entries) + DirEntries(oldC, newC, |newC|)
  {
    ghost var start := zf.entries;
    if |newC| > 1 {
      for i := 1 to |newC|
        invariant zf.entries == start + DirEntries(oldC, newC, i)
      {
        if i >= |oldC| || oldC[i] != newC[i] {
          zf.AddDirectory(newC[i]);
          assert start + DirEntries(oldC, newC, i + 1) == start + DirEntries(oldC, newC, i) + [Directory(newC[i])];
        } else {
          assert DirEntries(oldC, newC, i + 1) == DirEntries(oldC, newC, i) + [];
        }
      }
    }
  }

  /** The body of `insert_files`' second loop for one map entry. */
  method WriteEntry(zf: ZipWriter, m: seq<FileEntry>, k: nat, last: Option<string>, fs: FileItems.Fs,
                    dirsOf: string -> seq<string>)
    returns (r: Result<(), BuildError>)
    requires k < |m| && last == (if k == 0 then None else Some(m[k - 1].name))
    modifies zf
    ensures zf.entries == old(zf.entries) + Step(m, dirsOf, k, fs).0
    ensures r == Step(m, dirsOf, k, fs).1
  {
    ghost var start := zf.entries;
    var e := m[k];
    var oldC := if last.None? then [] else dirsOf(last.value);
    var newC := dirsOf(e.name);
    assert oldC == PrevDirs(m, dirsOf, k);
    ghost var dirs := DirEntries(oldC, newC, |newC|);
    AddDirs(zf, oldC, newC);
    if fs.stat(e.location).None? {
      return Err(IO(e.location));
    }
    zf.StartFile(e.name, e.location);
    assert zf.entries == start + (dirs + [File(e.name, e.location)]);
    if !fs.readable(e.location) {
      return Err(IO(e.location));
    }
    return Ok(());
  }

  /** `WriteEntry` in terms of everything written so far: after the first
      `k` entries' output, it leaves the first `k + 1` entries' output. */
  method WriteNext(zf: ZipWriter, m: seq<FileEntry>, k: nat, last: Option<string>, fs: FileItems.Fs,
                   dirsOf: string -> seq<string>, ghost start: seq<ZipEntry>)
    returns (r: Result<(), BuildError>)
    requires k < |m| && last == (if k == 0 then None else Some(m[k - 1].name))
    requires Emit(m, dirsOf, k, fs).1 == Ok(()) && zf.entries == start + Emit(m, dirsOf, k, fs).0
    modifies zf
    ensures zf.entries == start + Emit(m, dirsOf, k + 1, fs).0
    ensures r == Emit(m, dirsOf, k + 1, fs).1
  {
    ghost var before := zf.entries;
    r := WriteEntry(zf, m, k, last, fs, dirsOf);
    EmitAppends(m, dirsOf, k, fs, start, before, zf.entries);
  }

  /** The first loop of `insert_files`: the map of all the files, or the
      error for the first name given two locations. */
  method GatherFiles(files: seq<FileEntry>) returns (r: Result<seq<FileEntry>, BuildError>)
    ensures r == Collect(files, |files|)
  {
    var m: seq<FileEntry> := [];
    for i := 0 to |files|
      invariant Collect(files, i) == Ok(m)
    {
      var (m', prev) := Insert(m, files[i]);
      if prev.Some? && prev.value != files[i].location {
        CollectErrSticks(files, i + 1, |files|);
        return Err(DuplicateZipFileEntry(files[i].name));
      }
      m := m';
    }
    return Ok(m);
  }

  /** The second loop of `insert_files`: every map entry in order, stopping
      at the first that fails. */
  method WriteSorted(zf: ZipWriter, m: seq<FileEntry>, fs: FileItems.Fs, dirsOf: string -> seq<string>)
    returns (r: Result<(), BuildError>)
    modifies zf
    ensures zf.entries == old(zf.entries) + Emit(m, dirsOf, |m|, fs).0
    ensures r == Emit(m, dirsOf, |m|, fs).1
  {
    ghost var start := zf.entries;
    var last: Option<string> := None;
    for k := 0 to |m|
      invariant Emit(m, dirsOf, k, fs).1 == Ok(())
      invariant zf.entries == start + Emit(m, dirsOf, k, fs).0
      invariant last == (if k == 0 then None else Some(m[k - 1].name))
    {
      var step := WriteNext(zf, m, k, last, fs, dirsOf, start);
      if step.Err? {
        EmitErrSticks(m, dirsOf, k + 1, |m|, fs);
        return step;
      }
      last := Some(m[k].name);
    }
    return Ok(());
  }

  /** `insert_files`: gathers the files by name, then writes them in name
      order, each after those of its directories not yet added. `dirsOf`
      stands for `Path::ancestors` reversed without the path itself, which
      is `Dirs`. */
  method InsertFiles(zf: ZipWriter, files: seq<FileEntry>, fs: FileItems.Fs, dirsOf: string -> seq<string>)
    returns (r: Result<(), BuildError>)
    modifies zf
    ensures Collect(files, |files|).Err? ==> r == Err(Collect(files, |files|).error) && zf.entries == old(zf.entries)
    ensures Collect(files, |files|).Ok? ==>
      var m := Collect(files, |files|).value;
      zf.entries == old(zf.entries) + Emit(m, dirsOf, |m|, fs).0 && r == Emit(m, dirsOf, |m|, fs).1
  {
    var gathered := GatherFiles(files);
    if gathered.Err? {
      return Err(gathered.error);
    }
    r := WriteSorted(zf, gathered.value, fs, dirsOf);
  }
}
