/** `src/ldcache.rs`: the shared libraries a set of ELF files needs, beyond
    those the target device already has.

    Reading ELF files and `ld.so.cache` files is done by other crates; here
    their answers are inputs (`LdEnv`):
    - `scan(path)`: the DT_NEEDED names of the file at `path`, or the error
      reading it gives (`NotElf` for a file that is not ELF);
    - `base`: the names in the target device's `ld.so.cache`;
    - `build`: the build host's `ld.so.cache`, from name to path;
    - `canon(path)`: what `fs::canonicalize` returns for `path`. */
module LdCache {
  import opened Wrappers
  import opened Strings
  import opened Paths
  import opened Lib

  datatype LdError = Io | Elf | Cache | NotElf | MissingDependency(name: string)

  datatype LdEnv = LdEnv(
    scan: string -> Result<seq<string>, LdError>,
    base: set<string>,
    build: map<string, string>,
    canon: string -> Option<string>)

  // =====================================================================
  // find_additional_versions
  // =====================================================================

  /** The bundle name of an alias: `dep` in the same bundle directory as
      the library's own name. */
  function AliasName(elfName: string, dep: string): string
  {
    match Parent(elfName)
    case Some(dir) => Join(dir, dep)
    case None => dep
  }

  function AliasEntry(elf: FileEntry, dep: string): FileEntry
  {
    FileEntry(elf.location, AliasName(elf.name, dep))
  }

  /** The aliases found among the first `n` dotted prefixes
      `chunks[0..i].join(".")`, later prefixes replacing earlier ones. */
  function PrefixAliases(elf: FileEntry, canon: string -> Option<string>, dir: string, chunks: seq<string>, n: nat)
    : map<string, FileEntry>
    requires n <= |chunks|
  {
    if n == 0 then map[]
    else
      var dep := JoinWith(chunks[..n], '.');
      var m := PrefixAliases(elf, canon, dir, chunks, n - 1);
      if canon(Join(dir, dep)) == Some(elf.location) then m[dep := AliasEntry(elf, dep)] else m
  }

  /** The aliases of one library, as `find_additional_versions` collects
      them: nothing unless its location has a file name and a parent. */
  function Aliases(elf: FileEntry, canon: string -> Option<string>): map<string, FileEntry>
  {
    match (FileName(elf.location), Parent(elf.location))
    case (Some(file), Some(dir)) =>
      var chunks := Split(file, '.');
      PrefixAliases(elf, canon, dir, chunks, |chunks|)
    case _ => map[]
  }

  /** `find_additional_versions`: adds the aliases of `elf` to `libs`,
      replacing earlier entries with the same key. It never fails. */
  method FindAdditionalVersions(elf: FileEntry, canon: string -> Option<string>, libs: map<string, FileEntry>)
    returns (out: map<string, FileEntry>)
    ensures out == libs + Aliases(elf, canon)
  {
    out := libs;
    var file := FileName(elf.location);
    var dir := Parent(elf.location);
    if file.Some? && dir.Some? {
      out := AddPrefixAliases(elf, canon, dir.value, Split(file.value, '.'), libs);
    }
  }

  /** The loop of `find_additional_versions` over the dotted prefixes. */
  method AddPrefixAliases(elf: FileEntry, canon: string -> Option<string>, dir: string, chunks: seq<string>,
                          libs: map<string, FileEntry>)
    returns (out: map<string, FileEntry>)
    ensures out == libs + PrefixAliases(elf, canon, dir, chunks, |chunks|)
  {
    out := libs;
    for i := 1 to |chunks| + 1
      invariant out == libs + PrefixAliases(elf, canon, dir, chunks, i - 1)
    {
      var dep := JoinWith(chunks[..i], '.');
      var candidate := Join(dir, dep);
      ghost var before := PrefixAliases(elf, canon, dir, chunks, i - 1);
      match canon(candidate) {
        case Some(c) =>
          if c == elf.location {
            UpdateAfterUnion(libs, before, dep, AliasEntry(elf, dep));
            out := out[dep := AliasEntry(elf, dep)];
          }
        case None =>
      }
    }
  }

  /** Updating a union updates its right-hand side. */
  lemma UpdateAfterUnion(a: map<string, FileEntry>, b: map<string, FileEntry>, k: string, v: FileEntry)
    ensures (a + b)[k := v] == a + b[k := v]
  {
  }

  /** The keys among the first `n` prefixes, one prefix at a time. */
  lemma {:induction false} PrefixAliasesKeys(elf: FileEntry, canon: string -> Option<string>, dir: string,
                                             chunks: seq<string>, n: nat, k: string)
    requires n <= |chunks|
    ensures k in PrefixAliases(elf, canon, dir, chunks, n) <==>
      (exists i :: 1 <= i <= n && k == JoinWith(chunks[..i], '.')) && canon(Join(dir, k)) == Some(elf.location)
    ensures k in PrefixAliases(elf, canon, dir, chunks, n) ==> PrefixAliases(elf, canon, dir, chunks, n)[k] == AliasEntry(elf, k)
  {
    if n > 0 {
      PrefixAliasesKeys(elf, canon, dir, chunks, n - 1, k);
    }
  }

  /** Which keys the aliases of a library have, and what they hold: a key
      is a dotted prefix of the file name (the whole name included) whose
      sibling canonicalises to exactly the library's location; the entry
      keeps that location and sits beside the library's own bundle name. */
  lemma AliasesCharacterised(elf: FileEntry, canon: string -> Option<string>, k: string)
    ensures FileName(elf.location).None? ==> Aliases(elf, canon) == map[]
    ensures FileName(elf.location).Some? ==>
      (k in Aliases(elf, canon) <==>
         IsSepPrefix(k, FileName(elf.location).value, '.')
         && canon(Join(Parent(elf.location).value, k)) == Some(elf.location))
    ensures k in Aliases(elf, canon) ==> Aliases(elf, canon)[k] == AliasEntry(elf, k)
    ensures k in Aliases(elf, canon) ==> '/' !in k
  {
    if FileName(elf.location).Some? {
      var file := FileName(elf.location).value;
      var dir := Parent(elf.location).value;
      assert Aliases(elf, canon) == PrefixAliases(elf, canon, dir, Split(file, '.'), |Split(file, '.')|);
      AllPrefixAliases(elf, canon, dir, file, k);
    }
  }

  /** `AliasesCharacterised` for the file name `file` in directory `dir`. */
  lemma AllPrefixAliases(elf: FileEntry, canon: string -> Option<string>, dir: string, file: string, k: string)
    requires '/' !in file
    ensures var pa := PrefixAliases(elf, canon, dir, Split(file, '.'), |Split(file, '.')|);
      && (k in pa <==> IsSepPrefix(k, file, '.') && canon(Join(dir, k)) == Some(elf.location))
      && (k in pa ==> pa[k] == AliasEntry(elf, k) && '/' !in k)
  {
    var chunks := Split(file, '.');
    PrefixAliasesKeys(elf, canon, dir, chunks, |chunks|, k);
    SepPrefixes(file, '.', k);
    if IsSepPrefix(k, file, '.') {
      PrefixHasNoSlash(k, file);
    }
  }

  lemma PrefixHasNoSlash(k: string, file: string)
    requires IsSepPrefix(k, file, '.') && '/' !in file
    ensures '/' !in k
  {
    if k != file {
      forall c | c in k ensures c != '/' {
        var j :| 0 <= j < |k| && k[j] == c;
        assert file[j] == c;
      }
    }
  }

  // =====================================================================
  // resolve_deps: the seeding loop
  // =====================================================================

  function Locations(entries: seq<FileEntry>): set<string>
  {
    set i | 0 <= i < |entries| :: entries[i].location
  }

  /** Entry `i` is the first with its location; later ones are ignored. */
  predicate FirstAt(elves: seq<FileEntry>, i: int)
  {
    0 <= i < |elves| && forall j :: 0 <= j < i ==> elves[j].location != elves[i].location
  }

  /** The file names of the inputs' bundle names, first of each location. */
  function OwnNames(elves: seq<FileEntry>): set<string>
  {
    set i | 0 <= i < |elves| && FirstAt(elves, i) && FileName(elves[i].name).Some? :: FileName(elves[i].name).value
  }

  /** `own_extra_libs` once every input has been seen. */
  function SeedAliases(elves: seq<FileEntry>, canon: string -> Option<string>): map<string, FileEntry>
    decreases |elves|
  {
    if |elves| == 0 then map[]
    else
      var prev := elves[..|elves| - 1];
      var e := elves[|elves| - 1];
      if e.location in Locations(prev) then SeedAliases(prev, canon)
      else SeedAliases(prev, canon) + Aliases(e, canon)
  }

  /** Every alias entry belongs to the first input with its location. */
  lemma {:induction false} SeedAliasesOwner(elves: seq<FileEntry>, canon: string -> Option<string>, d: string)
    returns (i: nat)
    requires d in SeedAliases(elves, canon)
    ensures FirstAt(elves, i) && d in Aliases(elves[i], canon)
    ensures SeedAliases(elves, canon)[d] == AliasEntry(elves[i], d)
    decreases |elves|
  {
    var prev := elves[..|elves| - 1];
    var e := elves[|elves| - 1];
    if e.location !in Locations(prev) && d in Aliases(e, canon) {
      i := |elves| - 1;
      assert SeedAliases(elves, canon) == SeedAliases(prev, canon) + Aliases(e, canon);
      FirstAtLast(elves);
      AliasesCharacterised(e, canon, d);
    } else {
      assert SeedAliases(elves, canon)[d] == SeedAliases(prev, canon)[d];
      i := SeedAliasesOwner(prev, canon, d);
      FirstAtExtends(elves, i);
    }
  }

  lemma FirstAtLast(elves: seq<FileEntry>)
    requires |elves| > 0 && elves[|elves| - 1].location !in Locations(elves[..|elves| - 1])
    ensures FirstAt(elves, |elves| - 1)
  {
    var prev := elves[..|elves| - 1];
    forall j | 0 <= j < |elves| - 1 ensures elves[j].location != elves[|elves| - 1].location {
      assert prev[j].location in Locations(prev);
    }
  }

  lemma FirstAtExtends(elves: seq<FileEntry>, i: int)
    requires |elves| > 0 && FirstAt(elves[..|elves| - 1], i)
    ensures FirstAt(elves, i)
  {
    assert forall j :: 0 <= j <= i ==> elves[j] == elves[..|elves| - 1][j];
  }

  /** No two alias keys share an entry, and every entry has an input's location. */
  lemma SeedAliasesInjective(elves: seq<FileEntry>, canon: string -> Option<string>, d1: string, d2: string)
    requires d1 in SeedAliases(elves, canon) && d2 in SeedAliases(elves, canon)
    ensures SeedAliases(elves, canon)[d1].location in Locations(elves)
    ensures SeedAliases(elves, canon)[d1] == SeedAliases(elves, canon)[d2] ==> d1 == d2
  {
    var sa := SeedAliases(elves, canon);
    var i1 := SeedAliasesOwner(elves, canon, d1);
    var i2 := SeedAliasesOwner(elves, canon, d2);
    assert elves[i1].location in Locations(elves);
    if sa[d1] == sa[d2] {
      assert i1 == i2;
      AliasesCharacterised(elves[i1], canon, d1);
      AliasesCharacterised(elves[i1], canon, d2);
      match Parent(elves[i1].name) {
        case Some(dir) => JoinNameInjective(dir, d1, d2);
        case None =>
      }
    }
  }

  // =====================================================================
  // resolve_deps: what the result means
  // =====================================================================

  /** A needed name is taken care of: the target has it, an input (or an
      alias already bundled) provides it, or, for a name that is not one of
      the `aliases`, the build cache's file for it is bundled. An alias name
      the target lacks is only taken care of by its alias. */
  predicate Satisfied(d: string, env: LdEnv, aliases: set<string>, own: set<string>, queued: set<string>)
  {
    d in env.base || d in own || (d !in aliases && d in env.build && env.build[d] in queued)
  }

  /** The file at `loc` has been read and all its needs are taken care of
      (a file that is not ELF needs nothing). */
  predicate ScannedWith(loc: string, env: LdEnv, aliases: set<string>, own: set<string>, queued: set<string>)
  {
    match env.scan(loc)
    case Ok(deps) => forall j :: 0 <= j < |deps| ==> Satisfied(deps[j], env, aliases, own, queued)
    case Err(e) => e == NotElf
  }

  /** The names that count as provided once `res` is the result. */
  function Owned(elves: seq<FileEntry>, env: LdEnv, res: seq<FileEntry>): set<string>
  {
    var sa := SeedAliases(elves, env.canon);
    OwnNames(elves) + set d | d in sa && sa[d] in res
  }

  /** The closure law: every file that ends up in the bundle's ELF set (an
      input or a resolved library) has each of its needs taken care of. */
  predicate Closed(elves: seq<FileEntry>, env: LdEnv, res: seq<FileEntry>)
  {
    forall loc :: loc in Locations(elves) + Locations(res) ==>
      ScannedWith(loc, env, SeedAliases(elves, env.canon).Keys, Owned(elves, env, res), Locations(elves) + Locations(res))
  }

  /** Some file among `locs` has been read and needs the name `d`. */
  predicate NeededBy(d: string, env: LdEnv, locs: set<string>)
  {
    exists loc :: loc in locs && env.scan(loc).Ok? && d in env.scan(loc).value
  }

  /** The files queued before entry `k` of the result was added: the
      inputs and the entries before it. */
  function Before(elves: seq<FileEntry>, res: seq<FileEntry>, k: nat): set<string>
    requires k <= |res|
  {
    Locations(elves) + Locations(res[..k])
  }

  /** An alias of an input, for a name the target lacks, no input is named,
      and some file in `prior` needs. */
  predicate FromAlias(e: FileEntry, elves: seq<FileEntry>, env: LdEnv, prior: set<string>)
  {
    var sa := SeedAliases(elves, env.canon);
    exists d :: d in sa && sa[d] == e && d !in env.base && d !in OwnNames(elves) && NeededBy(d, env, prior)
  }

  /** `lib/<name>` for the build cache's file of a name that the target
      lacks, that no input is named or aliased as, and that some file in
      `prior` needs; the file is not an input. */
  predicate FromBuildCache(e: FileEntry, elves: seq<FileEntry>, env: LdEnv, prior: set<string>)
  {
    exists d :: d in env.build && d !in env.base && d !in OwnNames(elves) && d !in SeedAliases(elves, env.canon)
      && e == FileEntry(env.build[d], Join("lib", d)) && env.build[d] !in Locations(elves)
      && NeededBy(d, env, prior)
  }

  /** No entry appears twice, and two entries share a location only when
      it is an input's (an input and its aliases). */
  predicate Distinct(elves: seq<FileEntry>, res: seq<FileEntry>)
  {
    && (forall i, j :: 0 <= i < j < |res| ==> res[i] != res[j])
    && (forall i, j :: 0 <= i < j < |res| && res[i].location == res[j].location ==> res[i].location in Locations(elves))
  }

  /** Soundness, minimality, exclusion and deduplication of a result: each
      entry is an alias or a build-cache library for a name needed by an
      input or by an entry added before it. */
  predicate WellSourced(elves: seq<FileEntry>, env: LdEnv, res: seq<FileEntry>)
  {
    && (forall k :: 0 <= k < |res| ==>
          FromAlias(res[k], elves, env, Before(elves, res, k)) || FromBuildCache(res[k], elves, env, Before(elves, res, k)))
    && Distinct(elves, res)
  }

  /** A file among `locs` could not be read (other than by not being ELF),
      or needs a name found nowhere. */
  predicate FailsAt(elves: seq<FileEntry>, env: LdEnv, locs: set<string>, e: LdError)
  {
    && e != NotElf
    && (exists loc :: loc in locs &&
          (env.scan(loc) == Err(e)
           || (e.MissingDependency? && env.scan(loc).Ok? && e.name in env.scan(loc).value
               && e.name !in env.base && e.name !in OwnNames(elves)
               && e.name !in SeedAliases(elves, env.canon) && e.name !in env.build)))
  }

  /** Why resolution may fail: a file reached from the inputs through a
      chain of needs (the inputs and a well-sourced partial result) could
      not be read, or needs a name found nowhere. */
  ghost predicate FailureJustified(elves: seq<FileEntry>, env: LdEnv, e: LdError)
  {
    exists part :: WellSourced(elves, env, part) && FailsAt(elves, env, Locations(elves) + Locations(part), e)
  }

  /** In a closed result, a name that an input or a resolved library
      needs, that the target lacks and that only an alias provides, has
      that alias bundled: the build cache never stands in for an alias. */
  lemma ClosedTakesAlias(elves: seq<FileEntry>, env: LdEnv, res: seq<FileEntry>, loc: string, d: string)
    requires Closed(elves, env, res)
    requires loc in Locations(elves) + Locations(res) && env.scan(loc).Ok? && d in env.scan(loc).value
    requires d in SeedAliases(elves, env.canon) && d !in env.base && d !in OwnNames(elves)
    ensures SeedAliases(elves, env.canon)[d] in res
  {
    var deps := env.scan(loc).value;
    var j :| 0 <= j < |deps| && deps[j] == d;
    assert ScannedWith(loc, env, SeedAliases(elves, env.canon).Keys, Owned(elves, env, res), Locations(elves) + Locations(res));
    assert Satisfied(deps[j], env, SeedAliases(elves, env.canon).Keys, Owned(elves, env, res), Locations(elves) + Locations(res));
  }

  lemma ScannedWithGrows(loc: string, env: LdEnv, aliases: set<string>, own: set<string>, queued: set<string>,
                         own': set<string>, queued': set<string>)
    requires ScannedWith(loc, env, aliases, own, queued)
    requires own <= own' && queued <= queued'
    ensures ScannedWith(loc, env, aliases, own', queued')
  {
  }

  lemma LocationsAppend(res: seq<FileEntry>, e: FileEntry)
    ensures Locations(res + [e]) == Locations(res) + {e.location}
  {
    var r := res + [e];
    forall x | x in Locations(r) ensures x in Locations(res) + {e.location} {
      var i :| 0 <= i < |r| && r[i].location == x;
      if i < |res| {
        assert res[i].location == x;
      }
    }
    forall x | x in Locations(res) + {e.location} ensures x in Locations(r) {
      if x in Locations(res) {
        var i :| 0 <= i < |res| && res[i].location == x;
        assert r[i].location == x;
      } else {
        assert r[|res|].location == x;
      }
    }
  }

  lemma SeedStep(elves: seq<FileEntry>, i: nat)
    requires i < |elves|
    ensures Locations(elves[..i + 1]) == Locations(elves[..i]) + {elves[i].location}
    ensures OwnNames(elves[..i + 1]) ==
      if elves[i].location in Locations(elves[..i]) then OwnNames(elves[..i])
      else OwnNames(elves[..i]) + (if FileName(elves[i].name).Some? then {FileName(elves[i].name).value} else {})
  {
    assert elves[..i + 1] == elves[..i] + [elves[i]];
    LocationsAppend(elves[..i], elves[i]);
    var pre, cur := elves[..i], elves[..i + 1];
    var isNew := elves[i].location !in Locations(pre);
    assert FirstAt(cur, i) <==> isNew by {
      if !isNew {
        var j :| 0 <= j < i && pre[j].location == elves[i].location;
        assert cur[j].location == cur[i].location;
      }
    }
    forall j | 0 <= j < i ensures FirstAt(cur, j) <==> FirstAt(pre, j) {
    }
  }

  // =====================================================================
  // resolve_deps
  // =====================================================================

  /** The mutable state of `resolve_deps`: the work stack, the set of
      queued paths, `own_libs` and the result so far. */
  datatype Progress = Progress(work: seq<string>, queued: set<string>, own: set<string>, res: seq<FileEntry>)

  /** An alias taken for a name in `used` that some file in `prior` needs. */
  predicate TakenAlias(e: FileEntry, elves: seq<FileEntry>, env: LdEnv, used: set<string>, prior: set<string>)
  {
    var sa := SeedAliases(elves, env.canon);
    exists d :: d in used && d in sa && sa[d] == e && NeededBy(d, env, prior)
  }

  /** Every entry is an alias taken for a name in `used`, or a build-cache
      library, needed by a file queued before the entry was added. */
  predicate SourcedBy(elves: seq<FileEntry>, env: LdEnv, used: set<string>, res: seq<FileEntry>)
  {
    forall k :: 0 <= k < |res| ==>
      TakenAlias(res[k], elves, env, used, Before(elves, res, k)) || FromBuildCache(res[k], elves, env, Before(elves, res, k))
  }

  /** The queue: every path queued is an input or a build-cache file, and
      either read already (`done`), on the stack, or being read. */
  predicate QueueInv(elves: seq<FileEntry>, env: LdEnv, p: Progress, done: set<string>, current: set<string>)
  {
    && p.queued == Locations(elves) + Locations(p.res)
    && p.queued <= Locations(elves) + env.build.Values
    && (forall k :: 0 <= k < |p.work| ==> p.work[k] in p.queued)
    && (forall loc :: loc in p.queued ==> loc in done || loc in p.work || loc in current)
    && (forall loc :: loc in done ==> ScannedWith(loc, env, SeedAliases(elves, env.canon).Keys, p.own, p.queued))
  }

  /** `own_libs`: the inputs' names and the alias names taken so far. */
  predicate OwnInv(elves: seq<FileEntry>, env: LdEnv, p: Progress, used: set<string>)
  {
    var sa := SeedAliases(elves, env.canon);
    && p.own == OwnNames(elves) + used
    && (forall d :: d in used ==> d in sa && sa[d] in p.res && d !in env.base && d !in OwnNames(elves))
  }

  /** The loop invariant of `resolve_deps`. `done` holds the files already
      read, `used` the alias names taken, `current` the file being read. */
  predicate Inv(elves: seq<FileEntry>, env: LdEnv, p: Progress, done: set<string>, used: set<string>, current: set<string>)
  {
    && QueueInv(elves, env, p, done, current)
    && OwnInv(elves, env, p, used)
    && SourcedBy(elves, env, used, p.res)
    && Distinct(elves, p.res)
  }

  /** `SeedAliases` over one more input. */
  lemma SeedAliasesStep(elves: seq<FileEntry>, canon: string -> Option<string>, i: nat)
    requires i < |elves|
    ensures SeedAliases(elves[..i + 1], canon) ==
      if elves[i].location in Locations(elves[..i]) then SeedAliases(elves[..i], canon)
      else SeedAliases(elves[..i], canon) + Aliases(elves[i], canon)
  {
    assert elves[..i + 1][..i] == elves[..i];
  }

  /** The body of the first loop of `resolve_deps`, for one input. */
  method SeedOne(elf: FileEntry, canon: string -> Option<string>, work: seq<string>, queued: set<string>,
                 ownLibs: set<string>, extra: map<string, FileEntry>)
    returns (work': seq<string>, queued': set<string>, ownLibs': set<string>, extra': map<string, FileEntry>)
    requires forall loc :: loc in queued ==> loc in work
    requires forall k :: 0 <= k < |work| ==> work[k] in queued
    requires forall i, j :: 0 <= i < j < |work| ==> work[i] != work[j]
    ensures forall loc :: loc in queued' ==> loc in work'
    ensures forall k :: 0 <= k < |work'| ==> work'[k] in queued'
    ensures forall i, j :: 0 <= i < j < |work'| ==> work'[i] != work'[j]
    ensures queued' == queued + {elf.location}
    ensures elf.location in queued ==> work' == work && ownLibs' == ownLibs && extra' == extra
    ensures elf.location !in queued ==>
      && work' == work + [elf.location]
      && ownLibs' == ownLibs + (if FileName(elf.name).Some? then {FileName(elf.name).value} else {})
      && extra' == extra + Aliases(elf, canon)
  {
    work', queued', ownLibs', extra' := work, queued, ownLibs, extra;
    var pb := elf.location;
    if pb !in queued {
      match FileName(elf.name) {
        case Some(file) => ownLibs' := ownLibs + {file};
        case None =>
      }
      extra' := FindAdditionalVersions(elf, canon, extra);
      queued' := queued + {pb};
      work' := work + [pb];
    }
  }

  /** The first loop of `resolve_deps`: each input location is put on the
      stack once, its file name recorded and its aliases collected. */
  method Seed(elves: seq<FileEntry>, canon: string -> Option<string>)
    returns (p: Progress, ownExtraLibs: map<string, FileEntry>)
    ensures p.queued == Locations(elves) && p.res == []
    ensures p.own == OwnNames(elves)
    ensures ownExtraLibs == SeedAliases(elves, canon)
    ensures forall k :: 0 <= k < |p.work| ==> p.work[k] in p.queued
    ensures forall loc :: loc in p.queued ==> loc in p.work
    ensures forall i, j :: 0 <= i < j < |p.work| ==> p.work[i] != p.work[j]
  {
    var work: seq<string> := [];
    var queued: set<string> := {};
    var ownLibs: set<string> := {};
    ownExtraLibs := map[];
    for i := 0 to |elves|
      invariant queued == Locations(elves[..i])
      invariant ownLibs == OwnNames(elves[..i])
      invariant ownExtraLibs == SeedAliases(elves[..i], canon)
      invariant forall loc :: loc in queued ==> loc in work
      invariant forall k :: 0 <= k < |work| ==> work[k] in queued
      invariant forall i, j :: 0 <= i < j < |work| ==> work[i] != work[j]
    {
      SeedStep(elves, i);
      SeedAliasesStep(elves, canon, i);
      work, queued, ownLibs, ownExtraLibs := SeedOne(elves[i], canon, work, queued, ownLibs, ownExtraLibs);
    }
    assert elves[..|elves|] == elves;
    p := Progress(work, queued, ownLibs, []);
  }

  /** Appending an entry that is not in the result yet, and whose location
      is an input's or not yet in the result, keeps the result distinct. */
  lemma DistinctAppend(elves: seq<FileEntry>, res: seq<FileEntry>, e: FileEntry)
    requires Distinct(elves, res) && e !in res
    requires e.location in Locations(elves) || e.location !in Locations(res)
    ensures Distinct(elves, res + [e])
  {
    var r := res + [e];
    forall i, j | 0 <= i < j < |r| && r[i].location == r[j].location
      ensures r[i].location in Locations(elves)
    {
      if j == |res| {
        assert res[i].location in Locations(res);
      } else {
        assert r[i] == res[i] && r[j] == res[j];
      }
    }
    forall i, j | 0 <= i < j < |r| ensures r[i] != r[j] {
      if j == |res| {
        assert res[i] in res;
      } else {
        assert r[i] == res[i] && r[j] == res[j];
      }
    }
  }

  /** Appending an alias taken for a name in `used'`, or a build-cache
      library, keeps the result sourced. */
  lemma SourcedByAppend(elves: seq<FileEntry>, env: LdEnv, used: set<string>, used': set<string>,
                        res: seq<FileEntry>, e: FileEntry)
    requires SourcedBy(elves, env, used, res) && used <= used'
    requires TakenAlias(e, elves, env, used', Locations(elves) + Locations(res))
      || FromBuildCache(e, elves, env, Locations(elves) + Locations(res))
    ensures SourcedBy(elves, env, used', res + [e])
  {
    var r := res + [e];
    forall k | 0 <= k < |r|
      ensures TakenAlias(r[k], elves, env, used', Before(elves, r, k)) || FromBuildCache(r[k], elves, env, Before(elves, r, k))
    {
      assert r[..k] == res[..k];
      if k < |res| {
        assert r[k] == res[k];
        if TakenAlias(res[k], elves, env, used, Before(elves, res, k)) {
          TakenAliasGrows(res[k], elves, env, used, used', Before(elves, res, k));
        }
      } else {
        assert res[..|res|] == res;
      }
    }
  }

  lemma TakenAliasGrows(e: FileEntry, elves: seq<FileEntry>, env: LdEnv, used: set<string>, used': set<string>,
                        prior: set<string>)
    requires TakenAlias(e, elves, env, used, prior) && used <= used'
    ensures TakenAlias(e, elves, env, used', prior)
  {
    var sa := SeedAliases(elves, env.canon);
    var d :| d in used && d in sa && sa[d] == e && NeededBy(d, env, prior);
    assert d in used';
  }

  /** The queue part of the invariant holds on whatever keeps the stack and
      the queued set, grows `own_libs`, and adds nothing new to the
      result's locations. */
  lemma QueueInvKeep(elves: seq<FileEntry>, env: LdEnv, p: Progress, p': Progress, done: set<string>, current: set<string>)
    requires QueueInv(elves, env, p, done, current)
    requires p'.work == p.work && p'.queued == p.queued && p.own <= p'.own
    requires Locations(elves) + Locations(p'.res) == p.queued
    ensures QueueInv(elves, env, p', done, current)
  {
    forall loc | loc in done ensures ScannedWith(loc, env, SeedAliases(elves, env.canon).Keys, p'.own, p'.queued) {
      ScannedWithGrows(loc, env, SeedAliases(elves, env.canon).Keys, p.own, p.queued, p'.own, p'.queued);
    }
  }

  /** The queue part of the invariant, once `loc` is pushed, queued and
      added to the result with `e`. */
  lemma QueueInvPush(elves: seq<FileEntry>, env: LdEnv, p: Progress, done: set<string>, current: set<string>,
                     loc: string, e: FileEntry)
    requires QueueInv(elves, env, p, done, current)
    requires loc in env.build.Values && e.location == loc
    ensures QueueInv(elves, env, Progress(p.work + [loc], p.queued + {loc}, p.own, p.res + [e]), done, current)
  {
    var p' := Progress(p.work + [loc], p.queued + {loc}, p.own, p.res + [e]);
    LocationsAppend(p.res, e);
    forall l | l in done ensures ScannedWith(l, env, SeedAliases(elves, env.canon).Keys, p'.own, p'.queued) {
      ScannedWithGrows(l, env, SeedAliases(elves, env.canon).Keys, p.own, p.queued, p'.own, p'.queued);
    }
    forall k | 0 <= k < |p'.work| ensures p'.work[k] in p'.queued {
      if k < |p.work| {
        assert p'.work[k] == p.work[k];
      }
    }
    forall l | l in p'.queued ensures l in done || l in p'.work || l in current {
      if l != loc {
        assert l in done || l in p.work || l in current;
      }
    }
  }

  /** Taking the alias of `d` keeps the invariant. */
  lemma InvAddAlias(elves: seq<FileEntry>, env: LdEnv, p: Progress, done: set<string>, used: set<string>,
                    current: set<string>, d: string)
    requires Inv(elves, env, p, done, used, current)
    requires d in SeedAliases(elves, env.canon) && d !in env.base && d !in p.own
    requires NeededBy(d, env, p.queued)
    ensures var e := SeedAliases(elves, env.canon)[d];
      Inv(elves, env, p.(res := p.res + [e], own := p.own + {d}), done, used + {d}, current)
  {
    var e := SeedAliases(elves, env.canon)[d];
    var p' := p.(res := p.res + [e], own := p.own + {d});
    AddAlias(elves, env, used, p.res, d);
    LocationsAppend(p.res, e);
    QueueInvKeep(elves, env, p, p', done, current);
    AliasTaken(elves, env, used, d, p.queued);
    SourcedByAppend(elves, env, used, used + {d}, p.res, e);
    DistinctAppend(elves, p.res, e);
    OwnInvAddAlias(elves, env, p, used, d);
  }

  lemma AliasTaken(elves: seq<FileEntry>, env: LdEnv, used: set<string>, d: string, prior: set<string>)
    requires d in SeedAliases(elves, env.canon) && NeededBy(d, env, prior)
    ensures TakenAlias(SeedAliases(elves, env.canon)[d], elves, env, used + {d}, prior)
  {
    assert d in used + {d};
  }

  lemma OwnInvAddAlias(elves: seq<FileEntry>, env: LdEnv, p: Progress, used: set<string>, d: string)
    requires OwnInv(elves, env, p, used)
    requires d in SeedAliases(elves, env.canon) && d !in env.base && d !in p.own
    ensures var e := SeedAliases(elves, env.canon)[d];
      OwnInv(elves, env, p.(res := p.res + [e], own := p.own + {d}), used + {d})
  {
    var sa := SeedAliases(elves, env.canon);
    var p' := p.(res := p.res + [sa[d]], own := p.own + {d});
    forall d' | d' in used + {d}
      ensures d' in sa && sa[d'] in p'.res && d' !in env.base && d' !in OwnNames(elves)
    {
      if d' != d {
        assert sa[d'] in p.res;
      }
    }
  }


  /** Queueing the build cache's library for `d` keeps the invariant. */
  lemma InvAddBuild(elves: seq<FileEntry>, env: LdEnv, p: Progress, done: set<string>, used: set<string>,
                    current: set<string>, d: string)
    requires Inv(elves, env, p, done, used, current)
    requires d in env.build && d !in env.base && env.build[d] !in p.queued
    requires d !in OwnNames(elves) && d !in SeedAliases(elves, env.canon) && NeededBy(d, env, p.queued)
    ensures var loc := env.build[d];
      Inv(elves, env, Progress(p.work + [loc], p.queued + {loc}, p.own, p.res + [FileEntry(loc, Join("lib", d))]),
          done, used, current)
  {
    var loc := env.build[d];
    var e := FileEntry(loc, Join("lib", d));
    var p' := Progress(p.work + [loc], p.queued + {loc}, p.own, p.res + [e]);
    assert FromBuildCache(e, elves, env, Locations(elves) + Locations(p.res));
    QueueInvPush(elves, env, p, done, current, loc, e);
    SourcedByAppend(elves, env, used, used, p.res, e);
    LocationNotIn(p.res, e);
    DistinctAppend(elves, p.res, e);
    assert OwnInv(elves, env, p', used) by {
      forall d' | d' in used ensures SeedAliases(elves, env.canon)[d'] in p'.res {
        assert SeedAliases(elves, env.canon)[d'] in p.res;
      }
    }
  }

  lemma LocationNotIn(res: seq<FileEntry>, e: FileEntry)
    requires e.location !in Locations(res)
    ensures e !in res
  {
    forall k | 0 <= k < |res| ensures res[k] != e {
      assert res[k].location in Locations(res);
    }
  }

  /** Queueing one more of the build cache's files brings the measure down. */
  lemma QueueShrinksRemaining(values: set<string>, queued: set<string>, loc: string)
    requires loc in values && loc !in queued
    ensures |values - (queued + {loc})| == |values - queued| - 1
  {
    assert values - (queued + {loc}) == (values - queued) - {loc};
  }

  /** One name `d` needed by the file being read: skipped when the target
      or `own_libs` has it, else taken from the aliases, else from the build
      cache (queued unless it already is), else a missing dependency. */
  method ScanDep(elves: seq<FileEntry>, env: LdEnv, ownExtraLibs: map<string, FileEntry>,
                 item: string, d: string, p: Progress, ghost done: set<string>, ghost used: set<string>)
    returns (r: Result<Progress, LdError>, ghost used': set<string>)
    requires ownExtraLibs == SeedAliases(elves, env.canon)
    requires Inv(elves, env, p, done, used, {item})
    requires item in p.queued
    requires env.scan(item).Ok? && d in env.scan(item).value
    ensures d in env.base || d in p.own ==> r == Ok(p)
    ensures d !in env.base && d !in p.own && d in ownExtraLibs ==>
      r == Ok(p.(res := p.res + [ownExtraLibs[d]], own := p.own + {d}))
    ensures d !in env.base && d !in p.own && d !in ownExtraLibs && d in env.build ==>
      var loc := env.build[d];
      r == Ok(if loc in p.queued then p
              else Progress(p.work + [loc], p.queued + {loc}, p.own, p.res + [FileEntry(loc, Join("lib", d))]))
    ensures d !in env.base && d !in p.own && d !in ownExtraLibs && d !in env.build ==>
      r == Err(MissingDependency(d))
    ensures r.Ok? ==> Inv(elves, env, r.value, done, used', {item})
    ensures r.Ok? ==> Satisfied(d, env, ownExtraLibs.Keys, r.value.own, r.value.queued)
    ensures r.Ok? ==> p.own <= r.value.own && p.queued <= r.value.queued
    ensures r.Ok? && r.value.queued == p.queued ==> r.value.work == p.work
    ensures r.Ok? && r.value.queued != p.queued ==> |env.build.Values - r.value.queued| < |env.build.Values - p.queued|
  {
    used' := used;
    r := Ok(p);
    if d !in env.base && d !in p.own {
      assert NeededBy(d, env, p.queued) by {
        assert item in p.queued && env.scan(item).Ok? && d in env.scan(item).value;
      }
      if d in ownExtraLibs {
        InvAddAlias(elves, env, p, done, used, {item}, d);
        r := Ok(p.(res := p.res + [ownExtraLibs[d]], own := p.own + {d}));
        used' := used + {d};
      } else if d in env.build {
        var loc := env.build[d];
        if loc !in p.queued {
          assert OwnNames(elves) <= p.own;
          InvAddBuild(elves, env, p, done, used, {item}, d);
          QueueShrinksRemaining(env.build.Values, p.queued, loc);
          r := Ok(Progress(p.work + [loc], p.queued + {loc}, p.own, p.res + [FileEntry(loc, Join("lib", d))]));
        }
      } else {
        r := Err(MissingDependency(d));
      }
    }
  }

  /** The inner loop of `resolve_deps` over the names one file needs. On
      success every name is taken care of, and either nothing was queued
      or more of the build cache's files are queued than before; a failure
      is a name of `deps` found nowhere. */
  method ScanDeps(elves: seq<FileEntry>, env: LdEnv, ownExtraLibs: map<string, FileEntry>,
                  item: string, deps: seq<string>, p0: Progress, ghost done: set<string>, ghost used0: set<string>)
    returns (r: Result<Progress, LdError>, ghost used: set<string>)
    requires ownExtraLibs == SeedAliases(elves, env.canon)
    requires Inv(elves, env, p0, done, used0, {item})
    requires item in p0.queued && env.scan(item) == Ok(deps)
    ensures r.Ok? ==> Inv(elves, env, r.value, done, used, {item})
    ensures r.Ok? ==> AllSatisfied(deps, env, ownExtraLibs.Keys, r.value.own, r.value.queued)
    ensures r.Ok? ==>
      (r.value.queued == p0.queued && r.value.work == p0.work)
      || |env.build.Values - r.value.queued| < |env.build.Values - p0.queued|
    ensures r.Err? ==>
      && r.error.MissingDependency? && r.error.name in deps
      && r.error.name !in env.base && r.error.name !in OwnNames(elves)
      && r.error.name !in ownExtraLibs && r.error.name !in env.build
    ensures r.Err? ==> FailureJustified(elves, env, r.error)
  {
    var p := p0;
    used := used0;
    for j := 0 to |deps|
      invariant Inv(elves, env, p, done, used, {item})
      invariant item in p.queued
      invariant p.queued == p0.queued ==> p.work == p0.work
      invariant p.queued != p0.queued ==> |env.build.Values - p.queued| < |env.build.Values - p0.queued|
      invariant AllSatisfied(deps[..j], env, ownExtraLibs.Keys, p.own, p.queued)
    {
      var step;
      ghost var used';
      step, used' := ScanDep(elves, env, ownExtraLibs, item, deps[j], p, done, used);
      if step.Err? {
        MissingJustified(elves, env, p, done, used, {item}, item, deps[j]);
        return Err(MissingDependency(deps[j])), used;
      }
      AllSatisfiedGrows(deps, j, env, ownExtraLibs.Keys, p.own, p.queued, step.value.own, step.value.queued);
      p, used := step.value, used';
    }
    assert deps[..|deps|] == deps;
    r := Ok(p);
  }

  predicate AllSatisfied(ds: seq<string>, env: LdEnv, aliases: set<string>, own: set<string>, queued: set<string>)
  {
    forall j :: 0 <= j < |ds| ==> Satisfied(ds[j], env, aliases, own, queued)
  }

  lemma AllSatisfiedGrows(deps: seq<string>, j: nat, env: LdEnv, aliases: set<string>, own: set<string>, queued: set<string>,
                          own': set<string>, queued': set<string>)
    requires j < |deps| && AllSatisfied(deps[..j], env, aliases, own, queued)
    requires own <= own' && queued <= queued' && Satisfied(deps[j], env, aliases, own', queued')
    ensures AllSatisfied(deps[..j + 1], env, aliases, own', queued')
  {
  }

  /** The alias for `d`, not yet taken, is not in the result yet and has an
      input's location. */
  lemma AddAlias(elves: seq<FileEntry>, env: LdEnv, used: set<string>, res: seq<FileEntry>, d: string)
    requires d in SeedAliases(elves, env.canon) && d !in used
    requires SourcedBy(elves, env, used, res)
    ensures SeedAliases(elves, env.canon)[d] !in res
    ensures SeedAliases(elves, env.canon)[d].location in Locations(elves)
  {
    var sa := SeedAliases(elves, env.canon);
    SeedAliasesInjective(elves, env.canon, d, d);
    if sa[d] in res {
      var k :| 0 <= k < |res| && res[k] == sa[d];
      if exists d' :: d' in used && d' in sa && sa[d'] == res[k] {
        var d' :| d' in used && d' in sa && sa[d'] == res[k];
        SeedAliasesInjective(elves, env.canon, d, d');
      }
    }
  }

  lemma InvStart(elves: seq<FileEntry>, env: LdEnv, p: Progress)
    requires p.queued == Locations(elves) && p.res == [] && p.own == OwnNames(elves)
    requires forall k :: 0 <= k < |p.work| ==> p.work[k] in p.queued
    requires forall loc :: loc in p.queued ==> loc in p.work
    ensures Inv(elves, env, p, {}, {}, {})
  {
    assert Locations(p.res) == {};
  }

  /** Popping the top of the stack makes it the file being read. */
  lemma InvPop(elves: seq<FileEntry>, env: LdEnv, p: Progress, done: set<string>, used: set<string>)
    requires Inv(elves, env, p, done, used, {}) && |p.work| > 0
    ensures var item := p.work[|p.work| - 1];
      Inv(elves, env, p.(work := p.work[..|p.work| - 1]), done, used, {item})
      && item in p.queued
  {
    var item := p.work[|p.work| - 1];
    var p' := p.(work := p.work[..|p.work| - 1]);
    forall loc | loc in p.queued ensures loc in done || loc in p'.work || loc in {item} {
      if loc !in done && loc != item {
        StillQueued(p.work, loc);
      }
    }
  }

  /** A path on the stack, other than its top, stays on it once the top is popped. */
  lemma StillQueued(work: seq<string>, loc: string)
    requires loc in work && loc != work[|work| - 1]
    ensures loc in work[..|work| - 1]
  {
    var k :| 0 <= k < |work| && work[k] == loc;
    assert work[..|work| - 1][k] == loc;
  }

  /** Once the file being read has all its needs taken care of, it is done. */
  lemma InvDone(elves: seq<FileEntry>, env: LdEnv, p: Progress, done: set<string>, used: set<string>, item: string)
    requires Inv(elves, env, p, done, used, {item})
    requires ScannedWith(item, env, SeedAliases(elves, env.canon).Keys, p.own, p.queued)
    ensures Inv(elves, env, p, done + {item}, used, {})
  {
  }

  /** With the stack empty, every queued file is done: the result is closed
      and well sourced. */
  lemma InvResult(elves: seq<FileEntry>, env: LdEnv, p: Progress, done: set<string>, used: set<string>)
    requires Inv(elves, env, p, done, used, {}) && |p.work| == 0
    ensures Closed(elves, env, p.res) && WellSourced(elves, env, p.res)
  {
    var res := p.res;
    var sa := SeedAliases(elves, env.canon);
    assert p.own <= Owned(elves, env, res);
    forall loc | loc in Locations(elves) + Locations(res)
      ensures ScannedWith(loc, env, SeedAliases(elves, env.canon).Keys, Owned(elves, env, res), Locations(elves) + Locations(res))
    {
      ScannedWithGrows(loc, env, SeedAliases(elves, env.canon).Keys, p.own, p.queued, Owned(elves, env, res), p.queued);
    }
    InvSourced(elves, env, p, done, used, {});
  }

  /** Under the invariant the result so far is well sourced. */
  lemma InvSourced(elves: seq<FileEntry>, env: LdEnv, p: Progress, done: set<string>, used: set<string>,
                   current: set<string>)
    requires Inv(elves, env, p, done, used, current)
    ensures WellSourced(elves, env, p.res)
  {
    var res := p.res;
    var sa := SeedAliases(elves, env.canon);
    forall k | 0 <= k < |res|
      ensures FromAlias(res[k], elves, env, Before(elves, res, k)) || FromBuildCache(res[k], elves, env, Before(elves, res, k))
    {
      if !FromBuildCache(res[k], elves, env, Before(elves, res, k)) {
        var d :| d in used && d in sa && sa[d] == res[k] && NeededBy(d, env, Before(elves, res, k));
        assert d in sa && sa[d] == res[k] && d !in env.base && d !in OwnNames(elves);
      }
    }
  }

  /** A file on the queue that cannot be read justifies the failure. */
  lemma ReadFailJustified(elves: seq<FileEntry>, env: LdEnv, p: Progress, done: set<string>, used: set<string>,
                          current: set<string>, item: string, e: LdError)
    requires Inv(elves, env, p, done, used, current)
    requires item in p.queued && env.scan(item) == Err(e) && e != NotElf
    ensures FailureJustified(elves, env, e)
  {
    InvSourced(elves, env, p, done, used, current);
    assert FailsAt(elves, env, Locations(elves) + Locations(p.res), e);
  }

  /** A name needed by a file on the queue and found nowhere justifies the failure. */
  lemma MissingJustified(elves: seq<FileEntry>, env: LdEnv, p: Progress, done: set<string>, used: set<string>,
                         current: set<string>, item: string, d: string)
    requires Inv(elves, env, p, done, used, current)
    requires item in p.queued && env.scan(item).Ok? && d in env.scan(item).value
    requires d !in env.base && d !in p.own && d !in SeedAliases(elves, env.canon) && d !in env.build
    ensures d !in OwnNames(elves)
    ensures FailureJustified(elves, env, MissingDependency(d))
  {
    InvSourced(elves, env, p, done, used, current);
    assert FailsAt(elves, env, Locations(elves) + Locations(p.res), MissingDependency(d));
  }

  /** `resolve_deps` once both caches are loaded: a worklist over the
      inputs' files and the libraries they pull in from the build cache. */
  method ResolveDeps(elves: seq<FileEntry>, env: LdEnv) returns (r: Result<seq<FileEntry>, LdError>)
    ensures r.Ok? ==> Closed(elves, env, r.value) && WellSourced(elves, env, r.value)
    ensures r.Err? ==> FailureJustified(elves, env, r.error)
  {
    var p, ownExtraLibs := Seed(elves, env.canon);
    ghost var done: set<string> := {};
    ghost var used: set<string> := {};
    InvStart(elves, env, p);

    while |p.work| > 0
      invariant Inv(elves, env, p, done, used, {})
      decreases |env.build.Values - p.queued|, |p.work|
    {
      var item := p.work[|p.work| - 1];
      InvPop(elves, env, p, done, used);
      var popped := p.(work := p.work[..|p.work| - 1]);
      match env.scan(item) {
        case Ok(deps) =>
          var step;
          step, used := ScanDeps(elves, env, ownExtraLibs, item, deps, popped, done, used);
          if step.Err? {
            return Err(step.error);
          }
          p := step.value;
        case Err(e) =>
          if e != NotElf {
            ReadFailJustified(elves, env, p, done, used, {}, item, e);
            return Err(e);
          }
          p := popped;
      }
      InvDone(elves, env, p, done, used, item);
      done := done + {item};
    }
    InvResult(elves, env, p, done, used);
    return Ok(p.res);
  }

  /** `resolve_deps` as a whole: the target's cache (read from a fixed
      path) and the build host's cache are loaded first, and a failure to
      load either is the result. */
  method ResolveDepsWithCaches(elves: seq<FileEntry>,
                               baseCache: Result<set<string>, LdError>,
                               buildCache: Result<map<string, string>, LdError>,
                               scan: string -> Result<seq<string>, LdError>,
                               canon: string -> Option<string>)
    returns (r: Result<seq<FileEntry>, LdError>)
    ensures baseCache.Err? ==> r == Err(baseCache.error)
    ensures baseCache.Ok? && buildCache.Err? ==> r == Err(buildCache.error)
    ensures baseCache.Ok? && buildCache.Ok? ==>
      var env := LdEnv(scan, baseCache.value, buildCache.value, canon);
      (r.Ok? ==> Closed(elves, env, r.value) && WellSourced(elves, env, r.value))
      && (r.Err? ==> FailureJustified(elves, env, r.error))
  {
    if baseCache.Err? {
      return Err(baseCache.error);
    }
    if buildCache.Err? {
      return Err(buildCache.error);
    }
    r := ResolveDeps(elves, LdEnv(scan, baseCache.value, buildCache.value, canon));
  }
}
