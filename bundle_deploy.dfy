/** `src/bin/bundle-deploy.rs`: the store version given on the command
    line, the size of an archive, and the copy of a bundle that
    `replace_version` writes for the store. */
module BundleDeploy {
  import opened Wrappers
  import opened Strings
  import opened BundleIni

  // =====================================================================
  // parse_version
  // =====================================================================

  const U32Max: nat := 0xFFFF_FFFF

  /** Why `parse_version` refuses its argument: the three errors of
      `u32::from_str`, and the zero it rejects itself. */
  datatype VersionError = Empty | InvalidDigit | PosOverflow | Zero

  predicate IsDigit(c: char)
  {
    '0' <= c <= '9'
  }

  function DigitValue(c: char): nat
    requires IsDigit(c)
  {
    (c - '0') as nat
  }

  predicate AllDigits(s: string)
  {
    forall i :: 0 <= i < |s| ==> IsDigit(s[i])
  }

  function Pow10(k: nat): (p: nat)
    ensures p >= 1
  {
    if k == 0 then 1 else 10 * Pow10(k - 1)
  }

  /** The number a string of decimal digits denotes. */
  function Value(s: string): nat
    requires AllDigits(s)
  {
    if |s| == 0 then 0 else DigitValue(s[0]) * Pow10(|s| - 1) + Value(s[1..])
  }

  /** The digit loop of `u32::from_str`: each character must be a digit,
      and the number so far must stay within 32 bits. */
  function Accumulate(s: string, acc: nat): Result<nat, VersionError>
  {
    if |s| == 0 then Ok(acc)
    else if !IsDigit(s[0]) then Err(InvalidDigit)
    else if acc * 10 + DigitValue(s[0]) > U32Max then Err(PosOverflow)
    else Accumulate(s[1..], acc * 10 + DigitValue(s[0]))
  }

  /** `u32::from_str`: an optional `+`, then at least one digit. */
  function ParseU32(src: string): Result<nat, VersionError>
  {
    if |src| == 0 then Err(Empty)
    else if src[0] == '+' && |src| == 1 then Err(InvalidDigit)
    else Accumulate(if src[0] == '+' then src[1..] else src, 0)
  }

  /** `parse_version`: a 32-bit number other than 0. */
  function ParseVersion(src: string): Result<nat, VersionError>
  {
    match ParseU32(src)
    case Err(e) => Err(e)
    case Ok(v) => if v == 0 then Err(Zero) else Ok(v)
  }

  lemma ShiftDigit(acc: nat, d: nat, k: nat)
    ensures acc * Pow10(k + 1) + d * Pow10(k) == (acc * 10 + d) * Pow10(k)
  {
    calc {
      acc * Pow10(k + 1) + d * Pow10(k);
      acc * (10 * Pow10(k)) + d * Pow10(k);
      { assert acc * (10 * Pow10(k)) == (acc * 10) * Pow10(k); }
      (acc * 10) * Pow10(k) + d * Pow10(k);
    }
  }

  lemma AtLeast(a: nat, p: nat)
    requires p >= 1
    ensures a * p >= a
  {
  }

  /** The digit loop succeeds on digits whose number fits in 32 bits, and
      gives that number; otherwise it reports an overflow. */
  lemma {:induction false} AccumulateValue(s: string, acc: nat)
    requires AllDigits(s) && acc <= U32Max
    ensures Accumulate(s, acc).Ok? <==> acc * Pow10(|s|) + Value(s) <= U32Max
    ensures Accumulate(s, acc).Ok? ==> Accumulate(s, acc).value == acc * Pow10(|s|) + Value(s)
    ensures Accumulate(s, acc).Err? ==> Accumulate(s, acc).error == PosOverflow
    decreases |s|
  {
    if |s| > 0 {
      var d := DigitValue(s[0]);
      var k := |s| - 1;
      var next := acc * 10 + d;
      assert AllDigits(s[1..]) by {
        forall i | 0 <= i < |s[1..]| ensures IsDigit(s[1..][i]) { assert s[1..][i] == s[i + 1]; }
      }
      ShiftDigit(acc, d, k);
      assert acc * Pow10(|s|) + Value(s) == next * Pow10(k) + Value(s[1..]);
      if next > U32Max {
        AtLeast(next, Pow10(k));
      } else {
        AccumulateValue(s[1..], next);
      }
    }
  }

  /** Exactly the strings of digits, with or without a leading `+`, whose
      number is between 1 and 2^32 - 1 are accepted, as that number. */
  lemma ParseVersionAccepts(src: string)
    ensures ParseVersion(src).Ok? <==>
      var digits := if |src| > 0 && src[0] == '+' then src[1..] else src;
      |digits| > 0 && AllDigits(digits) && 1 <= Value(digits) <= U32Max
    ensures ParseVersion(src).Ok? ==>
      var digits := if src[0] == '+' then src[1..] else src;
      ParseVersion(src).value == Value(digits)
  {
    var digits := if |src| > 0 && src[0] == '+' then src[1..] else src;
    if |src| > 0 && !(src[0] == '+' && |src| == 1) {
      if AllDigits(digits) {
        AccumulateValue(digits, 0);
      } else {
        NonDigitRejected(digits, 0);
      }
    }
  }

  lemma {:induction false} NonDigitRejected(s: string, acc: nat)
    requires !AllDigits(s)
    ensures Accumulate(s, acc).Err?
    decreases |s|
  {
    if IsDigit(s[0]) {
      assert !AllDigits(s[1..]) by {
        var i :| 0 <= i < |s| && !IsDigit(s[i]);
        assert s[1..][i - 1] == s[i];
      }
      NonDigitRejected(s[1..], acc * 10 + DigitValue(s[0]));
    }
  }

  /** `u32::to_string`: the decimal digits, without leading zeros. */
  function NatToString(n: nat): (s: string)
    ensures |s| > 0 && AllDigits(s)
    decreases n
  {
    if n < 10 then [('0' as int + n) as char]
    else NatToString(n / 10) + [('0' as int + n % 10) as char]
  }

  lemma AppendDigits(s: string, c: char)
    requires AllDigits(s) && IsDigit(c)
    ensures AllDigits(s + [c])
  {
    var t := s + [c];
    forall i | 0 <= i < |t| ensures IsDigit(t[i]) { if i < |s| { assert t[i] == s[i]; } }
  }

  lemma ShiftValue(a: nat, p: nat, v: nat, c: nat)
    ensures a * (10 * p) + (v * 10 + c) == (a * p + v) * 10 + c
  {
    assert a * (10 * p) == (a * p) * 10;
  }

  lemma {:induction false} ValueAppend(s: string, c: char)
    requires AllDigits(s) && IsDigit(c)
    ensures AllDigits(s + [c]) && Value(s + [c]) == Value(s) * 10 + DigitValue(c)
    decreases |s|
  {
    AppendDigits(s, c);
    if |s| > 0 {
      var t := s + [c];
      assert t[0] == s[0] && t[1..] == s[1..] + [c];
      assert AllDigits(s[1..]) by {
        forall i | 0 <= i < |s[1..]| ensures IsDigit(s[1..][i]) { assert s[1..][i] == s[i + 1]; }
      }
      ValueAppend(s[1..], c);
      var k := |s| - 1;
      assert Value(t) == DigitValue(s[0]) * (10 * Pow10(k)) + (Value(s[1..]) * 10 + DigitValue(c));
      ShiftValue(DigitValue(s[0]), Pow10(k), Value(s[1..]), DigitValue(c));
    }
  }

  lemma {:induction false} NatToStringValue(n: nat)
    ensures Value(NatToString(n)) == n
    decreases n
  {
    if n >= 10 {
      NatToStringValue(n / 10);
      ValueAppend(NatToString(n / 10), ('0' as int + n % 10) as char);
    }
  }

  /** Every store version reads back from its decimal text, with or
      without a `+` in front. */
  lemma VersionRoundTrip(v: nat)
    requires 1 <= v <= U32Max
    ensures ParseVersion(NatToString(v)) == Ok(v)
    ensures ParseVersion("+" + NatToString(v)) == Ok(v)
  {
    var s := NatToString(v);
    NatToStringValue(v);
    assert s[0] != '+';
    assert ("+" + s)[1..] == s;
    ParseVersionAccepts(s);
    ParseVersionAccepts("+" + s);
  }

  /** Zero is refused however it is written, and so is anything beyond 32
      bits. */
  lemma ParseVersionRejects(src: string)
    requires |src| > 0 && src[0] != '+' && AllDigits(src)
    ensures Value(src) == 0 ==> ParseVersion(src) == Err(Zero)
    ensures Value(src) > U32Max ==> ParseVersion(src) == Err(PosOverflow)
  {
    AccumulateValue(src, 0);
  }

  // =====================================================================
  // size_archive
  // =====================================================================

  /** The uncompressed sizes of the entries. */
  function Sum(sizes: seq<nat>): nat
  {
    if |sizes| == 0 then 0 else Sum(sizes[..|sizes| - 1]) + sizes[|sizes| - 1]
  }

  lemma {:induction false} SumConcat(a: seq<nat>, b: seq<nat>)
    ensures Sum(a + b) == Sum(a) + Sum(b)
    decreases |b|
  {
    if |b| == 0 {
      assert a + b == a;
    } else {
      assert (a + b)[..|a + b| - 1] == a + b[..|b| - 1];
      SumConcat(a, b[..|b| - 1]);
    }
  }

  /** The sizes of entries, as far as each entry header reads. */
  function Readable(headers: seq<Option<nat>>): seq<nat>
  {
    if |headers| == 0 || headers[0].None? then [] else [headers[0].value] + Readable(headers[1..])
  }

  /** `size_archive`: the sum of the uncompressed sizes, or the index of
      the first entry whose header cannot be read. */
  method SizeArchive(headers: seq<Option<nat>>) returns (r: Result<nat, nat>)
    ensures r.Ok? <==> forall i :: 0 <= i < |headers| ==> headers[i].Some?
    ensures r.Ok? ==> r.value == Sum(Readable(headers))
    ensures r.Err? ==> r.error < |headers| && headers[r.error].None?
                       && forall i :: 0 <= i < r.error ==> headers[i].Some?
  {
    var uncompressed: nat := 0;
    for i := 0 to |headers|
      invariant forall j :: 0 <= j < i ==> headers[j].Some?
      invariant uncompressed == Sum(Readable(headers[..i]))
    {
      if headers[i].None? {
        return Err(i);
      }
      ReadableNext(headers, i);
      uncompressed := uncompressed + headers[i].value;
    }
    assert headers[..|headers|] == headers;
    r := Ok(uncompressed);
  }

  lemma {:induction false} ReadableNext(headers: seq<Option<nat>>, i: nat)
    requires i < |headers| && forall j :: 0 <= j <= i ==> headers[j].Some?
    ensures Sum(Readable(headers[..i + 1])) == Sum(Readable(headers[..i])) + headers[i].value
  {
    ReadableConcat(headers[..i], [headers[i]]);
    assert headers[..i + 1] == headers[..i] + [headers[i]];
    assert Readable([headers[i]]) == [headers[i].value];
    SumConcat(Readable(headers[..i]), [headers[i].value]);
    assert Sum([headers[i].value]) == headers[i].value;
  }

  lemma {:induction false} ReadableConcat(a: seq<Option<nat>>, b: seq<Option<nat>>)
    requires forall j :: 0 <= j < |a| ==> a[j].Some?
    ensures Readable(a + b) == Readable(a) + Readable(b)
    decreases |a|
  {
    if |a| == 0 {
      assert a + b == b;
    } else {
      assert (a + b)[0] == a[0] && (a + b)[1..] == a[1..] + b;
      ReadableConcat(a[1..], b);
    }
  }

  /** The installation size adds up: the size of two archives' entries
      together is the sum of their sizes. */
  lemma SizeAddsUp(a: seq<Option<nat>>, b: seq<Option<nat>>)
    requires forall j :: 0 <= j < |a| ==> a[j].Some?
    ensures Sum(Readable(a + b)) == Sum(Readable(a)) + Sum(Readable(b))
  {
    ReadableConcat(a, b);
    SumConcat(Readable(a), Readable(b));
  }

  // =====================================================================
  // replace_version
  // =====================================================================

  const DefaultMode: nat := 420  // 0o644
  const LargeFile: nat := 0x1_0000_0000

  /** An entry of the original bundle, as `by_index` reports it. */
  datatype SourceEntry = SourceEntry(
    name: string,
    modified: int,          // last modification time
    compression: int,       // compression method
    mode: Option<nat>,      // unix mode
    size: nat,
    compressedSize: nat,
    headerOk: bool,         // `by_index` succeeds
    dataOk: bool)           // reading its data for the copy succeeds

  /** An entry of the store's copy. */
  datatype OutEntry =
    | Config(config: BundleConfig)
    | Copy(name: string, modified: int, compression: int, mode: nat, largeFile: bool)

  /** The original bundle: its metadata and its entries. */
  datatype Bundle = Bundle(config: BundleConfig, entries: seq<SourceEntry>)

  datatype DeployError =
    | Unreadable                 // the original cannot be opened or its metadata read
    | NoStoreId
    | CannotCreate(path: string)
    | EntryUnreadable(index: nat)

  /** The new archive being written, entry by entry. */
  class StoreWriter {
    var written: seq<OutEntry>

    constructor ()
      ensures written == []
    {
      written := [];
    }

    method Add(e: OutEntry)
      modifies this
      ensures written == old(written) + [e]
    {
      written := written + [e];
    }
  }

  const MetadataName := "bundle.ini"

  /** The original's metadata with the store version as its version. */
  function NewConfig(c: BundleConfig, storeVersion: nat): BundleConfig
  {
    c.(version := Some(NatToString(storeVersion)))
  }

  /** The name of the copy: the store ID and the store version. */
  function NewPath(storeId: string, storeVersion: nat): (p: string)
    ensures EndsWith(p, ".zip") && StartsWith(p, storeId + "_")
  {
    var p := storeId + "_" + NatToString(storeVersion) + ".zip";
    assert p[..|storeId + "_"|] == storeId + "_";
    p
  }

  /** The version shown to store users: the one the bundle had, else the
      store version. */
  function DisplayVersion(c: BundleConfig, storeVersion: nat): string
  {
    c.version.GetOr(NatToString(storeVersion))
  }

  /** An entry as copied: same name, time and compression; mode 0o644 when
      it has none; the large-file flag from its sizes. */
  function CopyOf(e: SourceEntry): OutEntry
  {
    Copy(e.name, e.modified, e.compression, e.mode.GetOr(DefaultMode),
         e.size >= LargeFile || e.compressedSize >= LargeFile)
  }

  /** The loop gets past the entry: `by_index` succeeds, and the entry is
      dropped without its data being read or its data can be read. */
  predicate CopySucceeds(e: SourceEntry)
  {
    e.headerOk && (EndsWith(e.name, MetadataName) || e.dataOk)
  }

  /** What the entry loop writes after the first `n` entries, and whether
      it has stopped at an entry it cannot read. An entry is tested for
      `bundle.ini` only once `by_index` has succeeded, and a copied entry is
      started before its data is read, so a failed data copy leaves the
      started entry behind. */
  function Copies(entries: seq<SourceEntry>, n: nat): (seq<OutEntry>, Result<(), DeployError>)
    requires n <= |entries|
  {
    if n == 0 then ([], Ok(()))
    else
      var (w, r) := Copies(entries, n - 1);
      var e := entries[n - 1];
      if r.Err? then (w, r)
      else if !e.headerOk then (w, Err(EntryUnreadable(n - 1)))
      else if EndsWith(e.name, MetadataName) then (w, r)
      else if !e.dataOk then (w + [CopyOf(e)], Err(EntryUnreadable(n - 1)))
      else (w + [CopyOf(e)], r)
  }

  /** The entries that are copied: all but the metadata, in order. */
  function Kept(entries: seq<SourceEntry>): seq<OutEntry>
  {
    if |entries| == 0 then []
    else (if EndsWith(entries[0].name, MetadataName) then [] else [CopyOf(entries[0])]) + Kept(entries[1..])
  }

  /** What `replace_version` writes, and what it gives back. */
  function ReplaceSpec(original: Option<Bundle>, storeVersion: nat, creatable: string -> bool)
    : (seq<OutEntry>, Result<(string, string), DeployError>)
  {
    match original
    case None => ([], Err(Unreadable))
    case Some(b) =>
      match b.config.storeId
      case None => ([], Err(NoStoreId))
      case Some(id) =>
        var path := NewPath(id, storeVersion);
        if !creatable(path) then ([], Err(CannotCreate(path)))
        else
          var (copies, r) := Copies(b.entries, |b.entries|);
          ([Config(NewConfig(b.config, storeVersion))] + copies,
           if r.Err? then Err(r.error) else Ok((path, DisplayVersion(b.config, storeVersion))))
  }

  lemma CopiesNext(entries: seq<SourceEntry>, n: nat)
    requires n < |entries| && Copies(entries, n).1.Ok?
    ensures !entries[n].headerOk ==> Copies(entries, n + 1) == (Copies(entries, n).0, Err(EntryUnreadable(n)))
    ensures entries[n].headerOk && !CopySucceeds(entries[n]) ==>
      Copies(entries, n + 1) == (Copies(entries, n).0 + [CopyOf(entries[n])], Err(EntryUnreadable(n)))
    ensures CopySucceeds(entries[n]) ==>
      Copies(entries, n + 1).1.Ok? &&
      Copies(entries, n + 1).0 == Copies(entries, n).0 + Kept([entries[n]])
  {
    assert Kept([entries[n]]) == (if EndsWith(entries[n].name, MetadataName) then [] else [CopyOf(entries[n])]) + Kept([]);
  }

  lemma {:induction false} KeptConcat(a: seq<SourceEntry>, b: seq<SourceEntry>)
    ensures Kept(a + b) == Kept(a) + Kept(b)
    decreases |a|
  {
    if |a| == 0 {
      assert a + b == b;
    } else {
      assert (a + b)[0] == a[0] && (a + b)[1..] == a[1..] + b;
      KeptConcat(a[1..], b);
    }
  }

  /** When every entry reads, the loop copies exactly the kept entries. */
  lemma {:induction false} CopiesAreKept(entries: seq<SourceEntry>, n: nat)
    requires n <= |entries| && forall i :: 0 <= i < n ==> CopySucceeds(entries[i])
    ensures Copies(entries, n) == (Kept(entries[..n]), Ok(()))
    decreases n
  {
    if n > 0 {
      CopiesAreKept(entries, n - 1);
      CopiesNext(entries, n - 1);
      assert entries[..n] == entries[..n - 1] + [entries[n - 1]];
      KeptConcat(entries[..n - 1], [entries[n - 1]]);
    }
  }

  /** No entry whose name ends in `bundle.ini` is copied; every other entry
      is, under its own name, with its time and compression, and with mode
      0o644 when it has none. */
  lemma {:induction false} KeptEntries(entries: seq<SourceEntry>)
    ensures forall c :: c in Kept(entries) ==> c.Copy? && !EndsWith(c.name, MetadataName)
    ensures forall e :: e in entries && !EndsWith(e.name, MetadataName) ==> CopyOf(e) in Kept(entries)
    ensures forall e :: e in entries ==> CopyOf(e).mode == (if e.mode.Some? then e.mode.value else DefaultMode)
    decreases |entries|
  {
    if |entries| > 0 {
      KeptEntries(entries[1..]);
      var head := if EndsWith(entries[0].name, MetadataName) then [] else [CopyOf(entries[0])];
      assert Kept(entries) == head + Kept(entries[1..]);
      forall e | e in entries && !EndsWith(e.name, MetadataName) ensures CopyOf(e) in Kept(entries) {
        if e != entries[0] {
          var i :| 0 <= i < |entries| && entries[i] == e;
          assert entries[1..][i - 1] == e;
        }
      }
    }
  }

  /** `replace_version`: the original's metadata with the new version
      comes first, then the copies; a bundle without a store ID, a copy
      that cannot be created or an entry that cannot be read stops it. */
  method ReplaceVersion(original: Option<Bundle>, storeVersion: nat, creatable: string -> bool)
    returns (r: Result<(string, string), DeployError>, w: StoreWriter)
    ensures fresh(w)
    ensures w.written == ReplaceSpec(original, storeVersion, creatable).0
    ensures r == ReplaceSpec(original, storeVersion, creatable).1
  {
    w := new StoreWriter();
    if original.None? {
      return Err(Unreadable), w;
    }
    var b := original.value;
    if b.config.storeId.None? {
      return Err(NoStoreId), w;
    }
    var path := NewPath(b.config.storeId.value, storeVersion);
    if !creatable(path) {
      return Err(CannotCreate(path)), w;
    }
    w.Add(Config(NewConfig(b.config, storeVersion)));
    for index := 0 to |b.entries|
      invariant w.written == [Config(NewConfig(b.config, storeVersion))] + Copies(b.entries, index).0
      invariant Copies(b.entries, index).1.Ok?
    {
      var e := b.entries[index];
      CopiesNext(b.entries, index);
      if !e.headerOk {
        CopiesSticks(b.entries, index + 1, |b.entries|);
        return Err(EntryUnreadable(index)), w;
      }
      if EndsWith(e.name, MetadataName) {
        continue;
      }
      w.Add(CopyOf(e));
      if !e.dataOk {
        CopiesSticks(b.entries, index + 1, |b.entries|);
        return Err(EntryUnreadable(index)), w;
      }
    }
    r := Ok((path, DisplayVersion(b.config, storeVersion)));
  }

  /** A successful copy is named after the store ID and the store version;
      its metadata differs from the original's only in the version, which
      is the store version and reads back as it; it holds every entry but
      the metadata; and the display version is the original's, else the
      store version. */
  lemma ReplacePlan(original: Option<Bundle>, storeVersion: nat, creatable: string -> bool)
    requires 1 <= storeVersion <= U32Max
    ensures ReplaceSpec(original, storeVersion, creatable).1.Ok? <==>
      && original.Some? && original.value.config.storeId.Some?
      && creatable(NewPath(original.value.config.storeId.value, storeVersion))
      && forall i :: 0 <= i < |original.value.entries| ==> CopySucceeds(original.value.entries[i])
    ensures ReplaceSpec(original, storeVersion, creatable).1.Ok? ==>
      var b := original.value;
      var c := NewConfig(b.config, storeVersion);
      && ReplaceSpec(original, storeVersion, creatable) ==
           ([Config(c)] + Kept(b.entries), Ok((NewPath(b.config.storeId.value, storeVersion), DisplayVersion(b.config, storeVersion))))
      && c.(version := b.config.version) == b.config
      && ParseVersion(c.version.value) == Ok(storeVersion)
      && (b.config.version.None? ==> DisplayVersion(b.config, storeVersion) == c.version.value)
    ensures original.Some? && original.value.config.storeId.None? ==>
      ReplaceSpec(original, storeVersion, creatable) == ([], Err(NoStoreId))
  {
    VersionRoundTrip(storeVersion);
    if original.Some? && original.value.config.storeId.Some? {
      var b := original.value;
      var path := NewPath(b.config.storeId.value, storeVersion);
      if creatable(path) {
        if forall i :: 0 <= i < |b.entries| ==> CopySucceeds(b.entries[i]) {
          CopiesAreKept(b.entries, |b.entries|);
          assert b.entries[..|b.entries|] == b.entries;
        } else {
          var i :| 0 <= i < |b.entries| && !CopySucceeds(b.entries[i]);
          CopiesStop(b.entries, i, |b.entries|);
        }
      }
    }
  }

  /** A `bundle.ini` entry whose header reads is skipped whether or not
      its data could be read: the loop goes on with nothing written. */
  lemma MetadataDataNotRead(entries: seq<SourceEntry>, n: nat)
    requires n < |entries| && Copies(entries, n).1.Ok?
    requires entries[n].headerOk && EndsWith(entries[n].name, MetadataName)
    ensures CopySucceeds(entries[n])
    ensures Copies(entries, n + 1) == Copies(entries, n)
  {
  }

  /** Once the loop has stopped, later entries change nothing. */
  lemma {:induction false} CopiesSticks(entries: seq<SourceEntry>, n: nat, m: nat)
    requires n <= m <= |entries| && Copies(entries, n).1.Err?
    ensures Copies(entries, m) == Copies(entries, n)
    decreases m
  {
    if m > n {
      CopiesSticks(entries, n, m - 1);
    }
  }

  /** ... and the loop stops at an entry that cannot be read. */
  lemma CopiesStop(entries: seq<SourceEntry>, i: nat, n: nat)
    requires i < n <= |entries| && !CopySucceeds(entries[i])
    ensures Copies(entries, n).1.Err?
  {
    if Copies(entries, i).1.Err? {
      CopiesSticks(entries, i, n);
    } else {
      CopiesSticks(entries, i + 1, n);
    }
  }

  // =====================================================================
  // the upload form of main
  // =====================================================================

  const DefaultNote := "Automated release."

  /** The text fields of the upload form. */
  datatype Form = Form(
    releaseDate: string,
    packageSize: nat,
    installationSize: nat,
    releaseNote: string,
    additionalReleaseNote: string,
    version: string,
    displayVersion: string,
    bundleId: string)

  datatype FormError = MissingStoreId | MissingVersion

  /** The form `main` fills in for a copy whose metadata reads back as
      `b`; the date is given already formatted. */
  function UploadForm(b: BundleConfig, displayVersion: string, releaseDate: string, packageSize: nat, installationSize: nat,
                      note: Option<string>, additionalNote: Option<string>): Result<Form, FormError>
  {
    if b.storeId.None? then Err(MissingStoreId)
    else if b.version.None? then Err(MissingVersion)
    else Ok(Form(releaseDate, packageSize, installationSize, note.GetOr(DefaultNote), additionalNote.GetOr(DefaultNote),
                 b.version.value, displayVersion, b.storeId.value))
  }

  /** For the copy `replace_version` wrote, the form always fills in: the
      version field is the store version, the bundle ID the store ID, the
      display version the one `replace_version` gave, and a missing release
      note is "Automated release.". */
  lemma UploadOfCopy(c: BundleConfig, storeVersion: nat, releaseDate: string, packageSize: nat, installationSize: nat,
                     note: Option<string>, additionalNote: Option<string>)
    requires c.storeId.Some? && 1 <= storeVersion <= U32Max
    ensures var f := UploadForm(NewConfig(c, storeVersion), DisplayVersion(c, storeVersion), releaseDate,
                                packageSize, installationSize, note, additionalNote);
      && f.Ok?
      && ParseVersion(f.value.version) == Ok(storeVersion)
      && f.value.bundleId == c.storeId.value
      && f.value.displayVersion == DisplayVersion(c, storeVersion)
      && (note.None? ==> f.value.releaseNote == DefaultNote)
      && (additionalNote.None? ==> f.value.additionalReleaseNote == DefaultNote)
  {
    VersionRoundTrip(storeVersion);
  }
}
