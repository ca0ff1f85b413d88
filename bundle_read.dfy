/** `src/bin/bundle-read.rs`: the metadata fields of a bundle as a map from
    field name to values, and what the tool prints for `--field` and
    `--all`. */
module BundleRead {
  import opened Wrappers
  import opened Strings
  import opened BundleIni

  /** `to_cloned_vec` on an optional value: the value as a one-item list. */
  function OptionToVec<T>(o: Option<T>): (r: Option<seq<T>>)
    ensures r.Some? <==> o.Some?
    ensures r.Some? ==> r.value == [o.value]
  {
    match o
    case None => None
    case Some(x) => Some([x])
  }

  /** `to_cloned_vec` on a flag: `["true"]` when set, nothing when not. */
  function FlagToVec(b: bool): (r: Option<seq<string>>)
    ensures r.Some? <==> b
    ensures r.Some? ==> r.value == ["true"]
  {
    if b then Some(["true"]) else None
  }

  /** The launcher tags, unless there are none. */
  function TagsToVec(tags: seq<string>): (r: Option<seq<string>>)
    ensures r.Some? <==> |tags| > 0
    ensures r.Some? ==> r.value == tags
  {
    if |tags| == 0 then None else Some(tags)
  }

  type Field = (string, Option<seq<string>>)

  /** The candidate fields of `bundle_to_map`, in the order it lists them. */
  function Fields(b: BundleConfig): seq<Field>
  {
    [ ("Name", Some([b.name])),
      ("Type", Some([TypeName(b.bundleType)])),
      ("StoreID", OptionToVec(b.storeId)),
      ("HomebrewID", OptionToVec(b.homebrewId)),
      ("Exec", OptionToVec(b.exec)),
      ("EncryptedImage", OptionToVec(b.encryptedImage)),
      ("Version", OptionToVec(b.version)),
      ("Background", FlagToVec(b.background)),
      ("PreferXBoxMode", FlagToVec(b.preferXboxMode)),
      ("Launcher", OptionToVec(b.launcher)),
      ("LauncherTags", TagsToVec(b.launcherTags)),
      ("LauncherExec", OptionToVec(b.launcherExec)) ]
  }

  /** The names of the fields, in the order `bundle_to_map` lists them. */
  const Keys: seq<string> :=
    ["Name", "Type", "StoreID", "HomebrewID", "Exec", "EncryptedImage", "Version",
     "Background", "PreferXBoxMode", "Launcher", "LauncherTags", "LauncherExec"]

  /** The same names in the order a `BTreeMap` keeps them. */
  const SortedKeys: seq<string> :=
    ["Background", "EncryptedImage", "Exec", "HomebrewID", "Launcher", "LauncherExec",
     "LauncherTags", "Name", "PreferXBoxMode", "StoreID", "Type", "Version"]

  /** The fields that have a value, collected into a map (a later field
      with the same name replaces an earlier one, as `BTreeMap::from`
      does). */
  function Present(fields: seq<Field>): map<string, seq<string>>
  {
    if |fields| == 0 then map[]
    else
      var m := Present(fields[..|fields| - 1]);
      var f := fields[|fields| - 1];
      if f.1.Some? then m[f.0 := f.1.value] else m
  }

  /** `bundle_to_map` */
  function BundleToMap(b: BundleConfig): map<string, seq<string>>
  {
    Present(Fields(b))
  }

  /** A field with a value is shown with that value, and one without is
      left out. */
  predicate Shows(m: map<string, seq<string>>, key: string, v: Option<seq<string>>)
  {
    (key in m <==> v.Some?) && (v.Some? ==> m[key] == v.value)
  }

  predicate DistinctNames(fields: seq<Field>)
  {
    forall i, j :: 0 <= i < j < |fields| ==> fields[i].0 != fields[j].0
  }

  /** When no two fields share a name, every field is shown exactly as it
      is, and the map holds nothing else. */
  lemma {:induction false} PresentShows(fields: seq<Field>)
    requires DistinctNames(fields)
    ensures forall i :: 0 <= i < |fields| ==> Shows(Present(fields), fields[i].0, fields[i].1)
    ensures forall k :: k in Present(fields) ==> exists i :: 0 <= i < |fields| && fields[i].0 == k
    decreases |fields|
  {
    if |fields| > 0 {
      var init := fields[..|fields| - 1];
      assert DistinctNames(init) by {
        forall i, j | 0 <= i < j < |init| ensures init[i].0 != init[j].0 {
          assert init[i] == fields[i] && init[j] == fields[j];
        }
      }
      PresentShows(init);
      var last := fields[|fields| - 1];
      forall i | 0 <= i < |fields| ensures Shows(Present(fields), fields[i].0, fields[i].1) {
        if i < |fields| - 1 {
          assert init[i] == fields[i];
          assert fields[i].0 != last.0;
        }
      }
      forall k | k in Present(fields) ensures exists i :: 0 <= i < |fields| && fields[i].0 == k {
        if k != last.0 {
          var i :| 0 <= i < |init| && init[i].0 == k;
          assert fields[i] == init[i];
        }
      }
    }
  }

  lemma KeysDistinct()
    ensures forall i, j :: 0 <= i < j < |Keys| ==> Keys[i] != Keys[j]
  {
  }

  lemma FieldNames(b: BundleConfig)
    ensures |Fields(b)| == |Keys|
    ensures forall i :: 0 <= i < |Keys| ==> Fields(b)[i].0 == Keys[i]
    ensures DistinctNames(Fields(b))
  {
    KeysDistinct();
  }

  /** `bundle_to_map`: the name and the type are always shown; an optional
      value is shown exactly when it is set; a flag is shown, as `true`,
      exactly when it is set; the launcher tags are shown exactly when
      there is at least one. Nothing else is in the map, and no field is
      shown without a value. */
  lemma BundleToMapShows(b: BundleConfig)
    ensures var m := BundleToMap(b);
      && Shows(m, "Name", Some([b.name]))
      && Shows(m, "Type", Some([TypeName(b.bundleType)]))
      && Shows(m, "StoreID", OptionToVec(b.storeId))
      && Shows(m, "HomebrewID", OptionToVec(b.homebrewId))
      && Shows(m, "Exec", OptionToVec(b.exec))
      && Shows(m, "EncryptedImage", OptionToVec(b.encryptedImage))
      && Shows(m, "Version", OptionToVec(b.version))
      && Shows(m, "Background", FlagToVec(b.background))
      && Shows(m, "PreferXBoxMode", FlagToVec(b.preferXboxMode))
      && Shows(m, "Launcher", OptionToVec(b.launcher))
      && Shows(m, "LauncherTags", TagsToVec(b.launcherTags))
      && Shows(m, "LauncherExec", OptionToVec(b.launcherExec))
  {
    var fields := Fields(b);
    FieldNames(b);
    PresentShows(fields);
    assert Shows(BundleToMap(b), fields[0].0, fields[0].1);
    assert Shows(BundleToMap(b), fields[1].0, fields[1].1);
    assert Shows(BundleToMap(b), fields[2].0, fields[2].1);
    assert Shows(BundleToMap(b), fields[3].0, fields[3].1);
    assert Shows(BundleToMap(b), fields[4].0, fields[4].1);
    assert Shows(BundleToMap(b), fields[5].0, fields[5].1);
    assert Shows(BundleToMap(b), fields[6].0, fields[6].1);
    assert Shows(BundleToMap(b), fields[7].0, fields[7].1);
    assert Shows(BundleToMap(b), fields[8].0, fields[8].1);
    assert Shows(BundleToMap(b), fields[9].0, fields[9].1);
    assert Shows(BundleToMap(b), fields[10].0, fields[10].1);
    assert Shows(BundleToMap(b), fields[11].0, fields[11].1);
  }

  /** ... and nothing else is in the map, and no field is shown without a
      value. */
  lemma BundleToMapDomain(b: BundleConfig)
    ensures forall k :: k in BundleToMap(b) ==> k in Keys && |BundleToMap(b)[k]| > 0
  {
    var fields := Fields(b);
    FieldNames(b);
    FieldValuesNonEmpty(b);
    PresentShows(fields);
    forall k | k in BundleToMap(b) ensures k in Keys && |BundleToMap(b)[k]| > 0 {
      var i :| 0 <= i < |fields| && fields[i].0 == k;
      assert Keys[i] == k;
      assert Shows(BundleToMap(b), fields[i].0, fields[i].1);
    }
  }

  lemma FieldValuesNonEmpty(b: BundleConfig)
    ensures forall i :: 0 <= i < |Fields(b)| && Fields(b)[i].1.Some? ==> |Fields(b)[i].1.value| > 0
  {
  }

  /** `SortedKeys` is `Keys` in the order a `BTreeMap` iterates them. */
  lemma SortedKeysOrder()
    ensures StrictlySorted(SortedKeys)
    ensures forall k :: k in SortedKeys <==> k in Keys
  {
    var s := SortedKeys;
    SortedKeysAscendLow();
    SortedKeysAscendMiddle();
    SortedKeysAscendHigh();
    forall i, j | 0 <= i < j < |s| ensures Less(s[i], s[j]) {
      AscendingFrom(s, i, j);
    }
  }

  /** Two keys that agree on their first `n` characters are ordered by
      the next one, or the shorter comes first. */
  lemma {:induction false} LessAfter(a: string, b: string, n: nat)
    requires n <= |a| && n < |b| && a[..n] == b[..n]
    requires n == |a| || a[n] < b[n]
    ensures Less(a, b)
    decreases n
  {
    if n > 0 {
      assert a[0] == a[..n][0] == b[..n][0] == b[0];
      assert a[1..][..n - 1] == a[1..n] == b[1..n] == b[1..][..n - 1];
      LessAfter(a[1..], b[1..], n - 1);
    }
  }

  lemma LauncherBeforeLauncherExec()
    ensures Less("Launcher", "LauncherExec")
  {
    LessAfter("Launcher", "LauncherExec", 8);
  }

  lemma LauncherExecBeforeLauncherTags()
    ensures Less("LauncherExec", "LauncherTags")
  {
    LessAfter("LauncherExec", "LauncherTags", 8);
  }

  lemma SortedKeysAscendLow()
    ensures forall i :: 0 <= i < 4 ==> Less(SortedKeys[i], SortedKeys[i + 1])
  {
    assert Less("Background", "EncryptedImage");
    assert Less("EncryptedImage", "Exec");
    assert Less("Exec", "HomebrewID");
    assert Less("HomebrewID", "Launcher");
  }

  lemma SortedKeysAscendMiddle()
    ensures Less(SortedKeys[4], SortedKeys[5]) && Less(SortedKeys[5], SortedKeys[6])
  {
    assert SortedKeys[4] == "Launcher" && SortedKeys[5] == "LauncherExec" && SortedKeys[6] == "LauncherTags";
    LauncherBeforeLauncherExec();
    LauncherExecBeforeLauncherTags();
  }

  lemma SortedKeysAscendHigh()
    ensures forall i :: 6 <= i < |SortedKeys| - 1 ==> Less(SortedKeys[i], SortedKeys[i + 1])
  {
    assert Less("LauncherTags", "Name");
    assert Less("Name", "PreferXBoxMode");
    assert Less("PreferXBoxMode", "StoreID");
    assert Less("StoreID", "Type");
    assert Less("Type", "Version");
  }

  lemma {:induction false} AscendingFrom(s: seq<string>, i: nat, j: nat)
    requires i < j < |s|
    requires forall k :: 0 <= k < |s| - 1 ==> Less(s[k], s[k + 1])
    ensures Less(s[i], s[j])
    decreases j - i
  {
    if j > i + 1 {
      AscendingFrom(s, i + 1, j);
      LessTransitive(s[i], s[i + 1], s[j]);
    }
  }

  // ---- main -------------------------------------------------------------

  /** What `bundle-read` prints on its standard output, and its exit status. */
  datatype Output = Output(lines: seq<string>, status: int)

  function Indent(items: seq<string>): seq<string>
  {
    seq(|items|, i requires 0 <= i < |items| => "  " + items[i])
  }

  /** `--all`: for each field present, in key order, a header line and one
      indented line per value. */
  function Listing(m: map<string, seq<string>>, keys: seq<string>): seq<string>
  {
    if |keys| == 0 then []
    else (if keys[0] in m then [keys[0] + ":"] + Indent(m[keys[0]]) else []) + Listing(m, keys[1..])
  }

  /** `main`, given the bundle's metadata (`None` when the bundle could not
      be opened or its metadata read): `--all` wins over `--field`; an
      unknown or absent field ends with status 1; neither prints nothing. */
  function Main(read: Option<BundleConfig>, all: bool, field: Option<string>): Output
  {
    match read
    case None => Output([], 1)
    case Some(b) =>
      var m := BundleToMap(b);
      if all then Output(Listing(m, SortedKeys), 0)
      else if field.None? then Output([], 0)
      else if field.value in m then Output(m[field.value], 0)
      else Output([], 1)
  }

  /** No line of a listing that starts with a blank is a header. */
  lemma {:induction false} ListingHeaders(m: map<string, seq<string>>, keys: seq<string>, k: string)
    requires |k| > 0 && k[0] != ' '
    ensures (k + ":") in Listing(m, keys) <==> k in keys && k in m
    decreases |keys|
  {
    if |keys| > 0 {
      ListingHeaders(m, keys[1..], k);
      var here := if keys[0] in m then [keys[0] + ":"] + Indent(m[keys[0]]) else [];
      assert Listing(m, keys) == here + Listing(m, keys[1..]);
      if keys[0] in m {
        forall i | 0 <= i < |m[keys[0]]| ensures Indent(m[keys[0]])[i] != k + ":" {
          assert Indent(m[keys[0]])[i][0] == ' ' && (k + ":")[0] == k[0];
        }
        if keys[0] + ":" == k + ":" {
          assert keys[0] == (keys[0] + ":")[..|keys[0]|];
        }
      }
    }
  }

  /** Somewhere in `lines` the header of field `k` is followed at once by
      its values, one indented line each. */
  ghost predicate HasBlock(lines: seq<string>, k: string, values: seq<string>)
  {
    exists i :: BlockAt(lines, i, k, values)
  }

  /** The header of field `k` is line `i` and its values follow it. */
  predicate BlockAt(lines: seq<string>, i: int, k: string, values: seq<string>)
  {
    0 <= i && i + 1 + |values| <= |lines| && lines[i..i + 1 + |values|] == [k + ":"] + Indent(values)
  }

  /** A listing holds each present field's header directly followed by its
      values. */
  lemma {:induction false} ListingBlock(m: map<string, seq<string>>, keys: seq<string>, k: string)
    requires k in keys && k in m
    ensures HasBlock(Listing(m, keys), k, m[k])
    decreases |keys|
  {
    var here := if keys[0] in m then [keys[0] + ":"] + Indent(m[keys[0]]) else [];
    var rest := Listing(m, keys[1..]);
    assert Listing(m, keys) == here + rest;
    var block := [k + ":"] + Indent(m[k]);
    if keys[0] == k {
      assert (here + rest)[0..|block|] == block;
      assert BlockAt(Listing(m, keys), 0, k, m[k]);
    } else {
      ListingBlock(m, keys[1..], k);
      var i :| BlockAt(rest, i, k, m[k]);
      assert (here + rest)[|here| + i..|here| + i + 1 + |m[k]|] == rest[i..i + 1 + |m[k]|];
      assert BlockAt(Listing(m, keys), |here| + i, k, m[k]);
    }
  }

  /** `--all` shows a header for a field exactly when the field has a
      value. */
  lemma AllShowsPresentFields(b: BundleConfig, k: string)
    requires k in Keys
    ensures var out := Main(Some(b), true, None);
      && out.status == 0 && ((k + ":") in out.lines <==> k in BundleToMap(b))
      && (k in BundleToMap(b) ==> HasBlock(out.lines, k, BundleToMap(b)[k]))
  {
    SortedKeysOrder();
    ListingHeaders(BundleToMap(b), SortedKeys, k);
    if k in BundleToMap(b) {
      ListingBlock(BundleToMap(b), SortedKeys, k);
    }
  }

  /** `--field` prints the values of a field one per line; the name, the
      type and the launcher tags are printed as they are, and a field that
      does not exist, or has no value, ends with status 1. */
  lemma FieldQuery(b: BundleConfig, f: string)
    ensures var out := Main(Some(b), false, Some(f));
      && (out.status == 0 <==> f in BundleToMap(b))
      && (f !in Keys ==> out == Output([], 1))
      && (f == "Name" ==> out == Output([b.name], 0))
      && (f == "Type" ==> out == Output([TypeName(b.bundleType)], 0))
      && (f == "Version" && b.version.Some? ==> out == Output([b.version.value], 0))
      && (f == "LauncherTags" ==> out == (if |b.launcherTags| == 0 then Output([], 1) else Output(b.launcherTags, 0)))
  {
    BundleToMapShows(b);
    BundleToMapDomain(b);
  }

  /** Without `--all` and `--field` nothing is printed and the tool
      succeeds; a bundle that cannot be read fails whatever is asked. */
  lemma NoQuery(read: Option<BundleConfig>, all: bool, field: Option<string>)
    ensures read.Some? && !all && field.None? ==> Main(read, all, field) == Output([], 0)
    ensures read.None? ==> Main(read, all, field).status == 1
  {
  }
}
