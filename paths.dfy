/** Unix path strings as Rust's `std::path` treats them: `Path::join`,
    `Path::file_name`, `Path::parent` and `Path::ancestors`.

    Paths are plain strings. Repeated and trailing separators, and trailing
    `.` segments, are dropped as `Path::components` drops them, so
    `assets/.` has the file name `assets`. A `.` segment inside a path is
    kept as text: `Path` compares such paths by their components, the model
    by their text. */
module Paths {
  import opened Wrappers

  predicate IsAbsolute(p: string)
  {
    |p| > 0 && p[0] == '/'
  }

  /** `base.join(rel)`: an absolute `rel` replaces `base`; otherwise a
      separator is added unless `base` is empty or already ends in one. */
  function Join(base: string, rel: string): string
  {
    if IsAbsolute(rel) then rel
    else if |base| == 0 || base[|base| - 1] == '/' then base + rel
    else base + "/" + rel
  }

  /** `p` without its trailing separators and trailing `.` segments; a
      leading `/` or `.` stays. */
  function StripTrailing(p: string): (q: string)
    ensures |q| <= |p| && q == p[..|q|]
    ensures |p| > 0 ==> |q| > 0
    decreases |p|
  {
    if |p| > 1 && p[|p| - 1] == '/' then StripTrailing(p[..|p| - 1])
    else if |p| > 1 && p[|p| - 1] == '.' && p[|p| - 2] == '/' then StripTrailing(p[..|p| - 1])
    else p
  }

  /** Index of the last separator in `p`, if there is one. */
  function LastSlash(p: string): (r: Option<nat>)
    ensures r.Some? ==> r.value < |p| && p[r.value] == '/'
    ensures r.Some? ==> forall k :: r.value < k < |p| ==> p[k] != '/'
    ensures r.None? ==> forall k :: 0 <= k < |p| ==> p[k] != '/'
    decreases |p|
  {
    if |p| == 0 then None
    else if p[|p| - 1] == '/' then Some(|p| - 1)
    else LastSlash(p[..|p| - 1])
  }

  /** The text of the last segment, once `StripTrailing` has applied. */
  function LastSegment(p: string): (r: string)
    ensures |r| <= |StripTrailing(p)|
    ensures r == StripTrailing(p)[|StripTrailing(p)| - |r|..]
  {
    var q := StripTrailing(p);
    match LastSlash(q)
    case None => q
    case Some(i) => q[i + 1..]
  }

  /** `Path::file_name`: the last segment, unless it is empty, `.` or `..`. */
  function FileName(p: string): (r: Option<string>)
    ensures r.Some? ==> r.value != "" && '/' !in r.value
  {
    var f := LastSegment(p);
    if f == "" || f == "." || f == ".." then None else Some(f)
  }

  /** `Path::parent` for a path that ends in a normal segment: everything
      before that segment, without its trailing separators and `.`
      segments. */
  function Parent(p: string): (r: Option<string>)
    ensures r.Some? ==> |r.value| < |p|
  {
    if FileName(p).None? then None
    else
      var q := StripTrailing(p);
      match LastSlash(q)
      case None => Some("")
      case Some(i) => Some(StripTrailing(q[..if i == 0 then 1 else i]))
  }

  /** `Path::ancestors`: the path itself, then its parent, and so on. */
  function Ancestors(p: string): (r: seq<string>)
    ensures |r| >= 1 && r[0] == p
    decreases |p|
  {
    match Parent(p)
    case None => [p]
    case Some(q) => [p] + Ancestors(q)
  }

  /** A name of one normal segment is its own file name, and its parent
      is the empty path. */
  lemma SegmentParent(s: string)
    requires s != "" && s != "." && s != ".." && '/' !in s
    ensures StripTrailing(s) == s && FileName(s) == Some(s) && Parent(s) == Some("")
  {
    assert s[|s| - 1] in s;
    if |s| > 1 {
      assert s[|s| - 2] in s;
    }
    assert forall k :: 0 <= k < |s| ==> s[k] != '/';
  }

  /** A relative name with no separator, joined below any directory, can be
      read back: joining is one-to-one in the name. */
  lemma JoinNameInjective(base: string, a: string, b: string)
    requires '/' !in a && '/' !in b
    requires Join(base, a) == Join(base, b)
    ensures a == b
  {
    assert !IsAbsolute(a) by { if |a| > 0 { assert a[0] in a; } }
    assert !IsAbsolute(b) by { if |b| > 0 { assert b[0] in b; } }
    if |base| == 0 || base[|base| - 1] == '/' {
      assert base + a == base + b;
      assert a == (base + a)[|base|..];
    } else {
      assert base + "/" + a == base + "/" + b;
      assert a == (base + "/" + a)[|base| + 1..];
    }
  }
}
