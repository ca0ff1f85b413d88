/** Text operations of Rust's standard library that the bundle tools rely on:
    the ordering of `String` keys in a `BTreeMap`, `str::split` with
    `join`, `str::ends_with` and `str::trim`. */
module Strings {

  // ---------------------------------------------------------------------
  // Ordering: `String`'s `Ord` compares the UTF-8 bytes, which orders
  // strings exactly as comparing their code points one by one does.
  // ---------------------------------------------------------------------

  predicate Less(a: string, b: string)
    decreases |a|
  {
    if |a| == 0 then |b| > 0
    else if |b| == 0 then false
    else if a[0] != b[0] then a[0] < b[0]
    else Less(a[1..], b[1..])
  }

  lemma {:induction false} LessIrreflexive(a: string)
    ensures !Less(a, a)
    decreases |a|
  {
    if |a| > 0 {
      LessIrreflexive(a[1..]);
    }
  }

  lemma {:induction false} LessTransitive(a: string, b: string, c: string)
    requires Less(a, b) && Less(b, c)
    ensures Less(a, c)
    decreases |a|
  {
    if |a| > 0 && a[0] == b[0] && b[0] == c[0] {
      LessTransitive(a[1..], b[1..], c[1..]);
    }
  }

  /** Any two different strings are ordered one way or the other. */
  lemma {:induction false} LessTotal(a: string, b: string)
    requires a != b
    ensures Less(a, b) || Less(b, a)
    decreases |a|
  {
    if |a| > 0 && |b| > 0 && a[0] == b[0] {
      assert a == [a[0]] + a[1..] && b == [b[0]] + b[1..];
      LessTotal(a[1..], b[1..]);
    }
  }

  lemma {:induction false} LessAsymmetric(a: string, b: string)
    requires Less(a, b)
    ensures !Less(b, a)
    decreases |a|
  {
    if |a| > 0 && |b| > 0 && a[0] == b[0] {
      LessAsymmetric(a[1..], b[1..]);
    }
  }

  predicate StrictlySorted(keys: seq<string>)
  {
    forall i, j :: 0 <= i < j < |keys| ==> Less(keys[i], keys[j])
  }

  // ---------------------------------------------------------------------
  // `str::ends_with`
  // ---------------------------------------------------------------------

  predicate EndsWith(s: string, suffix: string)
  {
    |suffix| <= |s| && s[|s| - |suffix|..] == suffix
  }

  predicate StartsWith(s: string, prefix: string)
  {
    |prefix| <= |s| && s[..|prefix|] == prefix
  }

  // ---------------------------------------------------------------------
  // `str::split(sep)` and `[String]::join(sep)`
  // ---------------------------------------------------------------------

  /** The pieces of `s` between occurrences of `sep`; like Rust's split,
      there is always at least one piece. */
  function Split(s: string, sep: char): (chunks: seq<string>)
    ensures |chunks| >= 1
    decreases |s|
  {
    if |s| == 0 then [""]
    else
      var rest := Split(s[1..], sep);
      if s[0] == sep then [""] + rest
      else [[s[0]] + rest[0]] + rest[1..]
  }

  function JoinWith(chunks: seq<string>, sep: char): string
  {
    if |chunks| == 0 then ""
    else if |chunks| == 1 then chunks[0]
    else chunks[0] + [sep] + JoinWith(chunks[1..], sep)
  }

  /** `k` is `s` itself, or a proper prefix of `s` that ends just before an
      occurrence of `sep`. */
  predicate IsSepPrefix(k: string, s: string, sep: char)
  {
    k == s || (|k| < |s| && s[..|k|] == k && s[|k|] == sep)
  }

  lemma JoinAfterSep(rest: seq<string>, sep: char, i: nat)
    requires 1 <= i <= |rest|
    ensures JoinWith(([""] + rest)[..i + 1], sep) == [sep] + JoinWith(rest[..i], sep)
  {
    assert ([""] + rest)[..i + 1] == [""] + rest[..i];
    assert ([""] + rest[..i])[1..] == rest[..i];
  }

  lemma {:induction false} JoinAfterChar(c: char, rest: seq<string>, sep: char, i: nat)
    requires 1 <= i <= |rest|
    ensures JoinWith(([[c] + rest[0]] + rest[1..])[..i], sep) == [c] + JoinWith(rest[..i], sep)
  {
    var chunks := [[c] + rest[0]] + rest[1..];
    if i > 1 {
      assert chunks[..i][1..] == rest[..i][1..];
      assert JoinWith(chunks[..i], sep) == [c] + rest[0] + [sep] + JoinWith(rest[..i][1..], sep);
    }
  }

  /** Joining the first i pieces gives a prefix ending at a separator (or s). */
  lemma {:induction false} JoinedPiecesArePrefixes(s: string, sep: char, i: nat)
    requires 1 <= i <= |Split(s, sep)|
    ensures IsSepPrefix(JoinWith(Split(s, sep)[..i], sep), s, sep)
    decreases |s|
  {
    if |s| > 0 {
      var rest := Split(s[1..], sep);
      if s[0] == sep {
        if i > 1 {
          JoinedPiecesArePrefixes(s[1..], sep, i - 1);
          JoinAfterSep(rest, sep, i - 1);
          assert s == [sep] + s[1..];
        }
      } else {
        JoinedPiecesArePrefixes(s[1..], sep, i);
        JoinAfterChar(s[0], rest, sep, i);
        assert s == [s[0]] + s[1..];
      }
    }
  }

  /** Conversely every separator-ended prefix is the join of some first pieces. */
  lemma {:induction false} PrefixesAreJoinedPieces(s: string, sep: char, k: string)
    requires IsSepPrefix(k, s, sep)
    ensures exists i :: 1 <= i <= |Split(s, sep)| && k == JoinWith(Split(s, sep)[..i], sep)
    decreases |s|
  {
    var chunks := Split(s, sep);
    if |s| == 0 {
      assert k == JoinWith(chunks[..1], sep);
    } else {
      var rest := Split(s[1..], sep);
      assert s == [s[0]] + s[1..];
      if |k| == 0 {
        assert s[0] == sep;
        assert k == JoinWith(chunks[..1], sep);
      } else {
        var k' := k[1..];
        assert k == [s[0]] + k';
        assert IsSepPrefix(k', s[1..], sep) by {
          if k != s {
            assert s[1..][..|k'|] == k';
          }
        }
        PrefixesAreJoinedPieces(s[1..], sep, k');
        var i' :| 1 <= i' <= |rest| && k' == JoinWith(rest[..i'], sep);
        if s[0] == sep {
          JoinAfterSep(rest, sep, i');
          assert k == JoinWith(chunks[..i' + 1], sep);
        } else {
          JoinAfterChar(s[0], rest, sep, i');
          assert k == JoinWith(chunks[..i'], sep);
        }
      }
    }
  }

  /** The separator-prefixes of `s` are exactly the joins of its first pieces. */
  lemma SepPrefixes(s: string, sep: char, k: string)
    ensures IsSepPrefix(k, s, sep) <==>
      exists i :: 1 <= i <= |Split(s, sep)| && k == JoinWith(Split(s, sep)[..i], sep)
  {
    if IsSepPrefix(k, s, sep) {
      PrefixesAreJoinedPieces(s, sep, k);
    }
    if exists i :: 1 <= i <= |Split(s, sep)| && k == JoinWith(Split(s, sep)[..i], sep) {
      var i :| 1 <= i <= |Split(s, sep)| && k == JoinWith(Split(s, sep)[..i], sep);
      JoinedPiecesArePrefixes(s, sep, i);
    }
  }

  // ---------------------------------------------------------------------
  // `str::trim`: removes leading and trailing characters with the Unicode
  // White_Space property.
  // ---------------------------------------------------------------------

  predicate IsWhiteSpace(c: char)
  {
    ('\U{9}' <= c <= '\U{D}') || c == ' ' || c == '\U{85}' || c == '\U{A0}'
    || c == '\U{1680}' || ('\U{2000}' <= c <= '\U{200A}') || c == '\U{2028}'
    || c == '\U{2029}' || c == '\U{202F}' || c == '\U{205F}' || c == '\U{3000}'
  }

  predicate AllWhiteSpace(s: string)
  {
    forall i :: 0 <= i < |s| ==> IsWhiteSpace(s[i])
  }

  function TrimStart(s: string): string
  {
    if |s| > 0 && IsWhiteSpace(s[0]) then TrimStart(s[1..]) else s
  }

  function TrimEnd(s: string): string
  {
    if |s| > 0 && IsWhiteSpace(s[|s| - 1]) then TrimEnd(s[..|s| - 1]) else s
  }

  function Trim(s: string): string
  {
    TrimEnd(TrimStart(s))
  }

  lemma {:induction false} TrimStartSplits(s: string)
    ensures var t := TrimStart(s);
      |t| <= |s| && s == s[..|s| - |t|] + t && AllWhiteSpace(s[..|s| - |t|])
      && (|t| > 0 ==> !IsWhiteSpace(t[0]))
    decreases |s|
  {
    if |s| > 0 && IsWhiteSpace(s[0]) {
      TrimStartSplits(s[1..]);
      var t := TrimStart(s[1..]);
      assert s[..|s| - |t|] == [s[0]] + s[1..][..|s| - 1 - |t|];
    }
  }

  lemma {:induction false} TrimEndSplits(s: string)
    ensures var t := TrimEnd(s);
      |t| <= |s| && s == t + s[|t|..] && AllWhiteSpace(s[|t|..])
      && (|t| > 0 ==> !IsWhiteSpace(t[|t| - 1]))
    decreases |s|
  {
    if |s| > 0 && IsWhiteSpace(s[|s| - 1]) {
      var s' := s[..|s| - 1];
      TrimEndSplits(s');
      var t := TrimEnd(s');
      assert s[|t|..] == s'[|t|..] + [s[|s| - 1]];
      assert s == s' + [s[|s| - 1]];
    }
  }

  /** Text that is all white space trims away entirely. */
  lemma {:induction false} TrimStartAllWhiteSpace(s: string)
    requires AllWhiteSpace(s)
    ensures TrimStart(s) == "" && Trim(s) == ""
    decreases |s|
  {
    if |s| > 0 {
      assert AllWhiteSpace(s[1..]) by {
        forall i | 0 <= i < |s| - 1 ensures IsWhiteSpace(s[1..][i]) {
          assert s[1..][i] == s[i + 1];
        }
      }
      TrimStartAllWhiteSpace(s[1..]);
    }
  }

  lemma {:induction false} TrimEndKeepsStart(s: string)
    requires |s| > 0 && !IsWhiteSpace(s[0])
    ensures |TrimEnd(s)| > 0 && TrimEnd(s)[0] == s[0]
    decreases |s|
  {
    if IsWhiteSpace(s[|s| - 1]) {
      TrimEndKeepsStart(s[..|s| - 1]);
    }
  }

  lemma TrimBounds(s: string) returns (lead: nat)
    ensures lead + |Trim(s)| <= |s| && s[lead..lead + |Trim(s)|] == Trim(s)
    ensures lead == |s| - |TrimStart(s)| && AllWhiteSpace(s[..lead])
    ensures s[lead + |Trim(s)|..] == TrimStart(s)[|Trim(s)|..]
  {
    var t := TrimStart(s);
    TrimStartSplits(s);
    TrimEndSplits(t);
    lead := |s| - |t|;
    assert s[lead..] == t;
    assert s[lead..lead + |Trim(s)|] == t[..|Trim(s)|];
  }

  /** The trimmed text is the original with only white space removed, at the
      two ends: neither end of the result is white space, and the interior
      is unchanged. */
  lemma TrimIsInfix(s: string)
    ensures var r := Trim(s);
      exists lead: nat :: lead + |r| <= |s| && s[lead..lead + |r|] == r
        && AllWhiteSpace(s[..lead]) && AllWhiteSpace(s[lead + |r|..])
    ensures |Trim(s)| > 0 ==> !IsWhiteSpace(Trim(s)[0]) && !IsWhiteSpace(Trim(s)[|Trim(s)| - 1])
  {
    var lead := TrimBounds(s);
    TrimStartSplits(s);
    TrimEndSplits(TrimStart(s));
    if |Trim(s)| > 0 {
      TrimEndKeepsStart(TrimStart(s));
    }
  }

  /** Trimming twice changes nothing more. */
  lemma TrimIdempotent(s: string)
    ensures Trim(Trim(s)) == Trim(s)
  {
    TrimIsInfix(s);
    var r := Trim(s);
    if |r| > 0 {
      assert TrimStart(r) == r;
      assert TrimEnd(r) == r;
    }
  }
}
