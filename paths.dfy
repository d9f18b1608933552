/**
 * Path normalisation (`get_filename`, `get_internal_filename`).
 *
 * The source calls Python's `str.strip('/build/builddir/BUILD')`, which removes
 * every leading and trailing character that occurs in that argument; it does not
 * remove a prefix. The model reproduces that, and `os.path.join` as POSIX defines it.
 */
module Paths {
  import opened Wrappers
  import opened Firehose
  import opened Seqs

  /** The argument the source passes to `strip`. */
  const StripArgument: string := "/build/builddir/BUILD"

  /** The characters `strip` removes: those of its argument, whose order and repetitions do not matter. */
  const BuildRootChars: set<char> := {'/', 'b', 'u', 'i', 'l', 'd', 'r', 'B', 'U', 'I', 'L', 'D'}

  /** The error `os.path.join()` raises when it is given no component. */
  datatype PathError = NothingToJoin

  lemma BuildRootCharSet()
    ensures forall c :: c in StripArgument <==> c in BuildRootChars
  {
    forall c | c in BuildRootChars ensures c in StripArgument {
      if c == 'r' { assert StripArgument[14] == c; }
      else if c == 'B' { assert StripArgument[16] == c; }
      else if c == 'U' { assert StripArgument[17] == c; }
      else if c == 'I' { assert StripArgument[18] == c; }
      else if c == 'L' { assert StripArgument[19] == c; }
      else if c == 'D' { assert StripArgument[20] == c; }
      else if c == '/' { assert StripArgument[0] == c; }
      else if c == 'b' { assert StripArgument[1] == c; }
      else if c == 'u' { assert StripArgument[2] == c; }
      else if c == 'i' { assert StripArgument[3] == c; }
      else if c == 'l' { assert StripArgument[4] == c; }
      else { assert StripArgument[5] == c; }
    }
  }

  /** `s.lstrip(cs)`: drops the longest prefix made of characters of `cs`. */
  function LStrip(s: string, cs: set<char>): (r: string)
    ensures |r| <= |s| && r == s[|s| - |r|..]
    ensures forall k :: 0 <= k < |s| - |r| ==> s[k] in cs
    ensures r == [] || r[0] !in cs
  {
    if s != [] && s[0] in cs then LStrip(s[1..], cs) else s
  }

  /** `s.rstrip(cs)`: drops the longest suffix made of characters of `cs`. */
  function RStrip(s: string, cs: set<char>): (r: string)
    ensures |r| <= |s| && r == s[..|r|]
    ensures forall k :: |r| <= k < |s| ==> s[k] in cs
    ensures r == [] || r[|r| - 1] !in cs
  {
    if s != [] && s[|s| - 1] in cs then RStrip(s[..|s| - 1], cs) else s
  }

  /** `s.strip(cs)`. */
  function Strip(s: string, cs: set<char>): (r: string)
    ensures |r| <= |s|
    ensures r == [] || (r[0] !in cs && r[|r| - 1] !in cs)
  {
    RStrip(LStrip(s, cs), cs)
  }

  /**
   * `r` is what remains of `s` once the first `i` characters and everything after `r`
   * are cut, both cut runs consisting of `cs` characters and `r` neither starting nor
   * ending with one.
   */
  ghost predicate IsStripAt(r: string, s: string, cs: set<char>, i: nat)
  {
    && i + |r| <= |s| && r == s[i..i + |r|]
    && (forall k :: 0 <= k < i ==> s[k] in cs)
    && (forall k :: i + |r| <= k < |s| ==> s[k] in cs)
    && (r == [] || (r[0] !in cs && r[|r| - 1] !in cs))
  }

  /** `r` is what remains of `s` once maximal runs of `cs` characters are cut from both ends. */
  ghost predicate IsStripOf(r: string, s: string, cs: set<char>)
  {
    exists i: nat :: IsStripAt(r, s, cs, i)
  }

  lemma {:induction false} LStripAt(s: string, cs: set<char>, i: nat)
    requires i <= |s|
    requires forall k :: 0 <= k < i ==> s[k] in cs
    requires i == |s| || s[i] !in cs
    ensures LStrip(s, cs) == s[i..]
  {
    if i > 0 {
      LStripAt(s[1..], cs, i - 1);
    }
  }

  lemma {:induction false} RStripAt(s: string, cs: set<char>, j: nat)
    requires j <= |s|
    requires forall k :: j <= k < |s| ==> s[k] in cs
    requires j == 0 || s[j - 1] !in cs
    ensures RStrip(s, cs) == s[..j]
  {
    if j < |s| {
      assert s[..|s| - 1][..j] == s[..j];
      RStripAt(s[..|s| - 1], cs, j);
    }
  }

  /** `strip` has exactly one possible result, and it is the one described by `IsStripOf`. */
  lemma StripCharacterization(s: string, cs: set<char>, r: string)
    ensures r == Strip(s, cs) <==> IsStripOf(r, s, cs)
  {
    StripIsStripOf(s, cs);
    if IsStripOf(r, s, cs) {
      var i: nat :| IsStripAt(r, s, cs, i);
      StripUnique(s, cs, r, i);
    }
  }

  lemma StripIsStripOf(s: string, cs: set<char>)
    ensures IsStripAt(Strip(s, cs), s, cs, |s| - |LStrip(s, cs)|)
  {
    var l := LStrip(s, cs);
    StripOfParts(s, cs, l, RStrip(l, cs));
  }

  /** The two halves of `strip`, stated by what `LStrip` and `RStrip` promise of `l` and `t`. */
  lemma StripOfParts(s: string, cs: set<char>, l: string, t: string)
    requires |l| <= |s| && l == s[|s| - |l|..]
    requires forall k :: 0 <= k < |s| - |l| ==> s[k] in cs
    requires l == [] || l[0] !in cs
    requires |t| <= |l| && t == l[..|t|]
    requires forall k :: |t| <= k < |l| ==> l[k] in cs
    requires t == [] || t[|t| - 1] !in cs
    ensures IsStripAt(t, s, cs, |s| - |l|)
  {
    var i := |s| - |l|;
    assert t == s[i..i + |t|];
    forall k | i + |t| <= k < |s| ensures s[k] in cs {
      assert s[k] == l[k - i];
    }
    if t != [] {
      assert t[0] == l[0];
    }
  }

  lemma StripUnique(s: string, cs: set<char>, r: string, i: nat)
    requires IsStripAt(r, s, cs, i)
    ensures r == Strip(s, cs)
  {
    if r == [] {
      forall k | 0 <= k < |s| ensures s[k] in cs {
        if k >= i {
          assert i + |r| <= k;
        }
      }
      LStripAt(s, cs, |s|);
    } else {
      StripUniqueNonEmpty(s, cs, r, i);
    }
  }

  lemma StripUniqueNonEmpty(s: string, cs: set<char>, r: string, i: nat)
    requires IsStripAt(r, s, cs, i) && r != []
    ensures r == Strip(s, cs)
  {
    assert s[i] == r[0];
    LStripAt(s, cs, i);
    var l := s[i..];
    assert l[..|r|] == r;
    assert l[|r| - 1] == r[|r| - 1];
    forall k | |r| <= k < |l| ensures l[k] in cs {
      assert l[k] == s[i + k];
    }
    RStripAt(l, cs, |r|);
  }

  /** `s.split('/')`: the pieces between slashes, empty ones included. */
  function Split(s: string): (parts: seq<string>)
    ensures |parts| >= 1
    ensures forall k :: 0 <= k < |parts| ==> '/' !in parts[k]
    ensures |parts| == 1 <==> '/' !in s
  {
    if s == [] then [[]]
    else
      var rest := Split(s[1..]);
      if s[0] == '/' then [[]] + rest
      else
        assert '/' in s[1..] ==> '/' in s;
        assert '/' in s ==> s[0] == '/' || '/' in s[1..];
        [[s[0]] + rest[0]] + rest[1..]
  }

  /** `'/'.join(parts)`. */
  function JoinSlash(parts: seq<string>): string
    requires |parts| >= 1
  {
    if |parts| == 1 then parts[0] else parts[0] + "/" + JoinSlash(parts[1..])
  }

  lemma {:induction false} JoinSplit(s: string)
    ensures JoinSlash(Split(s)) == s
  {
    if s != [] {
      JoinSplit(s[1..]);
      var rest := Split(s[1..]);
      if s[0] != '/' {
        if |rest| == 1 {
          assert s == [s[0]] + s[1..];
        } else {
          assert [[s[0]] + rest[0]] + rest[1..] == [[s[0]] + rest[0]] + rest[1..];
          assert JoinSlash(rest) == rest[0] + "/" + JoinSlash(rest[1..]);
          assert s == [s[0]] + s[1..];
        }
      } else {
        assert s == "/" + s[1..];
      }
    }
  }

  lemma {:induction false} SplitJoin(parts: seq<string>)
    requires |parts| >= 1
    requires forall k :: 0 <= k < |parts| ==> '/' !in parts[k]
    ensures Split(JoinSlash(parts)) == parts
  {
    if |parts| == 1 {
      SplitNoSlash(parts[0]);
    } else {
      SplitJoin(parts[1..]);
      SplitAfterFirstSlash(parts[0] + "/" + JoinSlash(parts[1..]), |parts[0]|);
      assert (parts[0] + "/" + JoinSlash(parts[1..]))[..|parts[0]|] == parts[0];
      assert (parts[0] + "/" + JoinSlash(parts[1..]))[|parts[0]| + 1..] == JoinSlash(parts[1..]);
      assert parts == [parts[0]] + parts[1..];
    }
  }

  lemma SplitNoSlash(s: string)
    requires '/' !in s
    ensures Split(s) == [s]
  {
    if s != [] {
      SplitNoSlash(s[1..]);
      assert s == [s[0]] + s[1..];
    }
  }

  /** Splitting at the first slash: the first piece, then the pieces of what follows. */
  lemma {:induction false} SplitAfterFirstSlash(s: string, i: nat)
    requires i < |s| && s[i] == '/' && '/' !in s[..i]
    ensures Split(s) == [s[..i]] + Split(s[i + 1..])
  {
    if i > 0 {
      assert s[1..][..i - 1] == s[..i][1..];
      SplitAfterFirstSlash(s[1..], i - 1);
      assert s[1..][i..] == s[i + 1..];
      assert s[..i] == [s[0]] + s[1..][..i - 1];
    }
  }

  /** One step of POSIX `os.path.join(path, b)`. */
  function JoinStep(path: string, b: string): (r: string)
    ensures EndsWith(r, b)
    ensures |b| > 0 && b[0] == '/' ==> r == b
    ensures !(|b| > 0 && b[0] == '/') ==> StartsWith(r, path)
  {
    if |b| > 0 && b[0] == '/' then b
    else if path == [] || path[|path| - 1] == '/' then path + b
    else path + "/" + b
  }

  /** POSIX `os.path.join(*parts)`, which needs at least one argument. */
  function PosixJoin(parts: seq<string>): (r: string)
    requires |parts| >= 1
    ensures EndsWith(r, parts[|parts| - 1])
    ensures |parts[|parts| - 1]| > 0 && parts[|parts| - 1][0] == '/' ==> r == parts[|parts| - 1]
  {
    if |parts| == 1 then parts[0] else JoinStep(PosixJoin(parts[..|parts| - 1]), parts[|parts| - 1])
  }

  /** For non-empty components without slashes, `os.path.join` is `'/'.join`. */
  lemma {:induction false} PosixJoinIsJoinSlash(parts: seq<string>)
    requires |parts| >= 1
    requires forall k :: 0 <= k < |parts| ==> parts[k] != [] && '/' !in parts[k]
    ensures PosixJoin(parts) == JoinSlash(parts)
  {
    if |parts| > 1 {
      var init := parts[..|parts| - 1];
      PosixJoinIsJoinSlash(init);
      JoinSlashSnoc(init, parts[|parts| - 1]);
      assert init + [parts[|parts| - 1]] == parts;
      LastOfJoinSlash(init);
    }
  }

  lemma {:induction false} JoinSlashSnoc(init: seq<string>, last: string)
    requires |init| >= 1
    ensures JoinSlash(init + [last]) == JoinSlash(init) + "/" + last
  {
    if |init| > 1 {
      assert (init + [last])[1..] == init[1..] + [last];
      JoinSlashSnoc(init[1..], last);
    }
  }

  lemma {:induction false} LastOfJoinSlash(parts: seq<string>)
    requires |parts| >= 1
    requires forall k :: 0 <= k < |parts| ==> parts[k] != [] && '/' !in parts[k]
    ensures JoinSlash(parts) != [] && JoinSlash(parts)[|JoinSlash(parts)| - 1] != '/'
  {
    if |parts| == 1 {
      assert parts[0][|parts[0]| - 1] in parts[0];
    } else {
      LastOfJoinSlash(parts[1..]);
    }
  }

  /** No two consecutive slashes. */
  ghost predicate NoEmptyComponent(s: string)
  {
    forall k :: 0 <= k < |s| - 1 ==> !(s[k] == '/' && s[k + 1] == '/')
  }

  /** Splitting a path with no leading, trailing or doubled slash yields non-empty components. */
  lemma {:induction false} SplitComponentsNonEmpty(s: string)
    requires s != [] && s[0] != '/' && s[|s| - 1] != '/' && NoEmptyComponent(s)
    ensures forall k :: 0 <= k < |Split(s)| ==> Split(s)[k] != []
  {
    if '/' in s {
      var i :| 0 <= i < |s| && s[i] == '/';
      i := FirstSlash(s, i);
      SplitAfterFirstSlash(s, i);
      AfterSlash(s, i);
      SplitComponentsNonEmpty(s[i + 1..]);
      assert s[..i] != [];
    } else {
      SplitNoSlash(s);
    }
  }

  /** What follows a slash of a path with no leading, trailing or doubled slash is such a path too. */
  lemma AfterSlash(s: string, i: nat)
    requires i < |s| && s[i] == '/' && s[|s| - 1] != '/' && NoEmptyComponent(s)
    ensures var q := s[i + 1..]; q != [] && q[0] != '/' && q[|q| - 1] != '/' && NoEmptyComponent(q)
  {
    var q := s[i + 1..];
    assert i + 1 < |s|;
    assert q[0] == s[i + 1];
    assert q[|q| - 1] == s[|s| - 1];
    forall k | 0 <= k < |q| - 1 ensures !(q[k] == '/' && q[k + 1] == '/') {
      assert q[k] == s[i + 1 + k] && q[k + 1] == s[i + 1 + k + 1];
    }
  }

  /** The index of the first slash of `s`, given that there is one at `j`. */
  lemma FirstSlash(s: string, j: nat) returns (i: nat)
    requires j < |s| && s[j] == '/'
    ensures i <= j && s[i] == '/' && '/' !in s[..i]
  {
    i := 0;
    while s[i] != '/'
      invariant i <= j && '/' !in s[..i]
      decreases j - i
    {
      assert s[..i + 1] == s[..i] + [s[i]];
      i := i + 1;
    }
  }

  /** `get_filename`: the absolute path with build-root characters stripped from both ends. */
  function GetFilename(f: File): (r: string)
    ensures IsStripOf(r, f.abspath, BuildRootChars)
  {
    StripCharacterization(f.abspath, BuildRootChars, Strip(f.abspath, BuildRootChars));
    Strip(f.abspath, BuildRootChars)
  }

  /**
   * `get_internal_filename`: strip, split on '/', and `os.path.join` every component but the first.
   * With a single component the join receives no argument and raises.
   */
  function GetInternalFilename(f: File): (r: Outcome<string, PathError>)
    ensures r.Err? <==> '/' !in GetFilename(f)
  {
    var components := Split(GetFilename(f));
    if |components| < 2 then Err(NothingToJoin) else Ok(PosixJoin(components[1..]))
  }

  /** The internal filename is everything after the first slash of the stripped path. */
  lemma InternalFilenameDropsFirstComponent(f: File, i: nat)
    requires i < |GetFilename(f)| && GetFilename(f)[i] == '/' && '/' !in GetFilename(f)[..i]
    requires NoEmptyComponent(GetFilename(f))
    ensures GetInternalFilename(f) == Ok(GetFilename(f)[i + 1..])
  {
    var p := GetFilename(f);
    StrippedHasNoTrailingSlash(f);
    JoinAfterFirstSlash(p, i);
  }

  /** A stripped path does not end with a slash, `/` being one of the stripped characters. */
  lemma StrippedHasNoTrailingSlash(f: File)
    ensures var p := GetFilename(f); p == [] || p[|p| - 1] != '/'
  {
    var p := GetFilename(f);
    var j: nat :| IsStripAt(p, f.abspath, BuildRootChars, j);
  }

  /** Joining the components after the first slash gives back the text after that slash. */
  lemma JoinAfterFirstSlash(p: string, i: nat)
    requires i < |p| && p[i] == '/' && '/' !in p[..i]
    requires p[|p| - 1] != '/' && NoEmptyComponent(p)
    ensures |Split(p)| >= 2 && PosixJoin(Split(p)[1..]) == p[i + 1..]
  {
    var q := p[i + 1..];
    AfterSlash(p, i);
    SplitAfterFirstSlash(p, i);
    assert Split(p)[1..] == Split(q);
    SplitComponentsNonEmpty(q);
    PosixJoinIsJoinSlash(Split(q));
    JoinSplit(q);
  }

  /**
   * Paths of the form `<build root><version dir>/<rest>` normalise to `<rest>`, whatever the
   * version directory, as long as the strip does not reach into the version or the rest.
   */
  lemma InternalFilenameIgnoresVersion(root: string, version: string, rest: string, f: File)
    requires forall k :: 0 <= k < |root| ==> root[k] in BuildRootChars
    requires version != [] && version[0] !in BuildRootChars && '/' !in version
    requires rest != [] && rest[0] != '/' && rest[|rest| - 1] !in BuildRootChars
    requires NoEmptyComponent(rest)
    requires f.abspath == root + version + "/" + rest
    ensures GetInternalFilename(f) == Ok(rest)
  {
    var p := version + "/" + rest;
    assert p[|version|] == '/' && p[..|version|] == version && p[|version| + 1..] == rest;
    SlashJoinNoEmptyComponent(version, rest);
    StripRoot(root, p, f);
    InternalFilenameDropsFirstComponent(f, |version|);
  }

  /** Stripping removes a leading run of build-root characters and nothing else when `p` is clean at both ends. */
  lemma StripRoot(root: string, p: string, f: File)
    requires forall k :: 0 <= k < |root| ==> root[k] in BuildRootChars
    requires p != [] && p[0] !in BuildRootChars && p[|p| - 1] !in BuildRootChars
    requires f.abspath == root + p
    ensures GetFilename(f) == p
  {
    assert f.abspath == root + p + "";
    StripBetween(root, p, "", BuildRootChars);
  }

  /** Text framed by runs of stripped characters is exactly what `strip` keeps. */
  lemma StripBetween(a: string, m: string, z: string, cs: set<char>)
    requires forall k :: 0 <= k < |a| ==> a[k] in cs
    requires forall k :: 0 <= k < |z| ==> z[k] in cs
    requires m != [] && m[0] !in cs && m[|m| - 1] !in cs
    ensures Strip(a + m + z, cs) == m
  {
    var s := a + m + z;
    assert s[|a|..|a| + |m|] == m;
    forall k | 0 <= k < |a| ensures s[k] in cs {
      assert s[k] == a[k];
    }
    forall k | |a| + |m| <= k < |s| ensures s[k] in cs {
      assert s[k] == z[k - |a| - |m|];
    }
    StripUnique(s, cs, m, |a|);
  }

  lemma SlashJoinNoEmptyComponent(version: string, rest: string)
    requires version != [] && '/' !in version
    requires rest != [] && rest[0] != '/' && NoEmptyComponent(rest)
    ensures NoEmptyComponent(version + "/" + rest)
  {
    var p := version + "/" + rest;
    forall k | 0 <= k < |p| - 1 ensures !(p[k] == '/' && p[k + 1] == '/') {
      if k < |version| {
        assert p[k] == version[k];
      } else if k == |version| {
        assert p[k + 1] == rest[0];
      } else {
        assert p[k] == rest[k - |version| - 1] && p[k + 1] == rest[k - |version|];
      }
    }
  }

  /**
   * The example of the source's documentation, the absolute path being written as its
   * build root, tarball directory and path within the tarball: the tarball directory is dropped.
   */
  lemma EthtoolExample(f: File)
    requires f.abspath == "/builddir/build/BUILD/" + "python-ethtool-0.7" + "/" + "python-ethtool/etherinfo.c"
    ensures GetInternalFilename(f) == Ok("python-ethtool/etherinfo.c")
  {
    var root, version, rest := "/builddir/build/BUILD/", "python-ethtool-0.7", "python-ethtool/etherinfo.c";
    assert forall k :: 0 <= k < |root| ==> root[k] in BuildRootChars;
    assert NoEmptyComponent(rest);
    assert rest[|rest| - 1] !in BuildRootChars;
    assert version[0] !in BuildRootChars;
    InternalFilenameIgnoresVersion(root, version, rest, f);
  }

  /**
   * Because `strip` removes characters rather than a prefix, a file whose path below the
   * tarball directory is spelt only with build-root characters (`/lib/build`, say) loses
   * it entirely, and the join is left with nothing.
   */
  lemma StripSwallowsTrailingComponents(root: string, version: string, tail: string, f: File)
    requires forall k :: 0 <= k < |root| ==> root[k] in BuildRootChars
    requires version != [] && version[0] !in BuildRootChars && version[|version| - 1] !in BuildRootChars
    requires '/' !in version
    requires forall k :: 0 <= k < |tail| ==> tail[k] in BuildRootChars
    requires f.abspath == root + version + tail
    ensures GetFilename(f) == version
    ensures GetInternalFilename(f) == Err(NothingToJoin)
  {
    StripBetween(root, version, tail, BuildRootChars);
  }

  lemma LibBuildExample(f: File)
    requires f.abspath == "/builddir/build/BUILD/" + "pkg-1.0" + "/lib/build"
    ensures GetInternalFilename(f) == Err(NothingToJoin)
  {
    StripSwallowsTrailingComponents("/builddir/build/BUILD/", "pkg-1.0", "/lib/build", f);
  }
}
