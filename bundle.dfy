/**
 * How `extract_disk_image` and `extract_oc_binary` name the archive member
 * they extract: the bundle file's stem (`Path.stem`), with one trailing
 * ".tar" removed, then "/crc.qcow2" or "/oc".
 */
module BundlePaths {
  import opened Text

  const DiskImageName := "crc.qcow2"
  const OcBinaryName := "oc"

  /** The index of the last `c` among the first `n` characters of `s`, or -1. */
  function LastIndexBelow(s: string, c: char, n: nat): (r: int)
    requires n <= |s|
    ensures -1 <= r < n
    ensures r >= 0 ==> s[r] == c
    ensures forall j | r < j < n :: s[j] != c
  {
    if n == 0 then -1
    else if s[n - 1] == c then n - 1
    else LastIndexBelow(s, c, n - 1)
  }

  /** Python `str.rfind(c)`: the index of the last `c` in `s`, or -1. */
  function LastIndexOf(s: string, c: char): (r: int)
    ensures -1 <= r < |s|
    ensures r >= 0 ==> s[r] == c
    ensures forall j | r < j < |s| :: s[j] != c
  {
    LastIndexBelow(s, c, |s|)
  }

  /** `s` holds no `c`. */
  predicate Lacks(s: string, c: char) {
    forall j | 0 <= j < |s| :: s[j] != c
  }

  /** The last occurrence of `c` in `s + [c] + t`, when `t` has none, is the one between them. */
  lemma {:induction false} LastIndexOfJoin(s: string, c: char, t: string)
    requires Lacks(t, c)
    ensures LastIndexOf(s + [c] + t, c) == |s|
  {
    var u := s + [c] + t;
    assert u[|s|] == c;
    forall j | |s| < j < |u| ensures u[j] != c {
      assert u[j] == t[j - |s| - 1];
    }
  }

  /** `PurePosixPath(p).name`: the text after the last "/". */
  function PathName(p: string): string {
    p[LastIndexOf(p, '/') + 1..]
  }

  /** The name is a single path component. */
  lemma PathNameHasNoSlash(p: string)
    ensures Lacks(PathName(p), '/')
  {
    SuffixAfterLast(p, '/', LastIndexOf(p, '/'));
  }

  /** The part of `s` after an index past which no `c` occurs holds no `c`. */
  lemma SuffixAfterLast(s: string, c: char, i: int)
    requires -1 <= i < |s|
    requires forall j | i < j < |s| :: s[j] != c
    ensures Lacks(s[i + 1..], c)
  {
    var t := s[i + 1..];
    forall j | 0 <= j < |t| ensures t[j] != c {
      assert t[j] == s[i + 1 + j];
    }
  }

  /**
   * `PurePosixPath(p).stem`: the name without its last suffix, where a
   * suffix starts at the last "." provided that dot is neither the name's
   * first nor its last character.
   */
  function PathStem(p: string): string {
    var name := PathName(p);
    var i := LastIndexOf(name, '.');
    if 0 < i < |name| - 1 then name[..i] else name
  }

  /** The stem with one trailing ".tar" removed, as both extraction steps compute it. */
  function BundleStem(p: string): string {
    var stem := PathStem(p);
    if EndsWith(stem, ".tar") then stem[..|stem| - 4] else stem
  }

  /** `f"{bundle_stem}/{name}"`: the member path handed to `tar`. */
  function TarMember(bundlePath: string, name: string): string {
    BundleStem(bundlePath) + "/" + name
  }

  /** The bundle stem is part of a single path component: it holds no "/". */
  lemma BundleStemHasNoSlash(p: string)
    ensures Lacks(BundleStem(p), '/')
  {
    PathNameHasNoSlash(p);
    var name := PathName(p);
    var stem := PathStem(p);
    forall j | 0 <= j < |stem| ensures stem[j] != '/' {
      assert stem[j] == name[j];
    }
  }

  /**
   * The member path is one directory named after the bundle, then the
   * requested file: splitting it at its first "/" gives back the stem and
   * the name.
   */
  lemma TarMemberSplits(p: string, name: string)
    ensures var m := TarMember(p, name);
      var k := |BundleStem(p)|;
      k < |m| && m[k] == '/' && Lacks(m[..k], '/') && m[..k] == BundleStem(p) && m[k + 1..] == name
  {
    BundleStemHasNoSlash(p);
    var m := TarMember(p, name);
    var k := |BundleStem(p)|;
    assert m[..k] == BundleStem(p);
    assert m[k + 1..] == name;
  }

  /**
   * A compressed tarball bundle `dir/base.tar.ext` (ext without dots, as in
   * "zst") is unpacked from the directory `base`: only the last suffix and
   * then one ".tar" are removed, so dots inside `base` survive.
   */
  lemma {:induction false} StemOfTarBundle(dir: string, base: string, ext: string)
    requires Lacks(base, '/') && Lacks(ext, '/') && Lacks(ext, '.') && ext != ""
    ensures BundleStem(dir + "/" + base + ".tar." + ext) == base
  {
    var stem := base + ".tar";
    var tail := stem + "." + ext;
    assert Lacks(tail, '/') by {
      forall j | 0 <= j < |tail| ensures tail[j] != '/' {
        if j < |base| { assert tail[j] == base[j]; }
        else if j > |stem| { assert tail[j] == ext[j - |stem| - 1]; }
      }
    }
    var p := dir + "/" + tail;
    assert p == dir + "/" + base + ".tar." + ext;
    LastIndexOfJoin(dir, '/', tail);
    assert PathName(p) == tail;
    LastIndexOfJoin(stem, '.', ext);
    assert PathStem(p) == tail[..|stem|] == stem;
    assert EndsWith(stem, ".tar");
    assert stem[..|stem| - 4] == base;
  }

  /**
   * A bundle `dir/base.ext` whose base does not end in ".tar" (the default
   * "crc_vfkit_4.19.3_arm64.crcbundle" is one) is unpacked from `base`.
   */
  lemma {:induction false} StemOfPlainBundle(dir: string, base: string, ext: string)
    requires Lacks(base, '/') && Lacks(ext, '/') && Lacks(ext, '.') && ext != "" && base != ""
    requires !EndsWith(base, ".tar")
    ensures BundleStem(dir + "/" + base + "." + ext) == base
  {
    var tail := base + "." + ext;
    assert Lacks(tail, '/') by {
      forall j | 0 <= j < |tail| ensures tail[j] != '/' {
        if j < |base| { assert tail[j] == base[j]; }
        else if j > |base| { assert tail[j] == ext[j - |base| - 1]; }
      }
    }
    var p := dir + "/" + tail;
    assert p == dir + "/" + base + "." + ext;
    LastIndexOfJoin(dir, '/', tail);
    assert PathName(p) == tail;
    LastIndexOfJoin(base, '.', ext);
    assert PathStem(p) == tail[..|base|] == base;
  }
}
