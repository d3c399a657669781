/** String handling behind the default destination name of the module. */
module Names {

  /** The archive suffix whose length the module strips from `src`. */
  const RpmSuffix: string := ".rpm"

  predicate EndsWith(s: string, suffix: string)
  {
    |suffix| <= |s| && s[|s| - |suffix|..] == suffix
  }

  /** Python's slice `s[:-n]` for n > 0: everything but the last n characters,
      and the empty string when `s` is shorter than n. */
  function DropLast(s: string, n: nat): (r: string)
    requires n > 0
    ensures |s| >= n ==> s == r + s[|s| - n..]
    ensures |s| < n ==> r == ""
  {
    if |s| >= n then s[..|s| - n] else ""
  }

  /** POSIX `os.path.basename`: what follows the last '/', i.e. the longest
      suffix of `p` that holds no '/'. */
  function Basename(p: string): (r: string)
    ensures '/' !in r
    ensures |r| <= |p| && r == p[|p| - |r|..]
    ensures |r| < |p| ==> p[|p| - |r| - 1] == '/'
  {
    if p == [] then []
    else if p[|p| - 1] == '/' then []
    else Basename(p[..|p| - 1]) + [p[|p| - 1]]
  }

  /** The destination folder used when `dest` is not given: the base name of
      `src` with its last four characters removed. Whether those characters
      are ".rpm" is not checked. */
  function DefaultDest(src: string): (r: string)
    ensures '/' !in r
    ensures |r| <= |src|
  {
    Basename(DropLast(src, |RpmSuffix|))
  }

  /** Appending a '/'-free tail to a path appends it to the base name. */
  lemma {:induction false} BasenameAppend(p: string, tail: string)
    requires '/' !in tail
    ensures Basename(p + tail) == Basename(p) + tail
    decreases |tail|
  {
    if tail != [] {
      var init := tail[..|tail| - 1];
      var last := tail[|tail| - 1];
      assert tail == init + [last];
      assert p + tail == (p + init) + [last];
      assert (p + tail)[..|p + tail| - 1] == p + init;
      BasenameAppend(p, init);
    } else {
      assert p + tail == p;
    }
  }

  /** For a source that does end in ".rpm", the default destination is its
      base name without that suffix. */
  lemma DefaultDestStripsRpm(src: string)
    requires EndsWith(src, RpmSuffix)
    ensures DefaultDest(src) + RpmSuffix == Basename(src)
  {
    var stem := src[..|src| - |RpmSuffix|];
    assert src == stem + RpmSuffix;
    assert DropLast(src, |RpmSuffix|) == stem;
    BasenameAppend(stem, RpmSuffix);
  }

  /** A name without '/' is its own base name. */
  lemma BasenameOfName(s: string)
    requires '/' !in s
    ensures Basename(s) == s
  {
    BasenameAppend("", s);
    assert "" + s == s;
  }

  /** A '/'-free name followed by ".rpm" defaults to that name. */
  lemma DefaultDestOfPackageName(stem: string)
    requires '/' !in stem
    ensures DefaultDest(stem + RpmSuffix) == stem
  {
    DefaultDestStripsRpm(stem + RpmSuffix);
    BasenameOfName(stem + RpmSuffix);
  }

  /** A package given by a path: the directory part is dropped as well. */
  lemma DefaultDestInDirectory(dir: string, stem: string)
    requires '/' !in stem
    ensures DefaultDest(dir + "/" + stem + RpmSuffix) == stem
  {
    var src := dir + "/" + stem + RpmSuffix;
    assert src == (dir + "/" + stem) + RpmSuffix;
    assert DropLast(src, |RpmSuffix|) == dir + "/" + stem;
    BasenameAppend(dir + "/", stem);
    assert Basename(dir + "/") == "";
  }

  /** The documented example: the package file name minus ".rpm". */
  lemma DefaultDestExample()
    ensures DefaultDest("ansible-core-2.12.9-1.fc36.noarch.rpm") == "ansible-core-2.12.9-1.fc36.noarch"
  {
    var stem := "ansible-core-2.12.9-1.fc36.noarch";
    assert stem + RpmSuffix == "ansible-core-2.12.9-1.fc36.noarch.rpm";
    DefaultDestOfPackageName(stem);
  }

  /** Without the suffix check, a source that does not end in ".rpm" loses
      four characters anyway: here the default destination becomes the name
      of the directory that holds the package. */
  lemma DefaultDestIgnoresSuffix()
    ensures !EndsWith("downloads/pkg", RpmSuffix)
    ensures DefaultDest("downloads/pkg") == "downloads"
    ensures DefaultDest("abc") == ""
  {
    assert DropLast("downloads/pkg", 4) == "downloads";
    BasenameOfName("downloads");
  }
}
