/** Absolute paths as sequences of components, and the lexical resolution of
    a path string against an explicit working directory (which replaces the
    process-wide current directory). */
module Paths {
  import opened Wrappers

  /** An absolute path: the components below '/', outermost first. */
  type Path = seq<string>

  /** A component that names an entry: not empty, not "." or "..", no '/'. */
  predicate ProperName(c: string)
  {
    c != "" && c != "." && c != ".." && '/' !in c
  }

  predicate ProperPath(p: Path)
  {
    forall i :: 0 <= i < |p| ==> ProperName(p[i])
  }

  /** Python's `s.split('/')`: the pieces between separators, empty ones included. */
  function Split(s: string): (parts: seq<string>)
    ensures |parts| >= 1
    ensures forall i :: 0 <= i < |parts| ==> '/' !in parts[i]
  {
    if s == [] then [""]
    else
      var rest := Split(s[1..]);
      if s[0] == '/' then [""] + rest
      else [[s[0]] + rest[0]] + rest[1..]
  }

  /** Python's `'/'.join(parts)`. */
  function Join(parts: seq<string>): string
    requires |parts| >= 1
  {
    if |parts| == 1 then parts[0] else parts[0] + "/" + Join(parts[1..])
  }

  /** Splitting loses nothing: joining the pieces gives the string back. */
  lemma {:induction false} SplitJoin(s: string)
    ensures Join(Split(s)) == s
  {
    if s != [] {
      var rest := Split(s[1..]);
      SplitJoin(s[1..]);
      if s[0] == '/' {
        assert Split(s) == [""] + rest;
        assert ([""] + rest)[1..] == rest;
        assert s == [s[0]] + s[1..];
      } else {
        var parts := [[s[0]] + rest[0]] + rest[1..];
        assert Split(s) == parts;
        if |rest| == 1 {
          assert s == [s[0]] + rest[0];
        } else {
          assert parts[1..] == rest[1..];
          assert Join(rest) == rest[0] + "/" + Join(rest[1..]);
          assert s == [s[0]] + s[1..];
        }
      }
    }
  }

  /** A '/'-free string is a single piece. */
  lemma {:induction false} SplitName(s: string)
    requires '/' !in s
    ensures Split(s) == [s]
  {
    if s != [] {
      SplitName(s[1..]);
      assert [s[0]] + s[1..] == s;
    }
  }

  /** One component: "" and "." stay put, ".." goes up (never above '/'),
      any other name goes down. */
  function Step(base: Path, c: string): (p: Path)
    requires ProperPath(base) && '/' !in c
    ensures ProperPath(p)
  {
    if c == "" || c == "." then base
    else if c == ".." then (if base == [] then [] else base[..|base| - 1])
    else base + [c]
  }

  /** Applies the components left to right. */
  function Normalize(base: Path, parts: seq<string>): (p: Path)
    requires ProperPath(base)
    requires forall i :: 0 <= i < |parts| ==> '/' !in parts[i]
    ensures ProperPath(p)
    decreases |parts|
  {
    if parts == [] then base
    else Normalize(Step(base, parts[0]), parts[1..])
  }

  /** The entries the lookup of `parts` from `base` passes through: the
      entry in which each non-empty piece is looked up. The kernel looks a
      piece up inside the entry reached so far, so that entry must be a
      directory, even when the piece is "." or ".." and `Normalize` could
      apply it without looking. '/' is always a directory and is left out. */
  function Traversed(base: Path, parts: seq<string>): set<Path>
    requires ProperPath(base)
    requires forall i :: 0 <= i < |parts| ==> '/' !in parts[i]
    decreases |parts|
  {
    if parts == [] then {}
    else (if parts[0] != "" && base != [] then {base} else {}) + Traversed(Step(base, parts[0]), parts[1..])
  }

  /** Where the lookup of the path string `s` starts: '/' for an absolute
      string, the working directory `cwd` otherwise. */
  function Start(cwd: Path, s: string): (p: Path)
    requires ProperPath(cwd)
    ensures ProperPath(p)
  {
    if |s| > 0 && s[0] == '/' then [] else cwd
  }

  /** The entries the lookup of the path string `s` passes through. */
  function TraversedBy(cwd: Path, s: string): set<Path>
    requires ProperPath(cwd)
  {
    Traversed(Start(cwd, s), Split(s))
  }

  /** The absolute path that a non-empty path string names when the working
      directory is `cwd`; an absolute string ignores `cwd`, as
      `os.path.join(cwd, s)` does. */
  function Resolve(cwd: Path, s: string): (p: Path)
    requires ProperPath(cwd)
    ensures ProperPath(p)
  {
    Normalize(Start(cwd, s), Split(s))
  }

  /** The entry a path string refers to; the empty string refers to none
      (every file operation on "" fails). */
  function Locate(cwd: Path, s: string): (r: Option<Path>)
    requires ProperPath(cwd)
    ensures r.Some? <==> s != ""
    ensures r.Some? ==> ProperPath(r.value)
  {
    if s == "" then None else Some(Resolve(cwd, s))
  }

  /** The last non-empty piece, or "" when there is none. It is the name
      that `os.mkdir` creates and that `os.rmdir` removes. */
  function LastPiece(parts: seq<string>): (c: string)
    ensures c == "" || c in parts
    decreases |parts|
  {
    if parts == [] then ""
    else if parts[|parts| - 1] != "" then parts[|parts| - 1]
    else
      var c := LastPiece(parts[..|parts| - 1]);
      assert c != "" ==> c in parts[..|parts| - 1];
      c
  }

  /** A path string can name a new entry: its last non-empty piece is a
      proper name. A string ending in "." or ".." (or made only of '/')
      names a directory that exists whenever its parent does, and `os.rmdir`
      and `os.mkdir` refuse it. */
  predicate Creatable(s: string)
  {
    ProperName(LastPiece(Split(s)))
  }

  /** The path string ends in a proper name as written: no trailing '/',
      "." or "..". Only then does `os.lstat`, and so `shutil.rmtree`, see a
      symbolic link at the end of the path rather than the entry it leads to. */
  predicate EndsInName(s: string)
  {
    ProperName(Split(s)[|Split(s)| - 1])
  }

  /** A string that ends in a name names the entry of that name. */
  lemma EndsInNameCreatable(s: string)
    requires EndsInName(s)
    ensures Creatable(s) && LastPiece(Split(s)) == Split(s)[|Split(s)| - 1]
  {
  }

  /** A proper name is creatable. */
  lemma CreatableName(name: string)
    requires ProperName(name)
    ensures Creatable(name)
  {
    SplitName(name);
  }

  /** "." and "x/.." (with or without a trailing '/') and "/" name no new
      entry; "out/" does. */
  lemma CreatableExamples()
    ensures !Creatable(".") && !Creatable("x/..") && !Creatable("x/../") && !Creatable("/")
    ensures Creatable("out/")
  {
    SplitName(".");
    SplitName("..");
    SplitName("x");
    SplitName("out");
    assert "x/.." == "x" + "/" + "..";
    SplitAfterName("x", "..");
    assert "x/../" == "x" + "/" + ".." + "/" + "";
    assert "x/../" == "x" + "/" + ("../");
    assert "../" == ".." + "/" + "";
    SplitAfterName("..", "");
    SplitAfterName("x", "../");
    assert "/" == "" + "/" + "";
    SplitAfterName("", "");
    assert "out/" == "out" + "/" + "";
    SplitAfterName("out", "");
    assert LastPiece(["x", "..", ""]) == LastPiece(["x", ".."]);
  }

  /** Resolution in two stretches: the pieces of `p`, then those of `q`. */
  lemma {:induction false} NormalizeAppend(base: Path, p: seq<string>, q: seq<string>)
    requires ProperPath(base)
    requires forall i :: 0 <= i < |p| ==> '/' !in p[i]
    requires forall i :: 0 <= i < |q| ==> '/' !in q[i]
    ensures Normalize(base, p + q) == Normalize(Normalize(base, p), q)
    decreases |p|
  {
    if p == [] {
      assert p + q == q;
    } else {
      var c := p[0];
      assert (p + q)[0] == c && (p + q)[1..] == p[1..] + q;
      NormalizeAppend(Step(base, c), p[1..], q);
    }
  }

  /** Pieces whose last non-empty one is a proper name resolve to a path
      ending in that name. */
  lemma {:induction false} NormalizeEndsInLastPiece(base: Path, parts: seq<string>)
    requires ProperPath(base)
    requires forall i :: 0 <= i < |parts| ==> '/' !in parts[i]
    requires ProperName(LastPiece(parts))
    ensures |Normalize(base, parts)| > 0
    ensures Normalize(base, parts)[|Normalize(base, parts)| - 1] == LastPiece(parts)
    decreases |parts|
  {
    var init, last := parts[..|parts| - 1], parts[|parts| - 1];
    var mid := Normalize(base, init);
    assert Normalize(base, parts) == Normalize(mid, [last]) by {
      assert parts == init + [last];
      NormalizeAppend(base, init, [last]);
    }
    if last == "" {
      assert LastPiece(parts) == LastPiece(init);
      assert |mid| > 0 && mid[|mid| - 1] == LastPiece(init) by {
        NormalizeEndsInLastPiece(base, init);
      }
      assert Normalize(mid, [last]) == mid by {
        assert Normalize(mid, [last]) == Normalize(Step(mid, last), []);
      }
    } else {
      assert LastPiece(parts) == last;
      assert Normalize(mid, [last]) == mid + [last] by {
        assert Normalize(mid, [last]) == Normalize(Step(mid, last), []);
      }
    }
  }

  /** A creatable path string names the entry of its last piece: `os.mkdir`
      creates the entry that the destination path resolves to. */
  lemma ResolveCreatable(cwd: Path, s: string)
    requires ProperPath(cwd) && Creatable(s)
    ensures |Resolve(cwd, s)| > 0
    ensures Resolve(cwd, s)[|Resolve(cwd, s)| - 1] == LastPiece(Split(s))
  {
    var r := Normalize(Start(cwd, s), Split(s));
    assert Resolve(cwd, s) == r;
    NormalizeEndsInLastPiece(Start(cwd, s), Split(s));
  }

  /** The pieces of a string after its first '/'-free piece. */
  lemma {:induction false} SplitAfterName(a: string, b: string)
    requires '/' !in a
    ensures Split(a + "/" + b) == [a] + Split(b)
  {
    if a == [] {
      assert a + "/" + b == "/" + b;
      assert ("/" + b)[1..] == b;
    } else {
      SplitAfterName(a[1..], b);
      assert (a + "/" + b)[1..] == a[1..] + "/" + b;
      assert [a[0]] + a[1..] == a;
    }
  }

  /** "/dir/name" names the entry `name` inside the top-level directory
      `dir`, whatever the working directory is. */
  lemma ResolveTopLevel(cwd: Path, dir: string, name: string)
    requires ProperPath(cwd) && ProperName(dir) && ProperName(name)
    ensures Resolve(cwd, "/" + dir + "/" + name) == [dir, name]
  {
    var s := "/" + dir + "/" + name;
    assert s[1..] == dir + "/" + name;
    SplitAfterName(dir, name);
    SplitName(name);
    assert Split(s) == [""] + [dir, name];
    assert Normalize([], ["", dir, name]) == Normalize([], [dir, name]);
    assert [dir, name][1..] == [name] && [] + [dir] == [dir];
    assert Normalize([], [dir, name]) == Normalize([dir], [name]);
    assert Normalize([dir], [name]) == Normalize([dir, name], []);
  }

  /** An absolute path string names the same entry whatever the working
      directory is. */
  lemma ResolveAbsolute(cwd1: Path, cwd2: Path, s: string)
    requires ProperPath(cwd1) && ProperPath(cwd2)
    requires |s| > 0 && s[0] == '/'
    ensures Resolve(cwd1, s) == Resolve(cwd2, s)
  {
  }

  /** ".." never climbs above '/'. */
  lemma ResolveAboveRoot(cwd: Path)
    requires ProperPath(cwd)
    ensures Resolve(cwd, "/..") == []
  {
    assert "/.." == "/" + "..";
    SplitName("..");
    assert Split("/..") == [""] + Split("..");
    assert Normalize([], ["", ".."]) == Normalize([], [".."]) == Normalize([], []);
  }

  /** Without ".." pieces, resolution only goes down from where it starts. */
  lemma {:induction false} NormalizeExtends(base: Path, parts: seq<string>)
    requires ProperPath(base)
    requires forall i :: 0 <= i < |parts| ==> '/' !in parts[i] && parts[i] != ".."
    ensures base <= Normalize(base, parts)
    decreases |parts|
  {
    if parts != [] {
      NormalizeExtends(Step(base, parts[0]), parts[1..]);
    }
  }

  /** A relative path string with no ".." piece names `cwd` or an entry
      below it. */
  lemma ResolveRelativeBelow(cwd: Path, s: string)
    requires ProperPath(cwd)
    requires |s| > 0 && s[0] != '/'
    requires forall i :: 0 <= i < |Split(s)| ==> Split(s)[i] != ".."
    ensures cwd <= Resolve(cwd, s)
  {
    NormalizeExtends(cwd, Split(s));
  }

  /** A plain name resolves to the entry of that name inside `cwd`. */
  lemma ResolveName(cwd: Path, name: string)
    requires ProperPath(cwd) && ProperName(name)
    ensures Resolve(cwd, name) == cwd + [name]
  {
    SplitName(name);
    assert name[0] != '/';
    assert Normalize(cwd, [name]) == Normalize(cwd + [name], []);
  }

  /** The last piece is "" exactly when every piece is "". */
  lemma {:induction false} LastPieceEmpty(parts: seq<string>)
    ensures LastPiece(parts) == "" <==> forall i :: 0 <= i < |parts| ==> parts[i] == ""
    decreases |parts|
  {
    if parts != [] && parts[|parts| - 1] == "" {
      var init := parts[..|parts| - 1];
      LastPieceEmpty(init);
      assert forall i :: 0 <= i < |init| ==> init[i] == parts[i];
    }
  }

  /** The last piece of a piece followed by more pieces. */
  lemma {:induction false} LastPieceCons(c: string, rest: seq<string>)
    ensures LastPiece([c] + rest) == if LastPiece(rest) != "" then LastPiece(rest) else c
    decreases |rest|
  {
    if rest != [] {
      var init := rest[..|rest| - 1];
      assert ([c] + rest)[..|[c] + rest| - 1] == [c] + init;
      if rest[|rest| - 1] == "" {
        LastPieceCons(c, init);
      }
    }
  }

  /** Empty pieces neither move the lookup nor look anything up. */
  lemma {:induction false} EmptyPieces(base: Path, parts: seq<string>)
    requires ProperPath(base)
    requires forall i :: 0 <= i < |parts| ==> parts[i] == ""
    ensures Normalize(base, parts) == base && Traversed(base, parts) == {}
    decreases |parts|
  {
    if parts != [] {
      EmptyPieces(base, parts[1..]);
    }
  }

  /** A lookup that has a non-empty piece looks it up in the entry it starts from, at the latest. */
  lemma {:induction false} BaseTraversed(base: Path, parts: seq<string>)
    requires ProperPath(base) && base != []
    requires forall i :: 0 <= i < |parts| ==> '/' !in parts[i]
    requires LastPiece(parts) != ""
    ensures base in Traversed(base, parts)
    decreases |parts|
  {
    LastPieceEmpty(parts);
    if parts[0] == "" {
      LastPieceCons(parts[0], parts[1..]);
      assert parts == [parts[0]] + parts[1..];
      BaseTraversed(base, parts[1..]);
    }
  }

  /** A lookup that ends in a proper name and passes anywhere strictly
      below the entry it ends at also passes through that entry: it has to
      come back up through it, and the final name is then looked up there. */
  lemma {:induction false} PassesEndFromBelow(base: Path, parts: seq<string>)
    requires ProperPath(base)
    requires forall i :: 0 <= i < |parts| ==> '/' !in parts[i]
    requires ProperName(LastPiece(parts))
    ensures Normalize(base, parts) < base ==> Normalize(base, parts) in Traversed(base, parts)
    ensures forall p :: p in Traversed(base, parts) && Normalize(base, parts) < p ==>
              Normalize(base, parts) in Traversed(base, parts)
    decreases |parts|
  {
    var c, rest := parts[0], parts[1..];
    assert parts == [c] + rest;
    var next := Step(base, c);
    var r := Normalize(base, parts);
    assert r == Normalize(next, rest);
    LastPieceCons(c, rest);
    if LastPiece(rest) == "" {
      LastPieceEmpty(rest);
      EmptyPieces(next, rest);
      assert r == base + [c];
    } else {
      PassesEndFromBelow(next, rest);
      NormalizeEndsInLastPiece(next, rest);
      if r < base {
        assert r <= next by {
          if c == ".." {
            assert r == base[..|r|];
          }
        }
        if r == next {
          BaseTraversed(next, rest);
        }
      }
    }
  }

  /** A plain name is looked up in the working directory. */
  lemma TraversedName(cwd: Path, name: string)
    requires ProperPath(cwd) && ProperName(name)
    ensures TraversedBy(cwd, name) == if cwd == [] then {} else {cwd}
  {
    SplitName(name);
    assert name[0] != '/';
    assert Traversed(cwd, [name]) == (if cwd == [] then {} else {cwd}) + Traversed(cwd + [name], []);
  }

  /** "name/.." names the directory it starts from, but its lookup passes
      through the entry `name`, and `os.mkdir` refuses it. */
  lemma UpFromName(cwd: Path, name: string)
    requires ProperPath(cwd) && ProperName(name)
    ensures Resolve(cwd, name + "/..") == cwd
    ensures cwd + [name] in TraversedBy(cwd, name + "/..")
    ensures !Creatable(name + "/..")
  {
    var s := name + "/..";
    assert s == name + "/" + "..";
    SplitAfterName(name, "..");
    SplitName("..");
    assert Split(s) == [name] + [".."];
    assert s[0] == name[0] != '/';
    assert [name, ".."][1..] == [".."];
    assert Normalize(cwd, [name, ".."]) == Normalize(cwd + [name], [".."]);
    assert (cwd + [name])[..|cwd + [name]| - 1] == cwd;
    assert Normalize(cwd + [name], [".."]) == Normalize(cwd, []);
    assert Traversed(cwd + [name], [".."]) == {cwd + [name]} + Traversed(cwd, []);
    assert LastPiece([name, ".."]) == "..";
  }

  /** "/dir/name" is looked up through the top-level directory `dir` only. */
  lemma TraversedTopLevel(cwd: Path, dir: string, name: string)
    requires ProperPath(cwd) && ProperName(dir) && ProperName(name)
    ensures TraversedBy(cwd, "/" + dir + "/" + name) == {[dir]}
  {
    var s := "/" + dir + "/" + name;
    assert s[1..] == dir + "/" + name;
    SplitAfterName(dir, name);
    SplitName(name);
    assert Split(s) == [""] + [dir, name];
    assert Traversed([], ["", dir, name]) == Traversed([], [dir, name]);
    assert [dir, name][1..] == [name] && [] + [dir] == [dir];
    assert Traversed([], [dir, name]) == Traversed([dir], [name]);
    assert Traversed([dir], [name]) == {[dir]} + Traversed([dir, name], []);
  }
}
