/**
 walk: the files of a directory tree, depth first, with symlinks followed on request.
 A directory is known by its real path, so a symlink to an ancestor is a cycle and two
 aliases of one directory are not.
 */
module Walk {

  /** The real path of a directory. */
  type Dir = nat

  datatype Target = ToDir(dir: Dir) | ToFile(size: nat) | ToNothing

  /** A directory entry and what stat finds behind it: a broken link and a special file
      lead to nothing. */
  datatype Entry = Entry(name: string, symlink: bool, target: Target)

  datatype LocalFile = LocalFile(rel: string, size: nat)

  /** Every directory's entries in the order readdir and toSorted leave them. */
  type Tree = map<Dir, seq<Entry>>

  predicate ProperName(name: string) { name != "" && '/' !in name }

  ghost predicate WellFormed(fs: Tree) {
    forall d :: d in fs ==> ProperEntries(fs, fs[d])
  }

  ghost predicate ProperEntry(fs: Tree, e: Entry) {
    ProperName(e.name) && (e.target.ToDir? ==> e.target.dir in fs)
  }

  ghost predicate ProperEntries(fs: Tree, entries: seq<Entry>) {
    && (forall i :: 0 <= i < |entries| ==> ProperEntry(fs, entries[i]))
    && (forall i, j :: 0 <= i < j < |entries| ==> entries[i].name != entries[j].name)
  }

  /** rel ? `${rel}/${name}` : name */
  function Join(rel: string, name: string): string { if rel == "" then name else rel + "/" + name }

  /** The entry's target, nothing for a symlink that is not followed. */
  function Stat(e: Entry, follow: bool): Target { if e.symlink && !follow then ToNothing else e.target }

  // ---------------------------------------------------------------------------
  // What visit adds
  // ---------------------------------------------------------------------------

  datatype Options = Options(fs: Tree, excluded: string -> bool, follow: bool)

  ghost function Files(o: Options, dir: Dir, rel: string, ancestors: set<Dir>): seq<LocalFile>
    requires WellFormed(o.fs) && dir in o.fs
    decreases o.fs.Keys - ancestors, 2, 0
  {
    if dir in ancestors then [] else FilesUpTo(o, dir, |o.fs[dir]|, rel, ancestors)
  }

  /** The files below the first n entries of a directory that is not among its ancestors. */
  ghost function FilesUpTo(o: Options, dir: Dir, n: nat, rel: string, ancestors: set<Dir>): seq<LocalFile>
    requires WellFormed(o.fs) && dir in o.fs && dir !in ancestors && n <= |o.fs[dir]|
    decreases o.fs.Keys - ancestors, 1, n
  {
    if n == 0 then []
    else FilesUpTo(o, dir, n - 1, rel, ancestors) + FilesAt(o, dir, o.fs[dir][n - 1], rel, ancestors)
  }

  ghost function FilesAt(o: Options, dir: Dir, e: Entry, rel: string, ancestors: set<Dir>): seq<LocalFile>
    requires WellFormed(o.fs) && dir in o.fs && dir !in ancestors && ProperEntry(o.fs, e)
    decreases o.fs.Keys - ancestors, 0, 0
  {
    var r := Join(rel, e.name);
    if o.excluded(r) then []
    else
      match Stat(e, o.follow)
      case ToDir(d) => assert dir in o.fs.Keys - ancestors; Files(o, d, r, ancestors + {dir})
      case ToFile(size) => [LocalFile(r, size)]
      case ToNothing => []
  }

  class Walker {
    const o: Options
    var out: seq<LocalFile>
    var ancestors: set<Dir>

    constructor (o: Options)
      ensures this.o == o && out == [] && ancestors == {}
    {
      this.o := o;
      out := [];
      ancestors := {};
    }

    /** Terminates on every finite tree, cycles included, and leaves the ancestors as it
        found them. */
    method Visit(dir: Dir, rel: string)
      requires WellFormed(o.fs) && dir in o.fs
      modifies this
      ensures ancestors == old(ancestors)
      ensures out == old(out) + Files(o, dir, rel, old(ancestors))
      decreases o.fs.Keys - ancestors, 1
    {
      if dir in ancestors {
        return;
      }
      ghost var above := ancestors;
      ancestors := ancestors + {dir};
      var n := 0;
      while n < |o.fs[dir]|
        invariant 0 <= n <= |o.fs[dir]|
        invariant ancestors == above + {dir}
        invariant out == old(out) + FilesUpTo(o, dir, n, rel, above)
      {
        VisitEntry(dir, o.fs[dir][n], rel, above);
        n := n + 1;
      }
      ancestors := ancestors - {dir};
    }

    /** The body of the loop over the entries. */
    method VisitEntry(dir: Dir, ent: Entry, rel: string, ghost above: set<Dir>)
      requires WellFormed(o.fs) && dir in o.fs && dir !in above && ancestors == above + {dir} && ProperEntry(o.fs, ent)
      modifies this
      ensures ancestors == old(ancestors)
      ensures out == old(out) + FilesAt(o, dir, ent, rel, above)
      decreases o.fs.Keys - above, 0
    {
      var r := Join(rel, ent.name);
      assert dir in o.fs.Keys - above;
      if !o.excluded(r) {
        match Stat(ent, o.follow) {
          case ToDir(d) => Visit(d, r);
          case ToFile(size) => out := out + [LocalFile(r, size)];
          case ToNothing =>
        }
      }
    }
  }

  method Walk(o: Options, root: Dir) returns (files: seq<LocalFile>)
    requires WellFormed(o.fs) && root in o.fs
    ensures files == Files(o, root, "", {})
  {
    var w := new Walker(o);
    w.Visit(root, "");
    files := w.out;
  }

  // ---------------------------------------------------------------------------
  // Exactly the reachable files
  // ---------------------------------------------------------------------------

  /** A way from a directory to a file: the directories passed and the entry taken in each. */
  datatype Route = Route(dirs: seq<Dir>, taken: seq<Entry>)

  function RelOf(rel: string, taken: seq<Entry>): string
    decreases |taken|
  {
    if taken == [] then rel else RelOf(Join(rel, taken[0].name), taken[1..])
  }

  /** Position i of the route: a directory of the tree outside the ancestors, one of its
      entries, and no excluded path down to there. */
  ghost predicate GoodStop(o: Options, rel: string, ancestors: set<Dir>, route: Route, i: nat)
    requires i < |route.dirs| == |route.taken|
  {
    && route.dirs[i] in o.fs && route.dirs[i] !in ancestors
    && route.taken[i] in o.fs[route.dirs[i]] && !o.excluded(RelOf(rel, route.taken[..i + 1]))
    && (i + 1 < |route.dirs| ==> Stat(route.taken[i], o.follow) == ToDir(route.dirs[i + 1]))
  }

  /** The route starts at dir, passes pairwise distinct directories outside the ancestors,
      has no excluded prefix, and ends at a file of that size. */
  ghost predicate Leads(o: Options, dir: Dir, rel: string, ancestors: set<Dir>, route: Route, size: nat) {
    && |route.dirs| == |route.taken| > 0 && route.dirs[0] == dir
    && (forall i :: 0 <= i < |route.dirs| ==> GoodStop(o, rel, ancestors, route, i))
    && (forall i, j :: 0 <= i < j < |route.dirs| ==> route.dirs[i] != route.dirs[j])
    && Stat(route.taken[|route.taken| - 1], o.follow) == ToFile(size)
  }

  lemma {:induction false} InSomeEntry(o: Options, dir: Dir, n: nat, rel: string, ancestors: set<Dir>, f: LocalFile)
    requires WellFormed(o.fs) && dir in o.fs && dir !in ancestors && n <= |o.fs[dir]|
    ensures f in FilesUpTo(o, dir, n, rel, ancestors) <==>
            exists i :: 0 <= i < n && f in FilesAt(o, dir, o.fs[dir][i], rel, ancestors)
  {
    if n > 0 {
      InSomeEntry(o, dir, n - 1, rel, ancestors, f);
    }
  }

  /** A longer route through one more directory at the front. */
  lemma Prepend(o: Options, dir: Dir, e: Entry, rel: string, ancestors: set<Dir>, route: Route, size: nat)
    requires WellFormed(o.fs) && dir in o.fs && dir !in ancestors && e in o.fs[dir]
    requires Stat(e, o.follow).ToDir? && !o.excluded(Join(rel, e.name))
    requires Leads(o, Stat(e, o.follow).dir, Join(rel, e.name), ancestors + {dir}, route, size)
    ensures Leads(o, dir, rel, ancestors, Route([dir] + route.dirs, [e] + route.taken), size)
    ensures RelOf(rel, [e] + route.taken) == RelOf(Join(rel, e.name), route.taken)
  {
    var longer := Route([dir] + route.dirs, [e] + route.taken);
    assert longer.taken[1..] == route.taken;
    forall i | 0 <= i < |longer.dirs|
      ensures GoodStop(o, rel, ancestors, longer, i)
    {
      assert longer.taken[..i + 1][0] == e && longer.taken[..i + 1][1..] == route.taken[..i];
      if i > 0 {
        assert GoodStop(o, Join(rel, e.name), ancestors + {dir}, route, i - 1);
      }
    }
    forall i, j | 0 <= i < j < |longer.dirs|
      ensures longer.dirs[i] != longer.dirs[j]
    {
      assert GoodStop(o, Join(rel, e.name), ancestors + {dir}, route, j - 1);
    }
  }

  lemma {:induction false} Sound(o: Options, dir: Dir, rel: string, ancestors: set<Dir>, f: LocalFile)
    returns (route: Route)
    requires WellFormed(o.fs) && dir in o.fs && f in Files(o, dir, rel, ancestors)
    ensures Leads(o, dir, rel, ancestors, route, f.size) && f.rel == RelOf(rel, route.taken)
    decreases o.fs.Keys - ancestors
  {
    InSomeEntry(o, dir, |o.fs[dir]|, rel, ancestors, f);
    var i :| 0 <= i < |o.fs[dir]| && f in FilesAt(o, dir, o.fs[dir][i], rel, ancestors);
    var e := o.fs[dir][i];
    if Stat(e, o.follow).ToDir? {
      assert dir in o.fs.Keys - ancestors;
      var rest := Sound(o, Stat(e, o.follow).dir, Join(rel, e.name), ancestors + {dir}, f);
      Prepend(o, dir, e, rel, ancestors, rest, f.size);
      route := Route([dir] + rest.dirs, [e] + rest.taken);
    } else {
      route := Route([dir], [e]);
      assert [e][..1] == [e] && [e][1..] == [];
      assert GoodStop(o, rel, ancestors, route, 0);
    }
  }

  /** The route without its first directory. */
  lemma DropFirst(o: Options, dir: Dir, rel: string, ancestors: set<Dir>, route: Route, size: nat)
    requires Leads(o, dir, rel, ancestors, route, size) && |route.dirs| > 1
    ensures Leads(o, route.dirs[1], Join(rel, route.taken[0].name), ancestors + {dir},
                  Route(route.dirs[1..], route.taken[1..]), size)
  {
    var shorter := Route(route.dirs[1..], route.taken[1..]);
    assert GoodStop(o, rel, ancestors, route, 0);
    forall i | 0 <= i < |shorter.dirs|
      ensures GoodStop(o, Join(rel, route.taken[0].name), ancestors + {dir}, shorter, i)
    {
      assert GoodStop(o, rel, ancestors, route, i + 1);
      assert route.taken[..i + 2][0] == route.taken[0] && route.taken[..i + 2][1..] == shorter.taken[..i + 1];
      assert route.dirs[0] != route.dirs[i + 1];
    }
  }

  lemma {:induction false} Complete(o: Options, dir: Dir, rel: string, ancestors: set<Dir>, route: Route, size: nat)
    requires WellFormed(o.fs) && dir in o.fs && Leads(o, dir, rel, ancestors, route, size)
    ensures LocalFile(RelOf(rel, route.taken), size) in Files(o, dir, rel, ancestors)
    decreases |route.dirs|
  {
    var f := LocalFile(RelOf(rel, route.taken), size);
    assert GoodStop(o, rel, ancestors, route, 0);
    var e := route.taken[0];
    assert route.taken[..1] == [e] && [e][1..] == [];
    assert RelOf(rel, [e]) == Join(rel, e.name);
    var i :| 0 <= i < |o.fs[dir]| && o.fs[dir][i] == e;
    assert ProperEntries(o.fs, o.fs[dir]) && ProperEntry(o.fs, e);
    if |route.dirs| == 1 {
      assert route.taken == [e];
    } else {
      DropFirst(o, dir, rel, ancestors, route, size);
      Complete(o, route.dirs[1], Join(rel, e.name), ancestors + {dir}, Route(route.dirs[1..], route.taken[1..]), size);
    }
    assert f in FilesAt(o, dir, e, rel, ancestors);
    InSomeEntry(o, dir, |o.fs[dir]|, rel, ancestors, f);
  }

  /** walk returns precisely the files a route leads to. */
  lemma WalkIsExact(o: Options, root: Dir, f: LocalFile)
    requires WellFormed(o.fs) && root in o.fs
    ensures f in Files(o, root, "", {}) <==>
            exists route :: Leads(o, root, "", {}, route, f.size) && f.rel == RelOf("", route.taken)
  {
    if f in Files(o, root, "", {}) {
      var route := Sound(o, root, "", {}, f);
    }
    if exists route :: Leads(o, root, "", {}, route, f.size) && f.rel == RelOf("", route.taken) {
      var route :| Leads(o, root, "", {}, route, f.size) && f.rel == RelOf("", route.taken);
      Complete(o, root, "", {}, route, f.size);
    }
  }

  // ---------------------------------------------------------------------------
  // Each relative path once
  // ---------------------------------------------------------------------------

  ghost predicate DistinctRels(files: seq<LocalFile>) {
    forall i, j :: 0 <= i < j < |files| ==> files[i].rel != files[j].rel
  }

  /** The path is r itself or lies below it. */
  predicate Below(r: string, path: string) {
    |r| <= |path| && path[..|r|] == r && (|path| == |r| || path[|r|] == '/')
  }

  /** Two entries of one directory share no path. */
  lemma NamesKeepApart(rel: string, n1: string, n2: string, path: string)
    requires ProperName(n1) && ProperName(n2) && Below(Join(rel, n1), path) && Below(Join(rel, n2), path)
    ensures n1 == n2
  {
    var p := if rel == "" then "" else rel + "/";
    assert Join(rel, n1) == p + n1 && Join(rel, n2) == p + n2;
    forall k | 0 <= k < |n1|
      ensures path[|p| + k] == n1[k]
    {
      assert path[..|p + n1|][|p| + k] == (p + n1)[|p| + k];
    }
    forall k | 0 <= k < |n2|
      ensures path[|p| + k] == n2[k]
    {
      assert path[..|p + n2|][|p| + k] == (p + n2)[|p| + k];
    }
    assert |n1| == |n2|;
  }

  lemma BelowIsTransitive(a: string, b: string, c: string)
    requires Below(a, b) && Below(b, c)
    ensures Below(a, c)
  {
    assert c[..|a|] == c[..|b|][..|a|];
    assert |a| < |b| ==> c[|a|] == c[..|b|][|a|];
  }

  lemma JoinIsBelow(rel: string, name: string)
    ensures rel != "" ==> Below(rel, Join(rel, name))
  {
  }

  /** Everything visit adds lies below the path it was given. */
  lemma {:induction false} FilesAreBelow(o: Options, dir: Dir, e: Entry, rel: string, ancestors: set<Dir>, f: LocalFile)
    requires WellFormed(o.fs) && dir in o.fs && dir !in ancestors && ProperEntry(o.fs, e)
    requires f in FilesAt(o, dir, e, rel, ancestors)
    ensures Below(Join(rel, e.name), f.rel)
    decreases o.fs.Keys - ancestors
  {
    var r := Join(rel, e.name);
    if Stat(e, o.follow).ToDir? {
      assert dir in o.fs.Keys - ancestors;
      var d := Stat(e, o.follow).dir;
      InSomeEntry(o, d, |o.fs[d]|, r, ancestors + {dir}, f);
      var i :| 0 <= i < |o.fs[d]| && f in FilesAt(o, d, o.fs[d][i], r, ancestors + {dir});
      assert ProperEntries(o.fs, o.fs[d]) && ProperEntry(o.fs, o.fs[d][i]);
      FilesAreBelow(o, d, o.fs[d][i], r, ancestors + {dir}, f);
      JoinIsBelow(r, o.fs[d][i].name);
      BelowIsTransitive(r, Join(r, o.fs[d][i].name), f.rel);
    }
  }

  lemma {:induction false} UpToIsDistinct(o: Options, dir: Dir, n: nat, rel: string, ancestors: set<Dir>)
    requires WellFormed(o.fs) && dir in o.fs && dir !in ancestors && n <= |o.fs[dir]|
    ensures DistinctRels(FilesUpTo(o, dir, n, rel, ancestors))
    decreases o.fs.Keys - ancestors, n
  {
    if n > 0 {
      var before := FilesUpTo(o, dir, n - 1, rel, ancestors);
      var e := o.fs[dir][n - 1];
      var here := FilesAt(o, dir, e, rel, ancestors);
      UpToIsDistinct(o, dir, n - 1, rel, ancestors);
      assert DistinctRels(here) by {
        var d := Stat(e, o.follow);
        assert ProperEntries(o.fs, o.fs[dir]) && ProperEntry(o.fs, e);
        if d.ToDir? && !o.excluded(Join(rel, e.name)) {
          var below := Files(o, d.dir, Join(rel, e.name), ancestors + {dir});
          assert dir in o.fs.Keys - ancestors && here == below;
          if d.dir !in ancestors + {dir} {
            UpToIsDistinct(o, d.dir, |o.fs[d.dir]|, Join(rel, e.name), ancestors + {dir});
          } else {
            assert below == [];
          }
        } else {
          assert |here| <= 1;
        }
      }
      forall f, g | f in before && g in here
        ensures f.rel != g.rel
      {
        InSomeEntry(o, dir, n - 1, rel, ancestors, f);
        var i :| 0 <= i < n - 1 && f in FilesAt(o, dir, o.fs[dir][i], rel, ancestors);
        FilesAreBelow(o, dir, o.fs[dir][i], rel, ancestors, f);
        FilesAreBelow(o, dir, e, rel, ancestors, g);
        if f.rel == g.rel {
          NamesKeepApart(rel, o.fs[dir][i].name, e.name, f.rel);
        }
      }
      Concatenated(before, here);
    }
  }

  lemma Concatenated(a: seq<LocalFile>, b: seq<LocalFile>)
    requires DistinctRels(a) && DistinctRels(b)
    requires forall f, g :: f in a && g in b ==> f.rel != g.rel
    ensures DistinctRels(a + b)
  {
    forall i, j | 0 <= i < j < |a + b|
      ensures (a + b)[i].rel != (a + b)[j].rel
    {
      if i < |a| <= j {
        assert a[i] in a && b[j - |a|] in b;
      }
    }
  }

  /** Aliases and cycles included, no relative path is returned twice. */
  lemma EachPathOnce(o: Options, root: Dir)
    requires WellFormed(o.fs) && root in o.fs
    ensures DistinctRels(Files(o, root, "", {}))
  {
    UpToIsDistinct(o, root, |o.fs[root]|, "", {});
  }
}
