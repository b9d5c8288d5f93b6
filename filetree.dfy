/** A small filesystem as a value: a map from paths to entries, the
    queries `pathlib` makes of it (`exists`, `is_file`, `is_dir`,
    `is_symlink`), and the four primitive operations the stages perform
    (`chmod`, `unlink`, `open(.., "w")` and `read`) as functions from the
    tree before to the tree after, or to the error they raise. */
module FileTree {
  import opened Paths
  import opened Results

  type Byte = b: int | 0 <= b < 256

  /** A directory lists its children's names in the order `iterdir`
      yields them. */
  datatype Entry =
    | File(data: seq<Byte>, mode: nat)
    | Dir(mode: nat, children: seq<string>)
    | Symlink(target: Path)

  type Tree = map<Path, Entry>

  /** Permission bits, written in decimal because Dafny has no octal. */
  const FileWritable: nat := 420  // 0o644
  const DirWritable: nat := 493   // 0o755
  const FileReadOnly: nat := 292  // 0o444
  const DirReadOnly: nat := 365   // 0o555

  /** Mode of a file that `open(.., "w")` creates, under a umask of 022. */
  const NewFileMode: nat := 420   // 0o644

  /** Linux follows at most 40 symbolic links before failing with ELOOP. */
  const MaxSymlinkHops: nat := 40

  predicate Distinct(s: seq<string>)
  {
    forall i, j :: 0 <= i < j < |s| ==> s[i] != s[j]
  }

  /** The root is a directory; every other entry sits in a directory that
      lists it; a directory lists each of its children once, and only
      entries that exist. */
  ghost predicate WellFormed(t: Tree)
  {
    && [] in t && t[[]].Dir?
    && (forall d, c :: d + [c] in t ==> d in t && t[d].Dir? && c in t[d].children)
    && (forall d :: d in t && t[d].Dir? ==> Distinct(t[d].children))
    && (forall d, c :: d in t && t[d].Dir? && c in t[d].children ==> d + [c] in t)
  }

  /** Follows symbolic links from `p`; None when more than `hops` are needed. */
  function Chase(t: Tree, p: Path, hops: nat): (r: Option<Path>)
    ensures r.Some? ==> !(r.value in t && t[r.value].Symlink?)
    ensures !(p in t && t[p].Symlink?) ==> r == Some(p)
    decreases hops
  {
    if p in t && t[p].Symlink? then
      if hops == 0 then None else Chase(t, t[p].target, hops - 1)
    else Some(p)
  }

  /** Where `p` leads once every symbolic link on its last component is followed. */
  function Resolved(t: Tree, p: Path): Option<Path>
  {
    Chase(t, p, MaxSymlinkHops)
  }

  /** The longest prefix of `q` that is an entry of `t`, or the root:
      where a lookup of `q` stops. */
  function Deepest(t: Tree, q: Path): (a: Path)
    ensures |a| <= |q| && a == q[..|a|]
    ensures a in t || a == []
    ensures forall k :: |a| < k <= |q| ==> q[..k] !in t
    decreases |q|
  {
    if q == [] || q in t then q
    else
      var a := Deepest(t, Parent(q));
      assert forall k :: 0 <= k <= |Parent(q)| ==> Parent(q)[..k] == q[..k];
      assert q[..|q|] == q;
      a
  }

  /** The error a lookup of the missing entry `q` raises for `p`: when the
      lookup stops at a file, the next component cannot be looked up in it
      (ENOTDIR); otherwise the component is missing (ENOENT). */
  function MissingError(t: Tree, p: Path, q: Path): Error
  {
    if IsFile(t, Deepest(t, q)) then NotADirectory(p) else FileNotFound(p)
  }

  /** In a well-formed tree every proper prefix of an entry is a directory. */
  lemma {:induction false} AncestorIsDir(t: Tree, a: Path, k: nat)
    requires WellFormed(t) && a in t && k < |a|
    ensures a[..k] in t && t[a[..k]].Dir?
    decreases |a|
  {
    var d := a[..|a| - 1];
    assert d + [a[|a| - 1]] == a;
    assert d in t && t[d].Dir?;
    if k < |d| {
      AncestorIsDir(t, d, k);
      assert d[..k] == a[..k];
    } else {
      assert a[..k] == d;
    }
  }

  /** A lookup that meets a file before its last component raises
      NotADirectoryError. */
  lemma MissingThroughFile(t: Tree, p: Path, q: Path, k: nat)
    requires WellFormed(t) && k < |q| && q[..k] in t && t[q[..k]].File?
    ensures q !in t && MissingError(t, p, q) == NotADirectory(p)
  {
    if q in t {
      AncestorIsDir(t, q, k);
    }
    var a := Deepest(t, q);
    if |a| > k {
      assert a in t && a[..k] == q[..k];
      AncestorIsDir(t, a, k);
    }
    assert |a| == k;
    StatPlain(t, a);
  }

  /** A lookup whose every proper prefix is a directory raises
      FileNotFoundError for a missing last component. */
  lemma MissingInDir(t: Tree, p: Path, q: Path)
    requires WellFormed(t) && q != [] && q !in t && Parent(q) in t && t[Parent(q)].Dir?
    ensures MissingError(t, p, q) == FileNotFound(p)
  {
    StatPlain(t, Parent(q));
  }

  /** `os.stat(p)`, which follows symbolic links; None for a missing path,
      a dangling link or a link loop. */
  function Stat(t: Tree, p: Path): (r: Option<Entry>)
    ensures r.Some? ==> !r.value.Symlink?
  {
    match Resolved(t, p)
    case Some(q) => if q in t then Some(t[q]) else None
    case None => None
  }

  predicate Exists(t: Tree, p: Path) { Stat(t, p).Some? }
  predicate IsFile(t: Tree, p: Path) { Stat(t, p).Some? && Stat(t, p).value.File? }
  predicate IsDir(t: Tree, p: Path) { Stat(t, p).Some? && Stat(t, p).value.Dir? }
  predicate IsSymlink(t: Tree, p: Path) { p in t && t[p].Symlink? }

  /** On an entry that is not a link, `Stat` reads the entry itself. */
  lemma StatPlain(t: Tree, p: Path)
    requires p in t && !t[p].Symlink?
    ensures Resolved(t, p) == Some(p) && Stat(t, p) == Some(t[p])
  {
  }

  /** Two trees with the same links resolve every path alike. */
  lemma {:induction false} ChaseSameLinks(t: Tree, u: Tree, p: Path, hops: nat)
    requires forall x :: (x in t && t[x].Symlink?) <==> (x in u && u[x].Symlink?)
    requires forall x :: x in t && t[x].Symlink? ==> u[x] == t[x]
    ensures Chase(t, p, hops) == Chase(u, p, hops)
    decreases hops
  {
    if p in t && t[p].Symlink? && hops > 0 {
      ChaseSameLinks(t, u, t[p].target, hops - 1);
    }
  }

  /** `names` without `x`. */
  function Without(names: seq<string>, x: string): (r: seq<string>)
    ensures forall y :: y in r <==> y in names && y != x
    ensures Distinct(names) ==> Distinct(r)
  {
    if names == [] then []
    else if names[0] == x then Without(names[1..], x)
    else
      var rest := Without(names[1..], x);
      DistinctCons(names, rest);
      [names[0]] + rest
  }

  lemma DistinctCons(names: seq<string>, rest: seq<string>)
    requires names != [] && forall y :: y in rest ==> y in names[1..]
    ensures Distinct(names) && Distinct(rest) ==> Distinct([names[0]] + rest)
  {
    if Distinct(names) && Distinct(rest) {
      var s := [names[0]] + rest;
      forall i, j | 0 <= i < j < |s| ensures s[i] != s[j] {
        if i == 0 {
          assert s[j] in rest;
          var k :| 0 <= k < |names[1..]| && names[1..][k] == s[j];
          assert names[k + 1] == s[j];
        } else {
          assert s[i] == rest[i - 1] && s[j] == rest[j - 1];
        }
      }
    }
  }

  /** In a well-formed tree every entry but the root lies in a directory
      that lists it. */
  lemma ParentListed(t: Tree, p: Path)
    requires WellFormed(t) && p in t && p != []
    ensures Parent(p) in t && t[Parent(p)].Dir? && Name(p) in t[Parent(p)].children
  {
    ChildOfParent(p);
    assert Parent(p) + [Name(p)] in t;
  }

  lemma ParentOfChild(d: Path, c: string)
    ensures Parent(d + [c]) == d && Name(d + [c]) == c
  {
    assert (d + [c])[..|d|] == d;
  }

  lemma ChildOfParent(p: Path)
    requires p != []
    ensures Parent(p) + [Name(p)] == p
  {
  }

  /** `chmod` on an entry that is not a link. */
  function SetMode(t: Tree, q: Path, m: nat): (r: Tree)
    requires q in t && !t[q].Symlink?
    ensures r.Keys == t.Keys
    ensures r[q] == if t[q].File? then File(t[q].data, m) else Dir(m, t[q].children)
    ensures forall p :: p in t && p != q ==> r[p] == t[p]
    ensures WellFormed(t) ==> WellFormed(r)
  {
    match t[q]
    case File(data, _) => t[q := File(data, m)]
    case Dir(_, children) => t[q := Dir(m, children)]
  }

  /** Deletes a file or link and drops its name from its directory. */
  function Remove(t: Tree, p: Path): (r: Tree)
    requires WellFormed(t) && p in t && !t[p].Dir?
    ensures Parent(p) in t && t[Parent(p)].Dir? && Name(p) in t[Parent(p)].children
    ensures WellFormed(r)
    ensures r.Keys == t.Keys - {p}
    ensures forall q :: q in r && q != Parent(p) ==> r[q] == t[q]
    ensures r[Parent(p)] == Dir(t[Parent(p)].mode, Without(t[Parent(p)].children, Name(p)))
  {
    ParentListed(t, p);
    var d := Parent(p);
    var r := (t - {p})[d := Dir(t[d].mode, Without(t[d].children, Name(p)))];
    RemoveWellFormed(t, p, r);
    r
  }

  lemma RemoveWellFormed(t: Tree, p: Path, r: Tree)
    requires WellFormed(t) && p in t && !t[p].Dir? && Parent(p) in t && t[Parent(p)].Dir?
    requires r == (t - {p})[Parent(p) := Dir(t[Parent(p)].mode, Without(t[Parent(p)].children, Name(p)))]
    ensures WellFormed(r)
  {
    var d, n := Parent(p), Name(p);
    assert p != [];
    ChildOfParent(p);
    assert d + [n] in t;
    forall e, c | e + [c] in r ensures e in r && r[e].Dir? && c in r[e].children {
      assert e + [c] in t;
      if e == d {
        assert e + [c] != p;
        assert c != n;
      }
    }
    forall e, c | e in r && r[e].Dir? && c in r[e].children ensures e + [c] in r {
      if e == d {
        assert c != n && c in t[d].children;
        assert (e + [c])[|d|] == c;
        assert p[|d|] == n;
      } else {
        assert e in t && t[e].Dir? && c in t[e].children;
        ParentOfChild(e, c);
      }
    }
  }

  /** Changing entries without changing which are directories, or what
      these list, keeps a tree well formed. */
  lemma SameShapeWellFormed(t: Tree, u: Tree)
    requires WellFormed(t) && u.Keys == t.Keys
    requires forall p :: p in t ==> (u[p].Dir? <==> t[p].Dir?) && (t[p].Dir? ==> u[p].children == t[p].children)
    ensures WellFormed(u)
  {
    forall d, c | d + [c] in u ensures d in u && u[d].Dir? && c in u[d].children {
      assert d + [c] in t;
    }
  }

  /** Writes a file in place, or creates it at the end of its directory. */
  function PutFile(t: Tree, q: Path, data: seq<Byte>): (r: Tree)
    requires WellFormed(t) && q != [] && Parent(q) in t && t[Parent(q)].Dir?
    requires q in t ==> t[q].File?
    ensures WellFormed(r)
    ensures r.Keys == t.Keys + {q}
    ensures r[q] == File(data, if q in t then t[q].mode else NewFileMode)
    ensures forall p :: p in t && p != q && p != Parent(q) ==> r[p] == t[p]
    ensures r[Parent(q)].Dir? && r[Parent(q)].mode == t[Parent(q)].mode
    ensures q in t ==> r[Parent(q)] == t[Parent(q)]
    ensures q !in t ==> r[Parent(q)].children == t[Parent(q)].children + [Name(q)]
  {
    if q in t then
      var r := t[q := File(data, t[q].mode)];
      SameShapeWellFormed(t, r);
      r
    else
      var d := Parent(q);
      var r := t[q := File(data, NewFileMode)][d := Dir(t[d].mode, t[d].children + [Name(q)])];
      PutFileWellFormed(t, q, data, r);
      r
  }

  lemma PutFileWellFormed(t: Tree, q: Path, data: seq<Byte>, r: Tree)
    requires WellFormed(t) && q != [] && Parent(q) in t && t[Parent(q)].Dir? && q !in t
    requires r == t[q := File(data, NewFileMode)][Parent(q) := Dir(t[Parent(q)].mode, t[Parent(q)].children + [Name(q)])]
    ensures WellFormed(r)
  {
    var d, n := Parent(q), Name(q);
    ChildOfParent(q);
    assert n !in t[d].children;
    assert d != q;
    forall e, c | e + [c] in r ensures e in r && r[e].Dir? && c in r[e].children {
      ParentOfChild(e, c);
      if e + [c] != q {
        assert e + [c] in t;
        assert e != q;
      }
    }
    forall e, c | e in r && r[e].Dir? && c in r[e].children ensures e + [c] in r {
      if e == d && c != n {
        assert c in t[d].children;
      } else if e != d {
        assert e in t && t[e].Dir?;
      }
    }
    forall e | e in r && r[e].Dir? ensures Distinct(r[e].children) {
      if e == d {
        var s := t[d].children + [n];
        forall i, j | 0 <= i < j < |s| ensures s[i] != s[j] {
          if j == |s| - 1 { assert s[i] in t[d].children; }
        }
      }
    }
  }

  /** `Path.chmod(p, m)`: follows links; raises for a missing path. */
  function ChmodStep(t: Tree, p: Path, m: nat): (r: Result<Tree>)
    requires WellFormed(t)
    ensures r.Ok? <==> Exists(t, p)
    ensures r.Ok? ==> WellFormed(r.value) && r.value == SetMode(t, Resolved(t, p).value, m)
    ensures r.Err? ==> r.error == if Resolved(t, p).None? then SymlinkLoop(p) else MissingError(t, p, Resolved(t, p).value)
  {
    match Resolved(t, p)
    case None => Err(SymlinkLoop(p))
    case Some(q) => if q in t then Ok(SetMode(t, q, m)) else Err(MissingError(t, p, q))
  }

  /** `Path.unlink()`: removes the entry itself (a link, not its target);
      raises for a missing path or a directory. */
  function UnlinkStep(t: Tree, p: Path): (r: Result<Tree>)
    requires WellFormed(t)
    ensures r.Ok? <==> p in t && !t[p].Dir?
    ensures r.Ok? ==> WellFormed(r.value) && r.value == Remove(t, p)
    ensures r.Err? ==> r.error == if p !in t then MissingError(t, p, p) else IsADirectory(p)
  {
    if p !in t then Err(MissingError(t, p, p))
    else if t[p].Dir? then Err(IsADirectory(p))
    else Ok(Remove(t, p))
  }

  /** `open(p, "w")` followed by writes of `data` and `close()`: truncates
      the file a link leads to, or creates it; raises when the target is a
      directory or its directory does not exist. */
  function WriteStep(t: Tree, p: Path, data: seq<Byte>): (r: Result<Tree>)
    requires WellFormed(t)
    ensures r.Ok? ==> WellFormed(r.value)
    ensures r.Ok? ==> IsFile(r.value, p) && Stat(r.value, p).value.data == data
    ensures r.Ok? ==> Resolved(t, p).Some? && Resolved(t, p).value != [] &&
                      Parent(Resolved(t, p).value) in t && t[Parent(Resolved(t, p).value)].Dir? &&
                      (Resolved(t, p).value in t ==> t[Resolved(t, p).value].File?) &&
                      r.value == PutFile(t, Resolved(t, p).value, data)
    ensures IsDir(t, p) ==> r == Err(IsADirectory(p))
    ensures IsFile(t, p) ==> r.Ok?
  {
    match Resolved(t, p)
    case None => Err(SymlinkLoop(p))
    case Some(q) =>
      if q in t && t[q].Dir? then Err(IsADirectory(p))
      else if q == [] then Err(IsADirectory(p))
      else
        ChildOfParent(q);
        if Parent(q) !in t then Err(MissingError(t, p, Parent(q)))
        else if !t[Parent(q)].Dir? then Err(NotADirectory(p))
        else
          var r := PutFile(t, q, data);
          assert Resolved(r, p) == Some(q) by { ChaseSameLinks(t, r, p, MaxSymlinkHops); }
          Ok(r)
  }

  /** `open(p, "rb").read()`. */
  function ReadStep(t: Tree, p: Path): (r: Result<seq<Byte>>)
    ensures r.Ok? <==> IsFile(t, p)
    ensures r.Ok? ==> r.value == Stat(t, p).value.data
  {
    match Resolved(t, p)
    case None => Err(SymlinkLoop(p))
    case Some(q) =>
      if q !in t then Err(MissingError(t, p, q))
      else if t[q].Dir? then Err(IsADirectory(p))
      else Ok(t[q].data)
  }

  /** Each step on a path whose lookup meets a file before its last
      component raises NotADirectoryError: `chmod`, `open` and `read`
      after following links on the last component, `unlink` on the path
      itself. */
  lemma StepsThroughFile(t: Tree, p: Path, k: nat, m: nat, data: seq<Byte>)
    requires WellFormed(t) && Resolved(t, p).Some?
    requires var q := Resolved(t, p).value; k < |q| && q[..k] in t && t[q[..k]].File?
    ensures ChmodStep(t, p, m) == Err(NotADirectory(p))
    ensures ReadStep(t, p) == Err(NotADirectory(p))
    ensures WriteStep(t, p, data) == Err(NotADirectory(p))
  {
    var q := Resolved(t, p).value;
    MissingThroughFile(t, p, q, k);
    assert q != [];
    if k < |q| - 1 {
      var d := Parent(q);
      assert d[..k] == q[..k];
      if d in t {
        AncestorIsDir(t, d, k);
      }
      MissingThroughFile(t, p, d, k);
    } else {
      assert Parent(q) == q[..k];
    }
  }

  lemma UnlinkThroughFile(t: Tree, p: Path, k: nat)
    requires WellFormed(t) && k < |p| && p[..k] in t && t[p[..k]].File?
    ensures UnlinkStep(t, p) == Err(NotADirectory(p))
  {
    MissingThroughFile(t, p, p, k);
  }

  /** `open(p, "w")` can create the missing file `p`: the links lead to a
      missing entry whose directory exists. */
  predicate CanCreate(t: Tree, p: Path)
  {
    && Resolved(t, p).Some? && Resolved(t, p).value != []
    && Parent(Resolved(t, p).value) in t && t[Parent(Resolved(t, p).value)].Dir?
  }

  /** Writing to a path that does not exist succeeds exactly when it can
      be created; the new file then sits where the links lead. */
  lemma CreateStep(t: Tree, p: Path, data: seq<Byte>)
    requires WellFormed(t) && !Exists(t, p)
    ensures WriteStep(t, p, data).Ok? <==> CanCreate(t, p)
    ensures WriteStep(t, p, data).Ok? ==>
              Resolved(t, p).value !in t && WriteStep(t, p, data).value == PutFile(t, Resolved(t, p).value, data)
  {
  }

  /** Writing a file changes no link, so every path resolves as before. */
  lemma PutFileResolves(t: Tree, q: Path, data: seq<Byte>, p: Path)
    requires WellFormed(t) && q != [] && Parent(q) in t && t[Parent(q)].Dir?
    requires q in t ==> t[q].File?
    ensures Resolved(PutFile(t, q, data), p) == Resolved(t, p)
  {
    var r := PutFile(t, q, data);
    assert forall x :: (x in t && t[x].Symlink?) <==> (x in r && r[x].Symlink?);
    ChaseSameLinks(t, r, p, MaxSymlinkHops);
  }

  /** `chmod` of the file `p`, then of its directory. */
  function ChmodWithParent(t: Tree, p: Path, fileMode: nat, dirMode: nat): (r: Tree)
    requires WellFormed(t) && p != [] && p in t && t[p].File?
    ensures WellFormed(r) && r.Keys == t.Keys
    ensures r[p] == File(t[p].data, fileMode)
    ensures Parent(p) != p && Parent(p) in t && t[Parent(p)].Dir?
    ensures Parent(p) in r && r[Parent(p)] == Dir(dirMode, t[Parent(p)].children)
    ensures forall x :: x in t && x != p && x != Parent(p) ==> r[x] == t[x]
  {
    ParentListed(t, p);
    SetMode(SetMode(t, p, fileMode), Parent(p), dirMode)
  }

  /** Writing a file twice leaves what the second write left. */
  lemma PutFileTwice(t: Tree, q: Path, a: seq<Byte>, b: seq<Byte>)
    requires WellFormed(t) && q != [] && Parent(q) in t && t[Parent(q)].Dir?
    requires q in t ==> t[q].File?
    ensures PutFile(PutFile(t, q, a), q, b) == PutFile(t, q, b)
  {
    var d := Parent(q);
    if q in t {
      assert t[q := File(a, t[q].mode)][q := File(b, t[q].mode)] == t[q := File(b, t[q].mode)];
    } else {
      assert d != q;
      var ch := t[d].children + [Name(q)];
      assert t[q := File(a, NewFileMode)][d := Dir(t[d].mode, ch)][q := File(b, NewFileMode)] ==
             t[q := File(b, NewFileMode)][d := Dir(t[d].mode, ch)];
    }
  }

  /** Writes `data` to a new file `q` beside the file `p`, then deletes
      `p`: `p`'s directory keeps its mode, and nothing else changes. */
  function Supersede(t: Tree, p: Path, q: Path, data: seq<Byte>): (r: Tree)
    requires WellFormed(t) && p in t && t[p].File? && p != [] && q != [] && q !in t && Parent(q) == Parent(p)
    ensures WellFormed(r) && r.Keys == t.Keys - {p} + {q}
    ensures q in r && r[q] == File(data, NewFileMode)
    ensures Parent(p) in t && t[Parent(p)].Dir? && Parent(p) in r && r[Parent(p)].Dir? && r[Parent(p)].mode == t[Parent(p)].mode
    ensures forall x :: x in t && x != p && x != Parent(p) ==> x in r && r[x] == t[x]
  {
    ParentListed(t, p);
    var t3 := PutFile(t, q, data);
    assert t3[p] == t[p];
    var r := Remove(t3, p);
    assert r[q] == t3[q];
    r
  }

  /** Writing a file the content it already holds changes nothing. */
  lemma PutFileSame(t: Tree, q: Path, data: seq<Byte>)
    requires WellFormed(t) && q != [] && Parent(q) in t && t[Parent(q)].Dir?
    requires q in t && t[q].File? && t[q].data == data
    ensures PutFile(t, q, data) == t
  {
    assert t[q := File(data, t[q].mode)] == t;
  }
}
