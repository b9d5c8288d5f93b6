/** The recursive file finder `_find_all_files_under` (udib/modiso.py):
    depth first, in `iterdir` order, collecting every entry for which
    `is_file()` holds (as its resolved path) and descending only into
    directories that are not symbolic links. */
module Walk {
  import opened Paths
  import opened Results
  import opened FileTree

  /** The entries strictly below `d`; it shrinks at each descent. */
  function Below(t: Tree, d: Path): set<Path>
  {
    set p | p in t && IsStrictPrefix(d, p)
  }

  lemma BelowShrinks(t: Tree, d: Path, s: Path)
    requires s in t && IsStrictPrefix(d, s)
    ensures Below(t, s) < Below(t, d)
  {
    forall p | p in Below(t, s) ensures p in Below(t, d) {
      assert p[..|d|] == p[..|s|][..|d|];
    }
    assert s in Below(t, d) && s !in Below(t, s);
  }

  /** The walk of the directory entry `d` itself. */
  function WalkDir(t: Tree, d: Path): seq<Path>
    requires d in t && t[d].Dir?
    decreases Below(t, d), 1, 0
  {
    WalkEntries(t, d, t[d].children)
  }

  /** The walk of the children of `d` named in `cs`, in that order. */
  function WalkEntries(t: Tree, d: Path, cs: seq<string>): seq<Path>
    decreases Below(t, d), 0, |cs|
  {
    if cs == [] then []
    else
      var s := d + [cs[0]];
      var here :=
        if IsFile(t, s) then [Resolved(t, s).value]
        else if !IsSymlink(t, s) && IsDir(t, s) then
          BelowShrinks(t, d, s);
          WalkDir(t, s)
        else [];
      here + WalkEntries(t, d, cs[1..])
  }

  /** `_find_all_files_under(d)`: NotADirectoryError unless `d` is a
      directory (after following links), otherwise the walk. */
  function FindAllFiles(t: Tree, d: Path): (r: Result<seq<Path>>)
    ensures r.Ok? <==> IsDir(t, d)
    ensures r.Err? ==> r.error == NotADirectory(d)
  {
    if !IsDir(t, d) then Err(NotADirectory(d))
    else Ok(WalkDir(t, Resolved(t, d).value))
  }

  /** Reference definition: the resolved path of every entry strictly
      below `d` for which `is_file()` holds. */
  ghost function FilesBelow(t: Tree, d: Path): set<Path>
  {
    set s | s in t && IsStrictPrefix(d, s) && IsFile(t, s) :: Resolved(t, s).value
  }

  lemma FilesBelowMono(t: Tree, d: Path, s: Path)
    requires s in t && IsStrictPrefix(d, s)
    ensures FilesBelow(t, s) <= FilesBelow(t, d)
  {
    forall x | x in FilesBelow(t, s) ensures x in FilesBelow(t, d) {
      var p :| p in t && IsStrictPrefix(s, p) && IsFile(t, p) && Resolved(t, p).value == x;
      assert p[..|d|] == p[..|s|][..|d|];
    }
  }

  /** Everything the walk yields is the resolution of a file entry below
      the directory. */
  lemma {:induction false} WalkDirSound(t: Tree, d: Path)
    requires d in t && t[d].Dir?
    ensures forall x :: x in WalkDir(t, d) ==> x in FilesBelow(t, d)
    decreases Below(t, d), 1, 0
  {
    WalkEntriesSound(t, d, t[d].children);
  }

  lemma {:induction false} WalkEntriesSound(t: Tree, d: Path, cs: seq<string>)
    ensures forall x :: x in WalkEntries(t, d, cs) ==> x in FilesBelow(t, d)
    decreases Below(t, d), 0, |cs|
  {
    if cs != [] {
      var s := d + [cs[0]];
      assert s[..|d|] == d;
      WalkEntriesSound(t, d, cs[1..]);
      if IsFile(t, s) {
        assert Resolved(t, s).value in FilesBelow(t, d);
      } else if !IsSymlink(t, s) && IsDir(t, s) {
        BelowShrinks(t, d, s);
        WalkDirSound(t, s);
        FilesBelowMono(t, d, s);
      }
    }
  }

  /** In a well-formed tree every proper prefix of an entry is a
      directory that lists the next component. */
  lemma {:induction false} Ancestor(t: Tree, s: Path, k: nat)
    requires WellFormed(t) && s in t && k < |s|
    ensures s[..k] in t && t[s[..k]].Dir? && s[k] in t[s[..k]].children
    decreases |s|
  {
    var q := s[..|s| - 1];
    assert q + [s[|s| - 1]] == s;
    if k < |s| - 1 {
      Ancestor(t, q, k);
      assert q[..k] == s[..k] && q[k] == s[k];
    } else {
      assert s[..k] == q;
    }
  }

  /** In a well-formed tree the walk misses no file entry below the directory. */
  lemma {:induction false} WalkDirComplete(t: Tree, d: Path)
    requires WellFormed(t) && d in t && t[d].Dir?
    ensures forall s :: s in t && IsStrictPrefix(d, s) && IsFile(t, s) ==> Resolved(t, s).value in WalkDir(t, d)
    decreases Below(t, d), 1, 0
  {
    forall s | s in t && IsStrictPrefix(d, s) && IsFile(t, s)
      ensures Resolved(t, s).value in WalkDir(t, d)
    {
      Ancestor(t, s, |d|);
      assert s[..|d|] == d;
      WalkEntriesComplete(t, d, t[d].children, s);
    }
  }

  lemma {:induction false} WalkEntriesComplete(t: Tree, d: Path, cs: seq<string>, s: Path)
    requires WellFormed(t) && d in t && t[d].Dir?
    requires s in t && IsStrictPrefix(d, s) && IsFile(t, s) && s[|d|] in cs
    ensures Resolved(t, s).value in WalkEntries(t, d, cs)
    decreases Below(t, d), 0, |cs|
  {
    var c := cs[0];
    var u := d + [c];
    if s[|d|] != c {
      WalkEntriesComplete(t, d, cs[1..], s);
    } else if s == u {
      assert IsFile(t, u);
    } else {
      Ancestor(t, s, |d| + 1);
      assert s[..|d| + 1] == u;
      assert IsStrictPrefix(u, s);
      StatPlain(t, u);
      BelowShrinks(t, d, u);
      WalkDirComplete(t, u);
      assert !IsFile(t, u) && !IsSymlink(t, u) && IsDir(t, u);
    }
  }

  /** `_find_all_files_under` on a well-formed tree: it raises exactly
      when the argument is not a directory, and otherwise yields file
      entries, and exactly the resolutions of the file entries below it. */
  lemma FindAllFilesExact(t: Tree, d: Path)
    requires WellFormed(t)
    ensures FindAllFiles(t, d).Ok? ==>
              var q := Resolved(t, d).value;
              && (forall x :: x in FindAllFiles(t, d).value ==> x in t && t[x].File?)
              && (forall x :: x in FindAllFiles(t, d).value <==> x in FilesBelow(t, q))
  {
    if IsDir(t, d) {
      var q := Resolved(t, d).value;
      WalkDirSound(t, q);
      WalkDirComplete(t, q);
      forall x | x in FilesBelow(t, q) ensures x in WalkDir(t, q) {
        var s :| s in t && IsStrictPrefix(q, s) && IsFile(t, s) && Resolved(t, s).value == x;
      }
      forall x | x in WalkDir(t, q) ensures x in t && t[x].File? {
        var s :| s in t && IsStrictPrefix(q, s) && IsFile(t, s) && Resolved(t, s).value == x;
      }
    }
  }
}
