/** `regenerate_iso_md5sums_file`: rewrites `md5sum.txt` in the root of an
    extracted image. The two copies (iso/injection.py and udib/modiso.py)
    differ only in the walker they call, which is a parameter here. */
module Md5Sums {
  import opened Paths
  import opened Results
  import opened FileTree
  import opened Utf8
  import opened Host
  import opened Manifest
  import Walk

  function ManifestPath(root: Path): Path
  {
    root + [ManifestName]
  }

  /** Widens the manifest to 0o644 and its directory to 0o755, then deletes
      the manifest; the first step that raises ends it. */
  function Prepare(t: Tree, root: Path): (e: Effect)
    requires WellFormed(t)
    ensures WellFormed(e.tree) && e.calls == []
  {
    var m := ManifestPath(root);
    match ChmodStep(t, m, FileWritable)
    case Err(err) => Effect(Fail(err), t, [])
    case Ok(t1) =>
      match ChmodStep(t1, Parent(m), DirWritable)
      case Err(err) => Effect(Fail(err), t1, [])
      case Ok(t2) =>
        match UnlinkStep(t2, m)
        case Err(err) => Effect(Fail(err), t2, [])
        case Ok(t3) => Effect(Pass, t3, [])
  }

  /** Creates the new manifest, writes one line per walked file (the text
      reaches the file when it is closed, also when the loop raises), and
      on success narrows the modes to 0o444 and 0o555. */
  function Rewrite(t3: Tree, root: Path, files: seq<Path>, md5: seq<Byte> -> string): (e: Effect)
    requires WellFormed(t3)
    ensures WellFormed(e.tree) && e.calls == []
  {
    var m := ManifestPath(root);
    match WriteStep(t3, m, [])
    case Err(err) => Effect(Fail(err), t3, [])
    case Ok(t4) =>
      var (text, failure) := Scan(t4, root, files, md5);
      match WriteStep(t4, m, Encode(text))
      case Err(err) => Effect(Fail(err), t4, [])
      case Ok(t5) =>
        if failure.Some? then Effect(Fail(failure.value), t5, [])
        else match ChmodStep(t5, m, FileReadOnly)
          case Err(err) => Effect(Fail(err), t5, [])
          case Ok(t6) =>
            match ChmodStep(t6, Parent(m), DirReadOnly)
            case Err(err) => Effect(Fail(err), t6, [])
            case Ok(t7) => Effect(Pass, t7, [])
  }

  /** The whole stage, with the walker it uses: NotADirectoryError for a
      root that is not a directory, then preparation, the walk (on the tree
      without the old manifest), and the rewrite. */
  function Regenerate(t: Tree, root: Path, walker: (Tree, Path) -> Result<seq<Path>>, md5: seq<Byte> -> string): (e: Effect)
    requires WellFormed(t)
    ensures WellFormed(e.tree) && e.calls == []
    ensures !IsDir(t, root) ==> e.outcome == Fail(NotADirectory(root)) && e.tree == t
    ensures IsDir(t, root) && !Exists(t, ManifestPath(root)) ==> e.outcome.Fail? && e.tree == t
  {
    if !IsDir(t, root) then Effect(Fail(NotADirectory(root)), t, [])
    else
      var p := Prepare(t, root);
      if p.outcome.Fail? then p
      else match walker(p.tree, root)
        case Err(err) => Effect(Fail(err), p.tree, [])
        case Ok(files) => Rewrite(p.tree, root, files, md5)
  }

  /** The walker of udib/modiso.py. */
  function UdibWalker(t: Tree, d: Path): Result<seq<Path>>
  {
    Walk.FindAllFiles(t, d)
  }

  /** The stage as the program runs it, on the filesystem. */
  method RegenerateMd5Sums(fs: FileSystem, root: Path, walker: (Tree, Path) -> Result<seq<Path>>, md5: seq<Byte> -> string)
    returns (r: Outcome)
    requires fs.Valid()
    modifies fs
    ensures fs.Valid() && fs.log == old(fs.log)
    ensures r == Regenerate(old(fs.entries), root, walker, md5).outcome
    ensures fs.entries == Regenerate(old(fs.entries), root, walker, md5).tree
  {
    if !IsDir(fs.entries, root) {
      return Fail(NotADirectory(root));
    }
    r := PrepareManifest(fs, root);
    if r.Fail? { return; }
    var walked := walker(fs.entries, root);
    if walked.Err? {
      return Fail(walked.error);
    }
    r := RewriteManifest(fs, root, walked.value, md5);
  }

  method PrepareManifest(fs: FileSystem, root: Path) returns (r: Outcome)
    requires fs.Valid()
    modifies fs
    ensures fs.Valid() && fs.log == old(fs.log)
    ensures r == Prepare(old(fs.entries), root).outcome && fs.entries == Prepare(old(fs.entries), root).tree
  {
    var m := ManifestPath(root);
    r := fs.Chmod(m, FileWritable);
    if r.Fail? { return; }
    r := fs.Chmod(Parent(m), DirWritable);
    if r.Fail? { return; }
    r := fs.Unlink(m);
  }

  method RewriteManifest(fs: FileSystem, root: Path, files: seq<Path>, md5: seq<Byte> -> string) returns (r: Outcome)
    requires fs.Valid()
    modifies fs
    ensures fs.Valid() && fs.log == old(fs.log)
    ensures r == Rewrite(old(fs.entries), root, files, md5).outcome && fs.entries == Rewrite(old(fs.entries), root, files, md5).tree
  {
    var m := ManifestPath(root);
    r := fs.Write(m, []);
    if r.Fail? { return; }
    var text, failure := ScanFiles(fs, root, files, md5);
    var closed := fs.Write(m, Encode(text));
    if closed.Fail? {
      return closed;
    }
    if failure.Some? {
      return Fail(failure.value);
    }
    r := fs.Chmod(m, FileReadOnly);
    if r.Fail? { return; }
    r := fs.Chmod(Parent(m), DirReadOnly);
  }

  /** The loop over the walked files: reads each one and appends its line,
      stopping at the first file that raises. */
  method ScanFiles(fs: FileSystem, root: Path, files: seq<Path>, md5: seq<Byte> -> string)
    returns (text: string, failure: Option<Error>)
    ensures (text, failure) == Scan(fs.entries, root, files, md5)
  {
    text, failure := "", None;
    var i := 0;
    while i < |files| && failure.None?
      invariant 0 <= i <= |files|
      invariant Scan(fs.entries, root, files[..i], md5) == (text, failure)
      invariant failure.Some? ==> Scan(fs.entries, root, files, md5) == (text, failure)
    {
      var x := files[i];
      assert files[..i + 1][..i] == files[..i];
      var data := fs.Read(x);
      if data.Err? {
        failure := Some(data.error);
      } else {
        var rel := RelativeTo(x, root);
        if rel.Err? {
          failure := Some(rel.error);
        } else {
          text := text + Line(md5(data.value), rel.value);
        }
      }
      if failure.Some? {
        ScanStops(fs.entries, root, files, md5, i + 1);
      }
      i := i + 1;
    }
    assert failure.None? ==> files[..i] == files;
  }

  /** Once the loop has raised, the files after the one that raised are
      never looked at. */
  lemma {:induction false} ScanStops(t: Tree, root: Path, files: seq<Path>, md5: seq<Byte> -> string, k: nat)
    requires k <= |files| && Scan(t, root, files[..k], md5).1.Some?
    ensures Scan(t, root, files, md5) == Scan(t, root, files[..k], md5)
    decreases |files| - k
  {
    if k < |files| {
      var prefix := files[..k + 1];
      assert prefix[..|prefix| - 1] == files[..k];
      ScanStops(t, root, files, md5, k + 1);
    } else {
      assert files[..k] == files;
    }
  }

  /** The layout the stage expects: a plain root directory holding a plain
      `md5sum.txt`. */
  ghost predicate PlainLayout(t: Tree, root: Path)
  {
    root in t && t[root].Dir? && ManifestPath(root) in t && t[ManifestPath(root)].File?
  }

  /** No component of any path holds a newline, so no relative path breaks
      a manifest line. */
  ghost predicate NoNewlineNames(t: Tree)
  {
    forall p, k :: p in t && 0 <= k < |p| ==> NoNewline(p[k])
  }

  /** A walker that yields only regular-file entries of the tree it walks. */
  ghost predicate YieldsFiles(walker: (Tree, Path) -> Result<seq<Path>>)
  {
    forall u: Tree, d: Path, x: Path :: walker(u, d).Ok? && x in walker(u, d).value ==> x in u && u[x].File?
  }

  /** The manifest bytes `data` are the UTF-8 text of a manifest that
      lists, line by line, each of `files` with the MD5 digest of its
      content in `t` and its path relative to `root`. */
  ghost predicate Records(data: seq<Byte>, t: Tree, root: Path, files: seq<Path>, md5: seq<Byte> -> string)
  {
    exists text :: Encode(text) == data && ParseManifest(text).Some? && |ParseManifest(text).value| == |files| &&
      forall k :: 0 <= k < |files| ==>
        files[k] in t && t[files[k]].File? && IsPrefix(root, files[k]) &&
        ParseManifest(text).value[k] == ManifestEntry(md5(t[files[k]].data), RelPath(files[k], root))
  }

  /** The tree once the old manifest is widened, its directory widened and
      the manifest deleted. */
  function Cleared(t: Tree, root: Path): (r: Tree)
    requires WellFormed(t) && PlainLayout(t, root)
    ensures WellFormed(r) && r.Keys == t.Keys - {ManifestPath(root)}
    ensures r[root].Dir? && r[root].mode == DirWritable
    ensures forall p :: p in r && p != root ==> r[p] == t[p]
  {
    var m := ManifestPath(root);
    ParentOfChild(root, ManifestName);
    Remove(ChmodWithParent(t, m, FileWritable, DirWritable), m)
  }

  /** On the layout the stage expects, preparation raises nothing. */
  lemma PrepareClears(t: Tree, root: Path)
    requires WellFormed(t) && PlainLayout(t, root)
    ensures Prepare(t, root) == Effect(Pass, Cleared(t, root), [])
  {
    var m := ManifestPath(root);
    ParentOfChild(root, ManifestName);
    StatPlain(t, m);
    StatPlain(SetMode(t, m, FileWritable), root);
  }

  lemma {:induction false} JoinNoNewline(parts: seq<string>)
    requires forall k :: 0 <= k < |parts| ==> NoNewline(parts[k])
    ensures NoNewline(Join(parts, "/"))
  {
    if |parts| > 1 {
      JoinNoNewline(parts[1..]);
      var head, rest := parts[0], Join(parts[1..], "/");
      assert Join(parts, "/") == head + "/" + rest;
      NoNewlineConcat(head, "/");
      NoNewlineConcat(head + "/", rest);
    }
  }

  lemma NoNewlineConcat(a: string, b: string)
    requires NoNewline(a) && NoNewline(b)
    ensures NoNewline(a + b)
  {
    forall i | 0 <= i < |a + b| ensures (a + b)[i] != '\n' {
      if i >= |a| { assert (a + b)[i] == b[i - |a|]; }
    }
  }

  /** Relative paths of entries with newline-free names are newline-free. */
  lemma RelPathNoNewline(t: Tree, root: Path, x: Path)
    requires NoNewlineNames(t) && x in t && IsPrefix(root, x)
    ensures NoNewline(RelPath(x, root))
  {
    if |x| > |root| {
      var parts := x[|root|..];
      forall k | 0 <= k < |parts| ensures NoNewline(parts[k]) {
        assert parts[k] == x[|root| + k];
      }
      JoinNoNewline(parts);
    }
  }

  /** The tree after the new, still empty manifest is created. */
  lemma OpenManifest(t3: Tree, root: Path, files: seq<Path>)
    requires WellFormed(t3) && root in t3 && t3[root].Dir? && ManifestPath(root) !in t3
    requires forall x :: x in files ==> x in t3 && t3[x].File?
    ensures var m := ManifestPath(root);
            && Parent(m) == root && m != root
            && WriteStep(t3, m, []) == Ok(PutFile(t3, m, []))
            && forall x :: x in files ==> x != m && x != root && PutFile(t3, m, [])[x] == t3[x]
  {
    ParentOfChild(root, ManifestName);
  }

  /** The trees the rewrite passes through, written out: the empty
      manifest created, then filled with the loop's text when closed, then
      both modes narrowed when the loop did not raise. */
  lemma RewriteSteps(t3: Tree, root: Path, files: seq<Path>, md5: seq<Byte> -> string)
    requires WellFormed(t3) && root in t3 && t3[root].Dir? && ManifestPath(root) !in t3
    requires forall x :: x in files ==> x in t3 && t3[x].File?
    ensures var m := ManifestPath(root);
            var t4 := PutFile(t3, m, []);
            var sc := Scan(t4, root, files, md5);
            var t5 := PutFile(t4, m, Encode(sc.0));
            && (forall x :: x in files ==> IsFile(t4, x) && Stat(t4, x).value == t3[x] && t5[x] == t3[x])
            && m in t5 && t5[m].File? && root in t5 && t5[root].Dir?
            && Rewrite(t3, root, files, md5) ==
                 if sc.1.Some? then Effect(Fail(sc.1.value), t5, [])
                 else Effect(Pass, ChmodWithParent(t5, m, FileReadOnly, DirReadOnly), [])
  {
    var m := ManifestPath(root);
    OpenManifest(t3, root, files);
    var t4 := PutFile(t3, m, []);
    forall x | x in files ensures IsFile(t4, x) && Stat(t4, x).value == t3[x] {
      StatPlain(t4, x);
    }
    var sc := Scan(t4, root, files, md5);
    StatPlain(t4, m);
    var t5 := PutFile(t4, m, Encode(sc.0));
    assert WriteStep(t4, m, Encode(sc.0)) == Ok(t5);
    if sc.1.None? {
      StatPlain(t5, m);
      var t6 := SetMode(t5, m, FileReadOnly);
      StatPlain(t6, root);
    }
  }

  /** The rewrite moves the manifest to the end of the root's listing
      and changes nothing else but the modes of the manifest and the root. */
  lemma RewriteFrame(t3: Tree, root: Path, files: seq<Path>, md5: seq<Byte> -> string)
    requires WellFormed(t3) && root in t3 && t3[root].Dir? && ManifestPath(root) !in t3
    requires forall x :: x in files ==> x in t3 && t3[x].File?
    ensures var e, m := Rewrite(t3, root, files, md5), ManifestPath(root);
            && e.tree.Keys == t3.Keys + {m}
            && (forall p :: p in t3 && p != root ==> e.tree[p] == t3[p])
            && e.tree[root].Dir? && e.tree[root].children == t3[root].children + [ManifestName]
            && e.tree[m].File?
  {
    ParentOfChild(root, ManifestName);
    RewriteSteps(t3, root, files, md5);
  }

  /** The rewrite succeeds exactly when every walked file lies below the
      root; then the manifest records every walked file with the digest of
      its content, and both modes are narrowed to 0o444 and 0o555. */
  lemma RewritePass(t3: Tree, root: Path, files: seq<Path>, md5: seq<Byte> -> string)
    requires WellFormed(t3) && root in t3 && t3[root].Dir? && ManifestPath(root) !in t3
    requires forall x :: x in files ==> x in t3 && t3[x].File?
    requires forall x :: IsHexDigest(md5(x))
    requires NoNewlineNames(t3)
    ensures var e, m := Rewrite(t3, root, files, md5), ManifestPath(root);
            && (e.outcome == Pass <==> forall k :: 0 <= k < |files| ==> IsPrefix(root, files[k]))
            && (e.outcome == Pass ==>
                  m in e.tree && e.tree[m].File? && e.tree[m].mode == FileReadOnly &&
                  root in e.tree && e.tree[root].Dir? && e.tree[root].mode == DirReadOnly &&
                  Records(e.tree[m].data, e.tree, root, files, md5))
  {
    var m := ManifestPath(root);
    ParentOfChild(root, ManifestName);
    RewriteSteps(t3, root, files, md5);
    var t4 := PutFile(t3, m, []);
    var sc := Scan(t4, root, files, md5);
    ScanOutcome(t4, root, files, md5);
    var t5 := PutFile(t4, m, Encode(sc.0));
    if sc.1.None? {
      var t7 := ChmodWithParent(t5, m, FileReadOnly, DirReadOnly);
      ManifestRecorded(t3, t4, t7, root, files, md5);
    } else {
      var k :| 0 <= k < |files| && !Listable(t4, root, files[k]);
      assert files[k] in files;
    }
  }

  lemma ManifestRecorded(t3: Tree, t4: Tree, t7: Tree, root: Path, files: seq<Path>, md5: seq<Byte> -> string)
    requires forall x :: IsHexDigest(md5(x))
    requires NoNewlineNames(t3)
    requires forall x :: x in files ==> x in t3 && t3[x].File? && IsFile(t4, x) && Stat(t4, x).value == t3[x]
    requires forall x :: x in files ==> x in t7 && t7[x] == t3[x]
    requires Scan(t4, root, files, md5).1.None?
    requires ManifestPath(root) in t7 && t7[ManifestPath(root)].File?
    requires t7[ManifestPath(root)].data == Encode(Scan(t4, root, files, md5).0)
    ensures Records(t7[ManifestPath(root)].data, t7, root, files, md5)
  {
    var text := Scan(t4, root, files, md5).0;
    ScanOutcome(t4, root, files, md5);
    forall k | 0 <= k < |files| ensures Listable(t4, root, files[k]) && NoNewline(RelPath(files[k], root)) {
      assert files[k] in files;
      RelPathNoNewline(t3, root, files[k]);
    }
    ScanRoundTrip(t4, root, files, md5);
    var es := ParseManifest(text).value;
    forall k | 0 <= k < |files|
      ensures files[k] in t7 && t7[files[k]].File? && IsPrefix(root, files[k]) &&
              es[k] == ManifestEntry(md5(t7[files[k]].data), RelPath(files[k], root))
    {
      assert files[k] in files;
    }
  }

  /** When some walked file lies outside the root the rewrite raises
      ValueError for the first such file, after the text of the files
      before it has reached the manifest, and leaves the manifest at
      0o644 and the root's mode as it was. */
  lemma RewriteFail(t3: Tree, root: Path, files: seq<Path>, md5: seq<Byte> -> string)
    requires WellFormed(t3) && root in t3 && t3[root].Dir? && ManifestPath(root) !in t3
    requires forall x :: x in files ==> x in t3 && t3[x].File?
    ensures var e, m := Rewrite(t3, root, files, md5), ManifestPath(root);
            e.outcome.Fail? ==>
              && m in e.tree && e.tree[m] == File(Encode(Scan(t3, root, files[..FirstOutside(root, files)], md5).0), NewFileMode)
              && root in e.tree && e.tree[root].Dir? && e.tree[root].mode == t3[root].mode
              && FirstOutside(root, files) < |files|
              && e.outcome == Fail(NotRelative(files[FirstOutside(root, files)], root))
  {
    var m := ManifestPath(root);
    ParentOfChild(root, ManifestName);
    RewriteSteps(t3, root, files, md5);
    var t4 := PutFile(t3, m, []);
    var sc := Scan(t4, root, files, md5);
    ScanOutcome(t4, root, files, md5);
    if sc.1.Some? {
      var k :| 0 <= k < |files| && !Listable(t4, root, files[k]) &&
               (forall j :: 0 <= j < k ==> Listable(t4, root, files[j])) &&
               sc == (Scan(t4, root, files[..k], md5).0, Some(FileError(t4, root, files[k])));
      assert files[k] in files;
      assert IsFile(t4, files[k]) && ReadStep(t4, files[k]).Ok?;
      assert FileError(t4, root, files[k]) == NotRelative(files[k], root);
      assert Rewrite(t3, root, files, md5).outcome == Fail(NotRelative(files[k], root));
      assert forall j :: 0 <= j < k ==> IsPrefix(root, files[j]);
      FirstOutsideIs(root, files, k);
      ScanSameFiles(t3, t4, root, files[..k], md5);
    }
  }

  /** The index of the first path not below `root`, or the length. */
  function FirstOutside(root: Path, files: seq<Path>): (k: nat)
    ensures k <= |files|
    ensures forall j :: 0 <= j < k ==> IsPrefix(root, files[j])
    ensures k < |files| ==> !IsPrefix(root, files[k])
  {
    if files == [] then 0
    else if !IsPrefix(root, files[0]) then 0
    else 1 + FirstOutside(root, files[1..])
  }

  lemma FirstOutsideIs(root: Path, files: seq<Path>, k: nat)
    requires k < |files| && !IsPrefix(root, files[k]) && forall j :: 0 <= j < k ==> IsPrefix(root, files[j])
    ensures FirstOutside(root, files) == k
  {
  }

  /** The loop reads the same from two trees that agree on the walked files. */
  lemma {:induction false} ScanSameFiles(t: Tree, u: Tree, root: Path, files: seq<Path>, md5: seq<Byte> -> string)
    requires forall x :: x in files ==> x in t && t[x].File? && x in u && u[x] == t[x]
    ensures Scan(t, root, files, md5) == Scan(u, root, files, md5)
  {
    if files != [] {
      var init := files[..|files| - 1];
      var x := files[|files| - 1];
      assert forall y :: y in init ==> y in files;
      ScanSameFiles(t, u, root, init, md5);
      StatPlain(t, x);
      StatPlain(u, x);
    }
  }

  /** The udib walker yields regular-file entries only. */
  lemma UdibYieldsFiles()
    ensures YieldsFiles(UdibWalker)
  {
    forall u: Tree, d: Path, x: Path | UdibWalker(u, d).Ok? && x in UdibWalker(u, d).value
      ensures x in u && u[x].File?
    {
      var q := Resolved(u, d).value;
      Walk.WalkDirSound(u, q);
      var s :| s in u && IsStrictPrefix(q, s) && IsFile(u, s) && Resolved(u, s).value == x;
    }
  }

  /** Deleting the old manifest takes exactly it out of the files below
      the root: links are untouched, and a link to the manifest dangles. */
  lemma ClearedFiles(t: Tree, root: Path)
    requires WellFormed(t) && PlainLayout(t, root)
    ensures Walk.FilesBelow(Cleared(t, root), root) == Walk.FilesBelow(t, root) - {ManifestPath(root)}
  {
    ClearedFilesFewer(t, root);
    ClearedFilesKept(t, root);
  }

  lemma ClearedFilesFewer(t: Tree, root: Path)
    requires WellFormed(t) && PlainLayout(t, root)
    ensures forall x :: x in Walk.FilesBelow(Cleared(t, root), root) ==> x in Walk.FilesBelow(t, root) && x != ManifestPath(root)
  {
    var m, t3 := ManifestPath(root), Cleared(t, root);
    forall x | x in Walk.FilesBelow(t3, root) ensures x in Walk.FilesBelow(t, root) && x != m {
      var s :| s in t3 && IsStrictPrefix(root, s) && IsFile(t3, s) && Resolved(t3, s).value == x;
      ClearedEntry(t, root, s);
    }
  }

  lemma ClearedFilesKept(t: Tree, root: Path)
    requires WellFormed(t) && PlainLayout(t, root)
    ensures forall x :: x in Walk.FilesBelow(t, root) && x != ManifestPath(root) ==> x in Walk.FilesBelow(Cleared(t, root), root)
  {
    var m, t3 := ManifestPath(root), Cleared(t, root);
    forall x | x in Walk.FilesBelow(t, root) && x != m ensures x in Walk.FilesBelow(t3, root) {
      var s :| s in t && IsStrictPrefix(root, s) && IsFile(t, s) && Resolved(t, s).value == x;
      ClearedEntry(t, root, s);
    }
  }

  /** An entry other than the old manifest is a file below the root, and
      resolves to a file other than the manifest, alike before and after the
      manifest is deleted. */
  lemma ClearedEntry(t: Tree, root: Path, s: Path)
    requires WellFormed(t) && PlainLayout(t, root)
    ensures var t3, m := Cleared(t, root), ManifestPath(root);
            (s in t3 && IsFile(t3, s)) ==> (s in t && IsFile(t, s) && Resolved(t, s) == Resolved(t3, s) && Resolved(t, s).value != m)
    ensures var t3, m := Cleared(t, root), ManifestPath(root);
            (s in t && IsFile(t, s) && Resolved(t, s).value != m) ==> (s in t3 && IsFile(t3, s) && Resolved(t, s) == Resolved(t3, s))
  {
    var t3, m := Cleared(t, root), ManifestPath(root);
    ClearedResolves(t, root, s);
    var q := Resolved(t, s);
    if q.Some? && q.value in t && t[q.value].File? && q.value != m {
      assert q.value != root;
      assert q.value in t3 && t3[q.value] == t[q.value];
    }
    if s in t && t[s].File? {
      assert s == q.value;
    }
  }

  /** A path resolves alike before and after the old manifest is deleted. */
  lemma ClearedResolves(t: Tree, root: Path, s: Path)
    requires WellFormed(t) && PlainLayout(t, root)
    ensures Resolved(t, s) == Resolved(Cleared(t, root), s)
  {
    var t3 := Cleared(t, root);
    assert forall x :: (x in t && t[x].Symlink?) <==> (x in t3 && t3[x].Symlink?);
    ChaseSameLinks(t, t3, s, MaxSymlinkHops);
  }

  /** With the layout in place the checks pass and the old manifest is
      deleted before the walk. */
  lemma RegenerateUnfold(t: Tree, root: Path, walker: (Tree, Path) -> Result<seq<Path>>, md5: seq<Byte> -> string)
    requires WellFormed(t) && PlainLayout(t, root)
    ensures Regenerate(t, root, walker, md5) ==
              match walker(Cleared(t, root), root)
              case Err(err) => Effect(Fail(err), Cleared(t, root), [])
              case Ok(files) => Rewrite(Cleared(t, root), root, files, md5)
  {
    StatPlain(t, root);
    PrepareClears(t, root);
  }

  /** Regeneration on a plain layout, with any walker that yields file
      entries (the walker of iso/injection.py is such an outside function),
      once the walk returned `files`: the walk saw the tree without the old
      manifest, so the manifest never lists itself; afterwards the tree
      holds the same paths, and only the manifest and the root differ. */
  lemma RegenerateFrame(t: Tree, root: Path, walker: (Tree, Path) -> Result<seq<Path>>, md5: seq<Byte> -> string, files: seq<Path>)
    requires WellFormed(t) && PlainLayout(t, root)
    requires YieldsFiles(walker) && walker(Cleared(t, root), root) == Ok(files)
    ensures ManifestPath(root) !in files
    ensures Regenerate(t, root, walker, md5).tree.Keys == t.Keys
    ensures forall p :: p in t && p != ManifestPath(root) && p != root ==>
              p in Regenerate(t, root, walker, md5).tree && Regenerate(t, root, walker, md5).tree[p] == t[p]
    ensures ManifestPath(root) in Regenerate(t, root, walker, md5).tree && Regenerate(t, root, walker, md5).tree[ManifestPath(root)].File?
    ensures root in Regenerate(t, root, walker, md5).tree && Regenerate(t, root, walker, md5).tree[root].Dir?
  {
    var m, t3 := ManifestPath(root), Cleared(t, root);
    RegenerateUnfold(t, root, walker, md5);
    assert forall x :: x in files ==> x in t3 && t3[x].File?;
    RewriteFrame(t3, root, files, md5);
    var e := Rewrite(t3, root, files, md5);
    assert Regenerate(t, root, walker, md5) == e;
    AddBack(t.Keys, m);
    forall p | p in t && p != m && p != root ensures p in e.tree && e.tree[p] == t[p] {
      assert p in t3;
    }
    assert m in e.tree && e.tree[m].File? && root in e.tree && e.tree[root].Dir?;
  }

  lemma AddBack(keys: set<Path>, a: Path)
    requires a in keys
    ensures keys - {a} + {a} == keys
  {
  }

  /** Then the stage succeeds exactly when every walked file lies below
      the root, and the manifest records each walked file with the digest
      of the content it still has, at mode 0o444 in a root at 0o555. */
  lemma RegeneratePass(t: Tree, root: Path, walker: (Tree, Path) -> Result<seq<Path>>, md5: seq<Byte> -> string, files: seq<Path>)
    requires WellFormed(t) && PlainLayout(t, root) && NoNewlineNames(t)
    requires YieldsFiles(walker) && forall x :: IsHexDigest(md5(x))
    requires walker(Cleared(t, root), root) == Ok(files)
    ensures var e := Regenerate(t, root, walker, md5);
            e.outcome == Pass <==> forall k :: 0 <= k < |files| ==> IsPrefix(root, files[k])
    ensures var e, m := Regenerate(t, root, walker, md5), ManifestPath(root);
            e.outcome == Pass ==>
              m in e.tree && e.tree[m].File? && e.tree[m].mode == FileReadOnly &&
              root in e.tree && e.tree[root].Dir? && e.tree[root].mode == DirReadOnly &&
              Records(e.tree[m].data, e.tree, root, files, md5)
  {
    var t3 := Cleared(t, root);
    RegenerateUnfold(t, root, walker, md5);
    assert forall x :: x in files ==> x in t3 && t3[x].File?;
    assert NoNewlineNames(t3);
    RewritePass(t3, root, files, md5);
  }

  /** Otherwise it raises ValueError for the first walked file outside
      the root and leaves the manifest at 0o644 and the root at 0o755. */
  lemma RegenerateFail(t: Tree, root: Path, walker: (Tree, Path) -> Result<seq<Path>>, md5: seq<Byte> -> string, files: seq<Path>)
    requires WellFormed(t) && PlainLayout(t, root)
    requires YieldsFiles(walker) && walker(Cleared(t, root), root) == Ok(files)
    ensures var e, m := Regenerate(t, root, walker, md5), ManifestPath(root);
            e.outcome.Fail? ==>
              FirstOutside(root, files) < |files| &&
              e.outcome == Fail(NotRelative(files[FirstOutside(root, files)], root)) &&
              m in e.tree && e.tree[m].File? && e.tree[m].mode == NewFileMode &&
              root in e.tree && e.tree[root].Dir? && e.tree[root].mode == DirWritable
  {
    var t3 := Cleared(t, root);
    RegenerateUnfold(t, root, walker, md5);
    assert forall x :: x in files ==> x in t3 && t3[x].File?;
    RewriteFrame(t3, root, files, md5);
    RewriteFail(t3, root, files, md5);
  }

  /** Regeneration as udib/modiso.py does it: the walk cannot fail, and it
      lists exactly the files below the root other than the deleted
      manifest, so the three lemmas above apply to that list. */
  lemma RegenerateUdib(t: Tree, root: Path, md5: seq<Byte> -> string)
    requires WellFormed(t) && PlainLayout(t, root) && NoNewlineNames(t)
    requires forall x :: IsHexDigest(md5(x))
    ensures YieldsFiles(UdibWalker) && UdibWalker(Cleared(t, root), root).Ok?
    ensures forall x :: x in UdibWalker(Cleared(t, root), root).value <==>
              x in Walk.FilesBelow(t, root) && x != ManifestPath(root)
  {
    var t3 := Cleared(t, root);
    UdibYieldsFiles();
    StatPlain(t3, root);
    Walk.FindAllFilesExact(t3, root);
    ClearedFiles(t, root);
  }
}
