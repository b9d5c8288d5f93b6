/** `repack_iso` (iso/injection.py and udib/modiso.py, which agree): the
    checks on its arguments, the volume name check, and the `xorriso -as
    mkisofs` command line that masters the bootable image. */
module Repack {
  import opened Paths
  import opened Results
  import opened FileTree
  import opened Host

  /** A character matched by `\w`, restricted to ASCII. */
  predicate IsWordChar(c: char)
  {
    'a' <= c <= 'z' || 'A' <= c <= 'Z' || '0' <= c <= '9' || c == '_'
  }

  /** A character the volume name may hold: one outside `[^\w .-]`. */
  predicate IsNameChar(c: char)
  {
    IsWordChar(c) || c == ' ' || c == '.' || c == '-'
  }

  /** `re.search(r"[^\w .-]", name)`: the first character the name may
      not hold, if there is one. */
  function InvalidChar(name: string): (r: Option<char>)
    ensures r.None? <==> forall k :: 0 <= k < |name| ==> IsNameChar(name[k])
    ensures r.Some? ==> exists k :: 0 <= k < |name| && name[k] == r.value && !IsNameChar(name[k]) &&
                          forall j :: 0 <= j < k ==> IsNameChar(name[j])
  {
    if name == [] then None
    else if !IsNameChar(name[0]) then Some(name[0])
    else
      var r := InvalidChar(name[1..]);
      assert forall k :: 0 <= k < |name[1..]| ==> name[1..][k] == name[k + 1];
      r
  }

  /** The command line, with the name after `-V`, the output after `-o`,
      the boot record after `-isohybrid-mbr` and the tree root last. */
  function RepackArgv(name: string, out: Path, mbr: Path, root: Path): seq<string>
  {
    ["xorriso", "-as", "mkisofs",
     "-r", "-V", name,
     "-o", PathString(out),
     "-J", "-J", "-joliet-long", "-cache-inodes",
     "-isohybrid-mbr", PathString(mbr),
     "-b", "isolinux/isolinux.bin",
     "-c", "isolinux/boot.cat",
     "-boot-load-size", "4", "-boot-info-table", "-no-emul-boot",
     "-eltorito-alt-boot",
     "-e", "boot/grub/efi.img", "-no-emul-boot",
     "-isohybrid-gpt-basdat", "-isohybrid-apm-hfsplus",
     PathString(root)]
  }

  /** The positions the arguments take in the 29-word command line. */
  predicate IsArgumentSlot(k: int)
  {
    k == 5 || k == 7 || k == 13 || k == 28
  }

  /** The command line holds the four arguments at their slots, unchanged,
      each after its flag, with the tree root last. */
  lemma RepackArgvShape(name: string, out: Path, mbr: Path, root: Path)
    ensures var argv := RepackArgv(name, out, mbr, root);
            && |argv| == 29 && argv[0] == "xorriso"
            && argv[4] == "-V" && argv[5] == name
            && argv[6] == "-o" && argv[7] == PathString(out)
            && argv[12] == "-isohybrid-mbr" && argv[13] == PathString(mbr)
            && argv[28] == PathString(root)
  {
  }

  /** Every word outside the four slots is the same whatever the
      arguments are. */
  lemma RepackArgvFixed(name: string, out: Path, mbr: Path, root: Path, name': string, out': Path, mbr': Path, root': Path)
    ensures forall k :: 0 <= k < 29 && !IsArgumentSlot(k) ==>
              RepackArgv(name, out, mbr, root)[k] == RepackArgv(name', out', mbr', root')[k]
  {
  }

  /** The checks passed before anything is started. */
  predicate Admissible(t: Tree, out: Path, mbr: Path, root: Path, name: string)
  {
    !Exists(t, out) && IsFile(t, mbr) && IsDir(t, root) && InvalidChar(name).None?
  }

  /** The stage: the checks in the order the source makes them, then one
      run of xorriso; a run that does not produce the image at `out`
      raises RuntimeError. */
  function RepackIso(t: Tree, tools: Tools, out: Path, mbr: Path, root: Path, name: string): (e: Effect)
    requires WellFormed(t)
    ensures WellFormed(e.tree)
    ensures e.outcome.Fail? ==> e.tree == t
    ensures e.calls == [] <==> !Admissible(t, out, mbr, root, name)
  {
    if Exists(t, out) then Effect(Fail(FileExists(out)), t, [])
    else if !IsFile(t, mbr) then Effect(Fail(FileNotFound(mbr)), t, [])
    else if !IsDir(t, root) then Effect(Fail(NotADirectory(root)), t, [])
    else match InvalidChar(name)
      case Some(c) => Effect(Fail(InvalidNameChar(c)), t, [])
      case None =>
        var call := Invocation(RepackArgv(name, out, mbr, root), None, [], false);
        match tools.mkisofs(t, call.argv)
        case None => Effect(Fail(ProcessFailed(root)), t, [call])
        case Some(image) =>
          match WriteStep(t, out, image)
          case Err(_) => Effect(Fail(ProcessFailed(root)), t, [call])
          case Ok(u) => Effect(Pass, u, [call])
  }

  /** The checks come in this order, and all of them before xorriso runs. */
  lemma RepackCheckOrder(t: Tree, tools: Tools, out: Path, mbr: Path, root: Path, name: string)
    requires WellFormed(t)
    ensures var e := RepackIso(t, tools, out, mbr, root, name);
            && (Exists(t, out) ==> e.outcome == Fail(FileExists(out)))
            && (!Exists(t, out) && !IsFile(t, mbr) ==> e.outcome == Fail(FileNotFound(mbr)))
            && (!Exists(t, out) && IsFile(t, mbr) && !IsDir(t, root) ==> e.outcome == Fail(NotADirectory(root)))
            && (!Exists(t, out) && IsFile(t, mbr) && IsDir(t, root) && InvalidChar(name).Some? ==>
                  e.outcome == Fail(InvalidNameChar(InvalidChar(name).value)))
  {
  }

  /** Once the checks pass, xorriso runs once with the fixed command line;
      the stage succeeds exactly when it produces an image and the output
      can be created, and then the output holds that image and nothing
      else but the output's directory listing changes. */
  lemma RepackRuns(t: Tree, tools: Tools, out: Path, mbr: Path, root: Path, name: string)
    requires WellFormed(t) && Admissible(t, out, mbr, root, name)
    ensures var e, argv := RepackIso(t, tools, out, mbr, root, name), RepackArgv(name, out, mbr, root);
            && e.calls == [Invocation(argv, None, [], false)]
            && (e.outcome == Pass <==> tools.mkisofs(t, argv).Some? && CanCreate(t, out))
            && (e.outcome.Fail? ==> e.outcome == Fail(ProcessFailed(root)))
    ensures var e, argv := RepackIso(t, tools, out, mbr, root, name), RepackArgv(name, out, mbr, root);
            e.outcome == Pass ==>
              && IsFile(e.tree, out) && Stat(e.tree, out).value.data == tools.mkisofs(t, argv).value
              && e.tree.Keys == t.Keys + {Resolved(t, out).value}
              && (forall p :: p in t && p != Parent(Resolved(t, out).value) ==> e.tree[p] == t[p])
  {
    var argv := RepackArgv(name, out, mbr, root);
    if tools.mkisofs(t, argv).Some? {
      CreateStep(t, out, tools.mkisofs(t, argv).value);
    }
  }

  /** The stage on the filesystem: xorriso is started, then the image it
      produces lands at the output. */
  method Repack(fs: FileSystem, tools: Tools, out: Path, mbr: Path, root: Path, name: string) returns (r: Outcome)
    requires fs.Valid()
    modifies fs
    ensures fs.Valid()
    ensures r == RepackIso(old(fs.entries), tools, out, mbr, root, name).outcome
    ensures fs.entries == RepackIso(old(fs.entries), tools, out, mbr, root, name).tree
    ensures fs.log == old(fs.log) + RepackIso(old(fs.entries), tools, out, mbr, root, name).calls
  {
    if Exists(fs.entries, out) {
      return Fail(FileExists(out));
    }
    if !IsFile(fs.entries, mbr) {
      return Fail(FileNotFound(mbr));
    }
    if !IsDir(fs.entries, root) {
      return Fail(NotADirectory(root));
    }
    var bad := InvalidChar(name);
    if bad.Some? {
      return Fail(InvalidNameChar(bad.value));
    }
    var call := Invocation(RepackArgv(name, out, mbr, root), None, [], false);
    var image := tools.mkisofs(fs.entries, call.argv);
    fs.Start(call);
    if image.None? {
      return Fail(ProcessFailed(root));
    }
    var written := fs.Write(out, image.value);
    r := if written.Pass? then Pass else Fail(ProcessFailed(root));
  }
}
