/** `append_file_contents_to_initrd_archive`: adds a file to the
    compressed cpio archive `initrd.gz` of an extracted installer image by
    widening the modes, decompressing to the sibling `initrd`, deleting
    `initrd.gz`, appending with cpio, recompressing, deleting `initrd` and
    narrowing the modes. iso/injection.py pipes the file's relative path
    into cpio; udib/modiso.py hands a list to the shell. */
module Initrd {
  import opened Paths
  import opened Results
  import opened FileTree
  import opened Utf8
  import opened Host

  /** The only archive name the stage accepts. */
  const ArchiveName: string := "initrd.gz"

  /** `cpio -H newc -o -A -F <raw>`: append to the newc archive `raw` the
      files whose names arrive on standard input. */
  function CpioArgs(raw: Path): seq<string>
  {
    ["cpio", "-H", "newc", "-o", "-A", "-F", PathString(raw)]
  }

  /** How the append is started: iso/injection.py runs cpio directly in
      `baseDir` with `rel` on its standard input; udib/modiso.py passes the
      words of `echo <input> | cpio ...` as a list with `shell=True`. */
  datatype AppendStep = Pipe(baseDir: Path, rel: string) | Shell(input: Path)

  /** The process the append starts. With `shell=True` and a list, POSIX
      runs `/bin/sh -c` on the first word only, so the shell runs `echo`
      and the other words become its positional parameters. */
  function AppendCall(raw: Path, step: AppendStep): Invocation
  {
    match step
    case Pipe(baseDir, rel) => Invocation(CpioArgs(raw), Some(baseDir), Encode(rel), false)
    case Shell(input) => Invocation(["echo", PathString(input), "|"] + CpioArgs(raw), None, [], true)
  }

  /** A working directory whose lookup meets a file before its last
      component makes the start of cpio raise NotADirectoryError. */
  lemma AppendCwdThroughFile(t: Tree, tools: Tools, raw: Path, baseDir: Path, rel: string, k: nat)
    requires WellFormed(t) && Resolved(t, baseDir).Some?
    requires var q := Resolved(t, baseDir).value; k < |q| && q[..k] in t && t[q[..k]].File?
    ensures Append(t, tools, raw, Pipe(baseDir, rel)) == Effect(Fail(NotADirectory(baseDir)), t, [])
  {
    MissingThroughFile(t, baseDir, Resolved(t, baseDir).value, k);
  }

  /** What iso/injection.py pipes into cpio is the relative path's
      encoding and nothing more: it ends in a newline byte only when the
      path itself ends in one, and an ASCII path is sent one byte per
      character. */
  lemma PipeStdin(raw: Path, baseDir: Path, rel: string)
    ensures var input := AppendCall(raw, Pipe(baseDir, rel)).stdin;
            (|input| > 0 && input[|input| - 1] == 10) <==> (|rel| > 0 && rel[|rel| - 1] == '\n')
    ensures (forall k :: 0 <= k < |rel| ==> rel[k] as int < 128) ==>
              var input := AppendCall(raw, Pipe(baseDir, rel)).stdin;
              |input| == |rel| && forall k :: 0 <= k < |rel| ==> input[k] == rel[k] as int
  {
    EncodeEndsInNewline(rel);
    if forall k :: 0 <= k < |rel| ==> rel[k] as int < 128 {
      EncodeAscii(rel);
    }
  }

  /** Widens the archive to 0o644 and its directory to 0o755, decompresses
      the archive into its sibling without the suffix, and deletes the
      archive. */
  function Unpack(t: Tree, tools: Tools, archive: Path): (e: Effect)
    requires WellFormed(t) && archive != []
    ensures WellFormed(e.tree) && e.calls == []
  {
    var raw := WithoutSuffix(archive);
    match ChmodStep(t, archive, FileWritable)
    case Err(err) => Effect(Fail(err), t, [])
    case Ok(t1) =>
      match ChmodStep(t1, Parent(archive), DirWritable)
      case Err(err) => Effect(Fail(err), t1, [])
      case Ok(t2) =>
        match ReadStep(t2, archive)
        case Err(err) => Effect(Fail(err), t2, [])
        case Ok(gz) =>
          match WriteStep(t2, raw, tools.gunzip(gz))
          case Err(err) => Effect(Fail(err), t2, [])
          case Ok(t3) =>
            match UnlinkStep(t3, archive)
            case Err(err) => Effect(Fail(err), t3, [])
            case Ok(t4) => Effect(Pass, t4, [])
  }

  /** The append. Starting cpio raises when its working directory cannot
      be entered; cpio's exit status is never looked at, so an archive it
      cannot read or write is left as it was without an error. */
  function Append(t: Tree, tools: Tools, raw: Path, step: AppendStep): (e: Effect)
    requires WellFormed(t)
    ensures WellFormed(e.tree)
    ensures e.outcome.Fail? ==> e.tree == t && e.calls == []
    ensures e.outcome == Pass ==> e.calls == [AppendCall(raw, step)]
    ensures step.Shell? ==> e.outcome == Pass && e.tree == t
    ensures step.Pipe? ==> (e.outcome.Fail? <==> !IsDir(t, step.baseDir))
    ensures step.Pipe? && e.outcome.Fail? ==>
              e.outcome.error in {SymlinkLoop(step.baseDir), FileNotFound(step.baseDir), NotADirectory(step.baseDir)}
  {
    match step
    case Shell(_) => Effect(Pass, t, [AppendCall(raw, step)])
    case Pipe(baseDir, rel) =>
      if Resolved(t, baseDir).None? then Effect(Fail(SymlinkLoop(baseDir)), t, [])
      else if !Exists(t, baseDir) then Effect(Fail(MissingError(t, baseDir, Resolved(t, baseDir).value)), t, [])
      else if !IsDir(t, baseDir) then Effect(Fail(NotADirectory(baseDir)), t, [])
      else
        var call := AppendCall(raw, step);
        match ReadStep(t, raw)
        case Err(_) => Effect(Pass, t, [call])
        case Ok(data) =>
          match WriteStep(t, raw, tools.cpioAppend(t, baseDir, Encode(rel), data))
          case Err(_) => Effect(Pass, t, [call])
          case Ok(u) => Effect(Pass, u, [call])
  }

  /** Creates the archive anew, fills it with the compressed raw archive,
      deletes the raw archive, and narrows the modes to 0o444 and 0o555. */
  function Recompress(t: Tree, tools: Tools, archive: Path, raw: Path): (e: Effect)
    requires WellFormed(t)
    ensures WellFormed(e.tree) && e.calls == []
  {
    match WriteStep(t, archive, [])
    case Err(err) => Effect(Fail(err), t, [])
    case Ok(t5) =>
      match ReadStep(t5, raw)
      case Err(err) => Effect(Fail(err), t5, [])
      case Ok(data) =>
        match WriteStep(t5, archive, tools.gzip(data))
        case Err(err) => Effect(Fail(err), t5, [])
        case Ok(t6) =>
          match UnlinkStep(t6, raw)
          case Err(err) => Effect(Fail(err), t6, [])
          case Ok(t7) =>
            match ChmodStep(t7, archive, FileReadOnly)
            case Err(err) => Effect(Fail(err), t7, [])
            case Ok(t8) =>
              match ChmodStep(t8, Parent(archive), DirReadOnly)
              case Err(err) => Effect(Fail(err), t8, [])
              case Ok(t9) => Effect(Pass, t9, [])
  }

  /** The three phases after the checks; the first that raises ends it. */
  function Patch(t: Tree, tools: Tools, archive: Path, step: AppendStep): (e: Effect)
    requires WellFormed(t) && archive != []
    ensures WellFormed(e.tree)
  {
    var raw := WithoutSuffix(archive);
    var u := Unpack(t, tools, archive);
    if u.outcome.Fail? then u
    else
      var a := Append(u.tree, tools, raw, step);
      if a.outcome.Fail? then a
      else
        var r := Recompress(a.tree, tools, archive, raw);
        Effect(r.outcome, r.tree, a.calls)
  }

  /** The stage of iso/injection.py: the archive must be a file, then be
      called `initrd.gz`. */
  function PipeAppend(t: Tree, tools: Tools, archive: Path, baseDir: Path, rel: string): (e: Effect)
    requires WellFormed(t)
    ensures WellFormed(e.tree)
  {
    if !IsFile(t, archive) then Effect(Fail(FileNotFound(archive)), t, [])
    else if Name(archive) != ArchiveName then Effect(Fail(NotInitrdArchive(Name(archive))), t, [])
    else Patch(t, tools, archive, Pipe(baseDir, rel))
  }

  /** The stage of udib/modiso.py as written: the same two checks, then
      the input must be a file; the append goes through the shell. */
  function ShellAppend(t: Tree, tools: Tools, archive: Path, input: Path): (e: Effect)
    requires WellFormed(t)
    ensures WellFormed(e.tree)
  {
    if !IsFile(t, archive) then Effect(Fail(FileNotFound(archive)), t, [])
    else if Name(archive) != ArchiveName then Effect(Fail(NotInitrdArchive(Name(archive))), t, [])
    else if !IsFile(t, input) then Effect(Fail(FileNotFound(input)), t, [])
    else Patch(t, tools, archive, Shell(input))
  }

  /** The stage of udib/modiso.py as its comment and its sibling in
      iso/injection.py intend: cpio runs in the input's directory with the
      input's name on its standard input. */
  function CorrectedShellAppend(t: Tree, tools: Tools, archive: Path, input: Path): (e: Effect)
    requires WellFormed(t)
    ensures WellFormed(e.tree)
  {
    if !IsFile(t, archive) then Effect(Fail(FileNotFound(archive)), t, [])
    else if Name(archive) != ArchiveName then Effect(Fail(NotInitrdArchive(Name(archive))), t, [])
    else if !IsFile(t, input) then Effect(Fail(FileNotFound(input)), t, [])
    else Patch(t, tools, archive, Pipe(Parent(input), Name(input)))
  }

  /** The checks of iso/injection.py come in this order; each one that
      fails raises before any mode changes or file is deleted. */
  lemma PipeCheckOrder(t: Tree, tools: Tools, archive: Path, baseDir: Path, rel: string)
    requires WellFormed(t)
    ensures !IsFile(t, archive) ==>
              PipeAppend(t, tools, archive, baseDir, rel) == Effect(Fail(FileNotFound(archive)), t, [])
    ensures IsFile(t, archive) && Name(archive) != ArchiveName ==>
              PipeAppend(t, tools, archive, baseDir, rel) == Effect(Fail(NotInitrdArchive(Name(archive))), t, [])
  {
  }

  /** So do the three checks of udib/modiso.py. */
  lemma ShellCheckOrder(t: Tree, tools: Tools, archive: Path, input: Path)
    requires WellFormed(t)
    ensures !IsFile(t, archive) ==>
              ShellAppend(t, tools, archive, input) == Effect(Fail(FileNotFound(archive)), t, [])
    ensures IsFile(t, archive) && Name(archive) != ArchiveName ==>
              ShellAppend(t, tools, archive, input) == Effect(Fail(NotInitrdArchive(Name(archive))), t, [])
    ensures IsFile(t, archive) && Name(archive) == ArchiveName && !IsFile(t, input) ==>
              ShellAppend(t, tools, archive, input) == Effect(Fail(FileNotFound(input)), t, [])
  {
  }

  /** The layout the stage expects: a plain `initrd.gz` with no `initrd`
      beside it. */
  ghost predicate InitrdLayout(t: Tree, archive: Path)
  {
    archive in t && t[archive].File? && Name(archive) == ArchiveName && WithoutSuffix(archive) !in t
  }

  /** The tree once the archive is decompressed into `initrd` (holding
      `raw`) and deleted, with its directory at 0o755. */
  function Unpacked(t: Tree, archive: Path, raw: seq<Byte>): (r: Tree)
    requires WellFormed(t) && InitrdLayout(t, archive)
    ensures WellFormed(r) && r.Keys == t.Keys - {archive} + {WithoutSuffix(archive)}
    ensures r[WithoutSuffix(archive)] == File(raw, NewFileMode)
    ensures Parent(archive) in r && r[Parent(archive)].Dir? && r[Parent(archive)].mode == DirWritable
    ensures forall p :: p in t && p != archive && p != Parent(archive) ==> r[p] == t[p]
  {
    var sib := WithoutSuffix(archive);
    InitrdSibling(archive);
    ParentOfChild(Parent(archive), "initrd");
    Supersede(ChmodWithParent(t, archive, FileWritable, DirWritable), archive, sib, raw)
  }

  /** The tree once `archive` is created holding `data`, the raw archive
      deleted and the modes narrowed. */
  function Repacked(t: Tree, archive: Path, data: seq<Byte>): (r: Tree)
    requires WellFormed(t) && archive != [] && archive !in t
    requires WithoutSuffix(archive) in t && t[WithoutSuffix(archive)].File?
    ensures WellFormed(r) && r.Keys == t.Keys + {archive} - {WithoutSuffix(archive)}
    ensures r[archive] == File(data, FileReadOnly)
    ensures Parent(archive) in r && r[Parent(archive)].Dir? && r[Parent(archive)].mode == DirReadOnly
    ensures forall p :: p in t && p != WithoutSuffix(archive) && p != Parent(archive) ==> r[p] == t[p]
  {
    var sib := WithoutSuffix(archive);
    ParentListed(t, sib);
    ChmodWithParent(Supersede(t, sib, archive, data), archive, FileReadOnly, DirReadOnly)
  }

  lemma SwapBack(keys: set<Path>, a: Path, b: Path)
    requires a in keys && b !in keys
    ensures keys - {a} + {b} + {a} - {b} == keys
  {
  }

  /** On the expected layout decompressing and deleting raise nothing. */
  lemma UnpackSteps(t: Tree, tools: Tools, archive: Path)
    requires WellFormed(t) && InitrdLayout(t, archive)
    ensures Unpack(t, tools, archive) == Effect(Pass, Unpacked(t, archive, tools.gunzip(t[archive].data)), [])
  {
    var d, sib := Parent(archive), WithoutSuffix(archive);
    ParentListed(t, archive);
    InitrdSibling(archive);
    StatPlain(t, archive);
    var t1 := SetMode(t, archive, FileWritable);
    StatPlain(t1, d);
    var t2 := SetMode(t1, d, DirWritable);
    StatPlain(t2, archive);
    assert ReadStep(t2, archive) == Ok(t[archive].data);
    var t3 := PutFile(t2, sib, tools.gunzip(t[archive].data));
    assert WriteStep(t2, sib, tools.gunzip(t[archive].data)) == Ok(t3);
  }

  /** With a plain directory to run in, cpio appends to the raw archive. */
  lemma PipeSteps(t4: Tree, tools: Tools, raw: Path, baseDir: Path, rel: string)
    requires WellFormed(t4) && raw in t4 && t4[raw].File? && baseDir in t4 && t4[baseDir].Dir?
    ensures Append(t4, tools, raw, Pipe(baseDir, rel)) ==
              Effect(Pass, PutFile(t4, raw, tools.cpioAppend(t4, baseDir, Encode(rel), t4[raw].data)),
                     [AppendCall(raw, Pipe(baseDir, rel))])
  {
    StatPlain(t4, baseDir);
    StatPlain(t4, raw);
    ParentListed(t4, raw);
  }

  /** On what the append leaves, recompressing raises nothing. */
  lemma RecompressSteps(t5: Tree, tools: Tools, archive: Path)
    requires WellFormed(t5) && archive != [] && archive !in t5 && Name(archive) == ArchiveName
    requires WithoutSuffix(archive) in t5 && t5[WithoutSuffix(archive)].File?
    ensures Recompress(t5, tools, archive, WithoutSuffix(archive)) ==
              Effect(Pass, Repacked(t5, archive, tools.gzip(t5[WithoutSuffix(archive)].data)), [])
  {
    var d, sib := Parent(archive), WithoutSuffix(archive);
    InitrdSibling(archive);
    ParentListed(t5, sib);
    var t6a := PutFile(t5, archive, []);
    assert WriteStep(t5, archive, []) == Ok(t6a);
    StatPlain(t6a, sib);
    StatPlain(t6a, archive);
    var data := tools.gzip(t5[sib].data);
    var t6 := PutFile(t6a, archive, data);
    assert WriteStep(t6a, archive, data) == Ok(t6);
    var t7 := Remove(t6, sib);
    PutFileTwice(t5, archive, [], data);
    assert t7 == Supersede(t5, sib, archive, data);
    StatPlain(t7, archive);
    var t8 := SetMode(t7, archive, FileReadOnly);
    StatPlain(t8, d);
  }

  /** The whole patch of iso/injection.py on the expected layout, with a
      plain directory to run cpio in: it succeeds, starts exactly the one
      cpio process with the encoded relative path (and no newline) on its
      standard input, leaves `initrd.gz` holding the compressed result of
      cpio's append to the decompressed old archive, at mode 0o444 in a
      directory at 0o555, removes `initrd`, and changes nothing else. */
  lemma PipeAppendPass(t: Tree, tools: Tools, archive: Path, baseDir: Path, rel: string)
    requires WellFormed(t) && InitrdLayout(t, archive) && baseDir in t && t[baseDir].Dir?
    ensures PipeAppend(t, tools, archive, baseDir, rel).outcome == Pass
    ensures PipeAppend(t, tools, archive, baseDir, rel).calls ==
              [Invocation(CpioArgs(WithoutSuffix(archive)), Some(baseDir), Encode(rel), false)]
    ensures PipeAppend(t, tools, archive, baseDir, rel).tree == PipeResult(t, tools, archive, baseDir, rel)
  {
    var sib, raw := WithoutSuffix(archive), tools.gunzip(t[archive].data);
    InitrdSibling(archive);
    var t4 := Unpacked(t, archive, raw);
    assert baseDir in t4 && t4[baseDir].Dir?;
    PipeSteps(t4, tools, sib, baseDir, rel);
    var a := Append(t4, tools, sib, Pipe(baseDir, rel));
    RecompressSteps(a.tree, tools, archive);
    PatchThen(t, tools, archive, Pipe(baseDir, rel));
    ChecksPass(t, tools, archive, Pipe(baseDir, rel));
  }

  /** With the layout in place, the checks pass and the patch runs. */
  lemma ChecksPass(t: Tree, tools: Tools, archive: Path, step: AppendStep)
    requires WellFormed(t) && InitrdLayout(t, archive)
    ensures step.Pipe? ==> PipeAppend(t, tools, archive, step.baseDir, step.rel) == Patch(t, tools, archive, step)
    ensures step.Shell? && IsFile(t, step.input) ==> ShellAppend(t, tools, archive, step.input) == Patch(t, tools, archive, step)
  {
    StatPlain(t, archive);
  }

  /** With the layout in place, the patch is the append on the unpacked
      tree, followed by the recompression when the append succeeds. */
  lemma PatchThen(t: Tree, tools: Tools, archive: Path, step: AppendStep)
    requires WellFormed(t) && InitrdLayout(t, archive)
    ensures var a := Append(Unpacked(t, archive, tools.gunzip(t[archive].data)), tools, WithoutSuffix(archive), step);
            Patch(t, tools, archive, step) ==
              if a.outcome.Fail? then a
              else
                var r := Recompress(a.tree, tools, archive, WithoutSuffix(archive));
                Effect(r.outcome, r.tree, a.calls)
  {
    UnpackSteps(t, tools, archive);
  }

  /** The tree iso/injection.py's patch leaves on the expected layout. */
  function PipeResult(t: Tree, tools: Tools, archive: Path, baseDir: Path, rel: string): Tree
    requires WellFormed(t) && InitrdLayout(t, archive)
  {
    var raw := tools.gunzip(t[archive].data);
    var appended := tools.cpioAppend(Unpacked(t, archive, raw), baseDir, Encode(rel), raw);
    Patched(t, archive, raw, appended, tools.gzip(appended))
  }

  /** The tree the patch leaves when the archive was decompressed to
      `raw`, the append left `appended` and `initrd.gz` was recreated
      holding `data`. */
  function Patched(t: Tree, archive: Path, raw: seq<Byte>, appended: seq<Byte>, data: seq<Byte>): (r: Tree)
    requires WellFormed(t) && InitrdLayout(t, archive)
    ensures WellFormed(r) && r.Keys == t.Keys && WithoutSuffix(archive) !in r
    ensures archive in r && r[archive] == File(data, FileReadOnly)
    ensures Parent(archive) in r && r[Parent(archive)].Dir? && r[Parent(archive)].mode == DirReadOnly
    ensures forall p :: p in t && p != archive && p != Parent(archive) ==> p in r && r[p] == t[p]
  {
    var d, sib := Parent(archive), WithoutSuffix(archive);
    InitrdSibling(archive);
    var t4 := Unpacked(t, archive, raw);
    assert sib in t4 && t4[sib].File? && sib != [] && Parent(sib) == d && d in t4 && t4[d].Dir?;
    var t5 := PutFile(t4, sib, appended);
    assert t5.Keys == t4.Keys && archive !in t5 && sib in t5 && t5[sib].File?;
    var r := Repacked(t5, archive, data);
    SwapBack(t.Keys, archive, sib);
    forall p | p in t && p != archive && p != d ensures r[p] == t[p] {
      assert p != sib && p in t5;
      assert r[p] == t5[p] == t4[p];
    }
    r
  }

  /** A working directory that cannot be entered raises after the archive
      is deleted: the raw `initrd` is left behind, nothing is cleaned up. */
  lemma PipeAppendCwdFails(t: Tree, tools: Tools, archive: Path, baseDir: Path, rel: string)
    requires WellFormed(t) && InitrdLayout(t, archive)
    requires !IsDir(Unpacked(t, archive, tools.gunzip(t[archive].data)), baseDir)
    ensures var e := PipeAppend(t, tools, archive, baseDir, rel);
            && e.outcome.Fail? && e.calls == []
            && e.outcome.error in {SymlinkLoop(baseDir), FileNotFound(baseDir), NotADirectory(baseDir)}
            && e.tree == Unpacked(t, archive, tools.gunzip(t[archive].data))
            && archive !in e.tree && WithoutSuffix(archive) in e.tree
  {
    InitrdSibling(archive);
    ChecksPass(t, tools, archive, Pipe(baseDir, rel));
    PatchThen(t, tools, archive, Pipe(baseDir, rel));
  }

  /** After the patch of iso/injection.py on that layout, `initrd.gz`
      is a file of mode 0o444 that decompresses to cpio's append to the
      old archive, in a directory of mode 0o555, `initrd` is gone, and the
      tree holds the same paths with every other entry unchanged. */
  lemma PipeAppendLeaves(t: Tree, tools: Tools, archive: Path, baseDir: Path, rel: string)
    requires WellFormed(t) && InitrdLayout(t, archive) && baseDir in t && t[baseDir].Dir? && Lawful(tools)
    ensures var e := PipeAppend(t, tools, archive, baseDir, rel);
            e.tree.Keys == t.Keys && WithoutSuffix(archive) !in e.tree
    ensures var e := PipeAppend(t, tools, archive, baseDir, rel);
            archive in e.tree && e.tree[archive].File? && e.tree[archive].mode == FileReadOnly
    ensures var e, raw := PipeAppend(t, tools, archive, baseDir, rel), tools.gunzip(t[archive].data);
            archive in e.tree && e.tree[archive].File? &&
            tools.gunzip(e.tree[archive].data) == tools.cpioAppend(Unpacked(t, archive, raw), baseDir, Encode(rel), raw)
    ensures var e := PipeAppend(t, tools, archive, baseDir, rel);
            Parent(archive) in e.tree && e.tree[Parent(archive)].Dir? && e.tree[Parent(archive)].mode == DirReadOnly
    ensures var e := PipeAppend(t, tools, archive, baseDir, rel);
            forall p :: p in t && p != archive && p != Parent(archive) ==> p in e.tree && e.tree[p] == t[p]
  {
    PipeAppendPass(t, tools, archive, baseDir, rel);
  }

  /** The stage of udib/modiso.py as written, on the expected layout with
      an input file: it succeeds, and the one process it starts is a shell
      running `echo`, so the raw archive is recompressed as it was
      decompressed. */
  lemma ShellAppendPass(t: Tree, tools: Tools, archive: Path, input: Path)
    requires WellFormed(t) && InitrdLayout(t, archive) && IsFile(t, input)
    ensures ShellAppend(t, tools, archive, input).outcome == Pass
    ensures ShellAppend(t, tools, archive, input).calls ==
              [Invocation(["echo", PathString(input), "|"] + CpioArgs(WithoutSuffix(archive)), None, [], true)]
    ensures ShellAppend(t, tools, archive, input).tree ==
              Patched(t, archive, tools.gunzip(t[archive].data), tools.gunzip(t[archive].data), tools.gzip(tools.gunzip(t[archive].data)))
  {
    var sib, raw := WithoutSuffix(archive), tools.gunzip(t[archive].data);
    InitrdSibling(archive);
    var t4 := Unpacked(t, archive, raw);
    var a := Append(t4, tools, sib, Shell(input));
    assert a == Effect(Pass, t4, [AppendCall(sib, Shell(input))]);
    RecompressSteps(t4, tools, archive);
    PatchThen(t, tools, archive, Shell(input));
    ChecksPass(t, tools, archive, Shell(input));
    var tf := Repacked(t4, archive, tools.gzip(raw));
    assert ShellAppend(t, tools, archive, input) == Effect(Pass, tf, [AppendCall(sib, Shell(input))]);
    ParentListed(t4, sib);
    PutFileSame(t4, sib, raw);
    assert tf == Patched(t, archive, raw, raw, tools.gzip(raw));
  }

  /** Hence the new `initrd.gz` decompresses to exactly what the old one
      did: the input file is never added, although the stage succeeds and
      narrows the modes. */
  lemma ShellAppendKeepsContent(t: Tree, tools: Tools, archive: Path, input: Path)
    requires WellFormed(t) && InitrdLayout(t, archive) && IsFile(t, input) && Lawful(tools)
    ensures var e := ShellAppend(t, tools, archive, input);
            archive in e.tree && e.tree[archive].File? && e.tree[archive].mode == FileReadOnly &&
            tools.gunzip(e.tree[archive].data) == tools.gunzip(t[archive].data)
    ensures var e := ShellAppend(t, tools, archive, input);
            e.tree.Keys == t.Keys && WithoutSuffix(archive) !in e.tree &&
            Parent(archive) in e.tree && e.tree[Parent(archive)].Dir? && e.tree[Parent(archive)].mode == DirReadOnly
  {
    ShellAppendPass(t, tools, archive, input);
  }

  /** The corrected udib stage, on the expected layout with a plain input
      file: cpio runs in the input's directory with its name on standard
      input, and the new `initrd.gz` decompresses to cpio's append of the
      input to the old archive. */
  lemma CorrectedShellAppendAdds(t: Tree, tools: Tools, archive: Path, input: Path)
    requires WellFormed(t) && InitrdLayout(t, archive) && input in t && t[input].File? && Lawful(tools)
    ensures var e := CorrectedShellAppend(t, tools, archive, input);
            e.outcome == Pass &&
            e.calls == [Invocation(CpioArgs(WithoutSuffix(archive)), Some(Parent(input)), Encode(Name(input)), false)]
    ensures var e, raw := CorrectedShellAppend(t, tools, archive, input), tools.gunzip(t[archive].data);
            archive in e.tree && e.tree[archive].File? && e.tree[archive].mode == FileReadOnly &&
            tools.gunzip(e.tree[archive].data) == tools.cpioAppend(Unpacked(t, archive, raw), Parent(input), Encode(Name(input)), raw)
    ensures var e := CorrectedShellAppend(t, tools, archive, input);
            e.tree.Keys == t.Keys && WithoutSuffix(archive) !in e.tree &&
            Parent(archive) in e.tree && e.tree[Parent(archive)].Dir? && e.tree[Parent(archive)].mode == DirReadOnly
  {
    StatPlain(t, input);
    ParentListed(t, input);
    PipeAppendPass(t, tools, archive, Parent(input), Name(input));
    assert CorrectedShellAppend(t, tools, archive, input) == PipeAppend(t, tools, archive, Parent(input), Name(input));
  }

  /** Decompressing and deleting, on the filesystem. */
  method UnpackArchive(fs: FileSystem, tools: Tools, archive: Path) returns (r: Outcome)
    requires fs.Valid() && archive != []
    modifies fs
    ensures fs.Valid() && fs.log == old(fs.log)
    ensures r == Unpack(old(fs.entries), tools, archive).outcome
    ensures fs.entries == Unpack(old(fs.entries), tools, archive).tree
  {
    r := fs.Chmod(archive, FileWritable);
    if r.Fail? { return; }
    r := fs.Chmod(Parent(archive), DirWritable);
    if r.Fail? { return; }
    var gz := fs.Read(archive);
    if gz.Err? {
      return Fail(gz.error);
    }
    r := fs.Write(WithoutSuffix(archive), tools.gunzip(gz.value));
    if r.Fail? { return; }
    r := fs.Unlink(archive);
  }

  /** The append, on the filesystem: the process is started, and cpio's
      result, whatever it is, is not checked. */
  method AppendToArchive(fs: FileSystem, tools: Tools, raw: Path, step: AppendStep) returns (r: Outcome)
    requires fs.Valid()
    modifies fs
    ensures fs.Valid()
    ensures r == Append(old(fs.entries), tools, raw, step).outcome
    ensures fs.entries == Append(old(fs.entries), tools, raw, step).tree
    ensures fs.log == old(fs.log) + Append(old(fs.entries), tools, raw, step).calls
  {
    match step
    case Shell(_) =>
      fs.Start(AppendCall(raw, step));
      r := Pass;
    case Pipe(baseDir, rel) =>
      if Resolved(fs.entries, baseDir).None? {
        return Fail(SymlinkLoop(baseDir));
      }
      if !Exists(fs.entries, baseDir) {
        return Fail(MissingError(fs.entries, baseDir, Resolved(fs.entries, baseDir).value));
      }
      if !IsDir(fs.entries, baseDir) {
        return Fail(NotADirectory(baseDir));
      }
      var data := fs.Read(raw);
      var appended := if data.Ok? then tools.cpioAppend(fs.entries, baseDir, Encode(rel), data.value) else [];
      fs.Start(AppendCall(raw, step));
      if data.Ok? {
        var ignored := fs.Write(raw, appended);
      }
      r := Pass;
  }

  /** Recompressing and narrowing, on the filesystem. */
  method RecompressArchive(fs: FileSystem, tools: Tools, archive: Path, raw: Path) returns (r: Outcome)
    requires fs.Valid()
    modifies fs
    ensures fs.Valid() && fs.log == old(fs.log)
    ensures r == Recompress(old(fs.entries), tools, archive, raw).outcome
    ensures fs.entries == Recompress(old(fs.entries), tools, archive, raw).tree
  {
    r := fs.Write(archive, []);
    if r.Fail? { return; }
    var data := fs.Read(raw);
    if data.Err? {
      return Fail(data.error);
    }
    r := fs.Write(archive, tools.gzip(data.value));
    if r.Fail? { return; }
    r := fs.Unlink(raw);
    if r.Fail? { return; }
    r := fs.Chmod(archive, FileReadOnly);
    if r.Fail? { return; }
    r := fs.Chmod(Parent(archive), DirReadOnly);
  }

  /** The three phases, on the filesystem. */
  method PatchArchive(fs: FileSystem, tools: Tools, archive: Path, step: AppendStep) returns (r: Outcome)
    requires fs.Valid() && archive != []
    modifies fs
    ensures fs.Valid()
    ensures r == Patch(old(fs.entries), tools, archive, step).outcome
    ensures fs.entries == Patch(old(fs.entries), tools, archive, step).tree
    ensures fs.log == old(fs.log) + Patch(old(fs.entries), tools, archive, step).calls
  {
    r := UnpackArchive(fs, tools, archive);
    if r.Fail? { return; }
    r := AppendToArchive(fs, tools, WithoutSuffix(archive), step);
    if r.Fail? { return; }
    r := RecompressArchive(fs, tools, archive, WithoutSuffix(archive));
  }

  /** The stage of iso/injection.py, on the filesystem. */
  method AppendFileContentsToInitrdArchive(fs: FileSystem, tools: Tools, archive: Path, baseDir: Path, rel: string)
    returns (r: Outcome)
    requires fs.Valid()
    modifies fs
    ensures fs.Valid()
    ensures r == PipeAppend(old(fs.entries), tools, archive, baseDir, rel).outcome
    ensures fs.entries == PipeAppend(old(fs.entries), tools, archive, baseDir, rel).tree
    ensures fs.log == old(fs.log) + PipeAppend(old(fs.entries), tools, archive, baseDir, rel).calls
  {
    if !IsFile(fs.entries, archive) {
      return Fail(FileNotFound(archive));
    }
    if Name(archive) != ArchiveName {
      return Fail(NotInitrdArchive(Name(archive)));
    }
    r := PatchArchive(fs, tools, archive, Pipe(baseDir, rel));
  }

  /** The stage of udib/modiso.py as written, on the filesystem. */
  method AppendInputFileToInitrdArchive(fs: FileSystem, tools: Tools, archive: Path, input: Path) returns (r: Outcome)
    requires fs.Valid()
    modifies fs
    ensures fs.Valid()
    ensures r == ShellAppend(old(fs.entries), tools, archive, input).outcome
    ensures fs.entries == ShellAppend(old(fs.entries), tools, archive, input).tree
    ensures fs.log == old(fs.log) + ShellAppend(old(fs.entries), tools, archive, input).calls
  {
    if !IsFile(fs.entries, archive) {
      return Fail(FileNotFound(archive));
    }
    if Name(archive) != ArchiveName {
      return Fail(NotInitrdArchive(Name(archive)));
    }
    if !IsFile(fs.entries, input) {
      return Fail(FileNotFound(input));
    }
    r := PatchArchive(fs, tools, archive, Shell(input));
  }
}
