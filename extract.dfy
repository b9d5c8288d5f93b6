/** `extract_iso` (iso/injection.py and udib/modiso.py, which agree): the
    checks on its arguments and the `xorriso -osirrox on` command line
    that unpacks an image into a directory. */
module ExtractIso {
  import opened Paths
  import opened Results
  import opened FileTree
  import opened Host

  function ExtractArgv(out: Path, src: Path): seq<string>
  {
    ["xorriso", "-osirrox", "on", "-indev", PathString(src), "-extract", "/", PathString(out)]
  }

  /** The stage: the output directory is checked first, then the image;
      then xorriso runs once, and a failed run raises RuntimeError naming
      the image. */
  function Extract(t: Tree, tools: Tools, out: Path, src: Path): (e: Effect)
    ensures e.outcome.Fail? ==> e.tree == t
    ensures e.calls == [] <==> !(IsDir(t, out) && IsFile(t, src))
    ensures e.calls != [] ==> e.calls == [Invocation(ExtractArgv(out, src), None, [], false)]
    ensures e.outcome == Pass <==> IsDir(t, out) && IsFile(t, src) && tools.osirrox(t, ExtractArgv(out, src)).Some?
  {
    if !IsDir(t, out) then Effect(Fail(NotADirectory(out)), t, [])
    else if !IsFile(t, src) then Effect(Fail(FileNotFound(src)), t, [])
    else
      var call := Invocation(ExtractArgv(out, src), None, [], false);
      match tools.osirrox(t, call.argv)
      case None => Effect(Fail(ProcessFailed(src)), t, [call])
      case Some(u) => Effect(Pass, u, [call])
  }

  /** The two checks come in this order; a failed run names the image. */
  lemma ExtractCheckOrder(t: Tree, tools: Tools, out: Path, src: Path)
    ensures !IsDir(t, out) ==> Extract(t, tools, out, src).outcome == Fail(NotADirectory(out))
    ensures IsDir(t, out) && !IsFile(t, src) ==> Extract(t, tools, out, src).outcome == Fail(FileNotFound(src))
    ensures IsDir(t, out) && IsFile(t, src) && Extract(t, tools, out, src).outcome.Fail? ==>
              Extract(t, tools, out, src).outcome == Fail(ProcessFailed(src))
  {
  }

  /** The command line names the image after `-indev` and the directory
      last. */
  lemma ExtractArgvShape(out: Path, src: Path)
    ensures var argv := ExtractArgv(out, src);
            |argv| == 8 && argv[3] == "-indev" && argv[4] == PathString(src) && argv[7] == PathString(out)
  {
  }

  /** With a well-behaved xorriso the tree stays well formed. */
  lemma ExtractWellFormed(t: Tree, tools: Tools, out: Path, src: Path)
    requires WellFormed(t) && Lawful(tools)
    ensures WellFormed(Extract(t, tools, out, src).tree)
  {
    var argv := ExtractArgv(out, src);
    if IsDir(t, out) && IsFile(t, src) && tools.osirrox(t, argv).Some? {
      assert WellFormed(tools.osirrox(t, argv).value);
    }
  }

  /** The stage on the filesystem. */
  method ExtractInto(fs: FileSystem, tools: Tools, out: Path, src: Path) returns (r: Outcome)
    requires fs.Valid() && Lawful(tools)
    modifies fs
    ensures fs.Valid()
    ensures r == Extract(old(fs.entries), tools, out, src).outcome
    ensures fs.entries == Extract(old(fs.entries), tools, out, src).tree
    ensures fs.log == old(fs.log) + Extract(old(fs.entries), tools, out, src).calls
  {
    if !IsDir(fs.entries, out) {
      return Fail(NotADirectory(out));
    }
    if !IsFile(fs.entries, src) {
      return Fail(FileNotFound(src));
    }
    var call := Invocation(ExtractArgv(out, src), None, [], false);
    var after := tools.osirrox(fs.entries, call.argv);
    fs.Start(call);
    if after.None? {
      return Fail(ProcessFailed(src));
    }
    assert WellFormed(after.value);
    fs.Replace(after.value);
    r := Pass;
  }
}
