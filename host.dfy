/** The machine the pipeline runs on: its filesystem, the external
    programs the stages start, and the outside code the stages call. */
module Host {
  import opened Paths
  import opened Results
  import opened FileTree

  /** One child process: its argument vector, working directory (None when
      inherited), the bytes written to its standard input, and whether it
      was started through `/bin/sh -c`. */
  datatype Invocation = Invocation(argv: seq<string>, cwd: Option<Path>, stdin: seq<Byte>, shell: bool)

  /** The code a stage calls but that is not part of this model, as
      functions: gzip compression (RFC 1952), `cpio -H newc -o -A` (given
      the tree it can read, its working directory, its standard input and
      the archive it appends to; it returns the new archive), MD5 (RFC 1321)
      as `hexdigest()`, `xorriso -as mkisofs` (the image, or None for a
      non-zero exit), `xorriso -osirrox on ... -extract` (the tree
      afterwards, or None for a non-zero exit) and the walker
      `core.utils.find_all_files_under`. */
  datatype Tools = Tools(
    gzip: seq<Byte> -> seq<Byte>,
    gunzip: seq<Byte> -> seq<Byte>,
    cpioAppend: (Tree, Path, seq<Byte>, seq<Byte>) -> seq<Byte>,
    md5Hex: seq<Byte> -> string,
    mkisofs: (Tree, seq<string>) -> Option<seq<Byte>>,
    osirrox: (Tree, seq<string>) -> Option<Tree>,
    coreWalk: (Tree, Path) -> Result<seq<Path>>)

  predicate IsHexDigit(c: char)
  {
    '0' <= c <= '9' || 'a' <= c <= 'f'
  }

  /** What `hexdigest()` returns: 32 lower-case hexadecimal digits. */
  predicate IsHexDigest(s: string)
  {
    |s| == 32 && forall k :: 0 <= k < |s| ==> IsHexDigit(s[k])
  }

  /** The properties the model relies on: gunzip undoes gzip, MD5 digests
      have the shape above, and an extraction leaves a well-formed tree. */
  ghost predicate Lawful(tools: Tools)
  {
    && (forall x :: tools.gunzip(tools.gzip(x)) == x)
    && (forall x :: IsHexDigest(tools.md5Hex(x)))
    && (forall t, argv :: tools.osirrox(t, argv).Some? ==> WellFormed(tools.osirrox(t, argv).value))
  }

  /** What a stage does, as a value: whether it raised, the tree it leaves
      behind, and the processes it started. */
  datatype Effect = Effect(outcome: Outcome, tree: Tree, calls: seq<Invocation>)

  /** The filesystem, and the processes started so far. */
  class FileSystem {
    var entries: Tree
    var log: seq<Invocation>

    ghost predicate Valid()
      reads this
    {
      WellFormed(entries)
    }

    constructor (t: Tree)
      requires WellFormed(t)
      ensures Valid() && entries == t && log == []
    {
      entries := t;
      log := [];
    }

    /** `Path.chmod`. */
    method Chmod(p: Path, m: nat) returns (r: Outcome)
      requires Valid()
      modifies this
      ensures Valid() && log == old(log)
      ensures match ChmodStep(old(entries), p, m)
              case Ok(t) => r == Pass && entries == t
              case Err(e) => r == Fail(e) && entries == old(entries)
    {
      var step := ChmodStep(entries, p, m);
      match step
      case Ok(t) => entries := t; r := Pass;
      case Err(e) => r := Fail(e);
    }

    /** `Path.unlink`. */
    method Unlink(p: Path) returns (r: Outcome)
      requires Valid()
      modifies this
      ensures Valid() && log == old(log)
      ensures match UnlinkStep(old(entries), p)
              case Ok(t) => r == Pass && entries == t
              case Err(e) => r == Fail(e) && entries == old(entries)
    {
      var step := UnlinkStep(entries, p);
      match step
      case Ok(t) => entries := t; r := Pass;
      case Err(e) => r := Fail(e);
    }

    /** `open(p, "w")`, writing `data`, and closing. */
    method Write(p: Path, data: seq<Byte>) returns (r: Outcome)
      requires Valid()
      modifies this
      ensures Valid() && log == old(log)
      ensures match WriteStep(old(entries), p, data)
              case Ok(t) => r == Pass && entries == t
              case Err(e) => r == Fail(e) && entries == old(entries)
    {
      var step := WriteStep(entries, p, data);
      match step
      case Ok(t) => entries := t; r := Pass;
      case Err(e) => r := Fail(e);
    }

    /** `open(p, "rb").read()`. */
    method Read(p: Path) returns (r: Result<seq<Byte>>)
      ensures r == ReadStep(entries, p)
      ensures r.Ok? <==> IsFile(entries, p)
      ensures r.Ok? ==> r.value == Stat(entries, p).value.data
    {
      r := ReadStep(entries, p);
    }

    /** Starts a process that leaves the filesystem alone. */
    method Start(call: Invocation)
      modifies this
      ensures log == old(log) + [call] && entries == old(entries)
    {
      log := log + [call];
    }

    /** Replaces the whole tree, as an external extraction does. */
    method Replace(t: Tree)
      requires WellFormed(t)
      modifies this
      ensures Valid() && entries == t && log == old(log)
    {
      entries := t;
    }
  }
}
