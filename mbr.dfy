/** `extract_mbr_from_iso` (iso/injection.py and udib/modiso.py, which
    agree): copies the master boot record, the first 432 bytes, of a
    bootable image into a new file. */
module Mbr {
  import opened Paths
  import opened Results
  import opened FileTree
  import opened Host

  /** The boot code area of a master boot record, read by `read(432)`. */
  const MbrLength: nat := 432

  /** What `read(n)` returns: at most the first `n` bytes. */
  function Prefix(data: seq<Byte>, n: nat): (r: seq<Byte>)
    ensures |r| == if |data| < n then |data| else n
    ensures forall k :: 0 <= k < |r| ==> r[k] == data[k]
  {
    if |data| <= n then data else data[..n]
  }

  /** The source's `suffix` is one of ".iso" and ".img". */
  predicate IsImageName(name: string)
  {
    Suffix(name) == ".iso" || Suffix(name) == ".img"
  }

  /** A name passes the check exactly when it ends in ".iso" or ".img"
      after at least one other character; the check is case-sensitive. */
  lemma ImageNameIff(name: string)
    ensures IsImageName(name) <==>
              |name| > 4 && (name[|name| - 4..] == ".iso" || name[|name| - 4..] == ".img")
  {
    SuffixIs(name, ".iso");
    SuffixIs(name, ".img");
  }

  /** The stage: the three checks in the order the source makes them,
      then `read(432)` of the source and a write of that into the newly
      created output. The source path is not resolved, so its own name is
      checked. */
  function ExtractMbr(t: Tree, out: Path, src: Path): (e: Effect)
    requires WellFormed(t)
    ensures WellFormed(e.tree) && e.calls == []
    ensures e.outcome.Fail? ==> e.tree == t
    ensures e.outcome == Pass <==>
              !Exists(t, out) && IsFile(t, src) && IsImageName(Name(src)) && CanCreate(t, out)
  {
    if Exists(t, out) then Effect(Fail(FileExists(out)), t, [])
    else if !IsFile(t, src) then Effect(Fail(FileNotFound(src)), t, [])
    else if !IsImageName(Name(src)) then Effect(Fail(NotAnImage(src)), t, [])
    else
      var data := Stat(t, src).value.data;
      CreateStep(t, out, Prefix(data, MbrLength));
      match WriteStep(t, out, Prefix(data, MbrLength))
      case Err(err) => Effect(Fail(err), t, [])
      case Ok(u) => Effect(Pass, u, [])
  }

  /** The checks come in this order, and each one that fails raises
      before any file is opened. */
  lemma MbrCheckOrder(t: Tree, out: Path, src: Path)
    requires WellFormed(t)
    ensures Exists(t, out) ==> ExtractMbr(t, out, src).outcome == Fail(FileExists(out))
    ensures !Exists(t, out) && !IsFile(t, src) ==> ExtractMbr(t, out, src).outcome == Fail(FileNotFound(src))
    ensures !Exists(t, out) && IsFile(t, src) && !IsImageName(Name(src)) ==>
              ExtractMbr(t, out, src).outcome == Fail(NotAnImage(src))
  {
  }

  /** On success the output is a new file of mode 0o644 holding the
      first min(432, |source|) bytes of the source, the source still
      holds what it held, and nothing else but the output's directory
      listing changes. */
  lemma MbrWritten(t: Tree, out: Path, src: Path)
    requires WellFormed(t) && ExtractMbr(t, out, src).outcome == Pass
    ensures var e, q := ExtractMbr(t, out, src), Resolved(t, out).value;
            && q !in t && e.tree.Keys == t.Keys + {q}
            && IsFile(e.tree, out) && Stat(e.tree, out).value.mode == NewFileMode
            && |Stat(e.tree, out).value.data| == (if |Stat(t, src).value.data| < MbrLength then |Stat(t, src).value.data| else MbrLength)
            && (forall k :: 0 <= k < |Stat(e.tree, out).value.data| ==> Stat(e.tree, out).value.data[k] == Stat(t, src).value.data[k])
            && Stat(e.tree, src) == Stat(t, src)
            && (forall p :: p in t && p != Parent(q) ==> e.tree[p] == t[p])
  {
    var data := Stat(t, src).value.data;
    var q, bytes := Resolved(t, out).value, Prefix(data, MbrLength);
    CreateStep(t, out, bytes);
    var u := PutFile(t, q, bytes);
    assert ExtractMbr(t, out, src) == Effect(Pass, u, []);
    PutFileResolves(t, q, bytes, src);
    PutFileResolves(t, q, bytes, out);
    var s := Resolved(t, src).value;
    assert s in t && t[s].File? && s != q && s != Parent(q);
    assert Stat(u, src) == Stat(t, src);
    assert Stat(u, out) == Some(File(bytes, NewFileMode));
  }

  /** The stage on the filesystem. */
  method ExtractMbrFromIso(fs: FileSystem, out: Path, src: Path) returns (r: Outcome)
    requires fs.Valid()
    modifies fs
    ensures fs.Valid() && fs.log == old(fs.log)
    ensures r == ExtractMbr(old(fs.entries), out, src).outcome
    ensures fs.entries == ExtractMbr(old(fs.entries), out, src).tree
  {
    if Exists(fs.entries, out) {
      return Fail(FileExists(out));
    }
    if !IsFile(fs.entries, src) {
      return Fail(FileNotFound(src));
    }
    if !IsImageName(Name(src)) {
      return Fail(NotAnImage(src));
    }
    var data := fs.Read(src);
    r := fs.Write(out, Prefix(data.value, MbrLength));
  }
}
