/** The checksum manifest `md5sum.txt` of an extracted installer image:
    one line `digest + "  " + relative path + "\n"` per file, and its
    regeneration by `regenerate_iso_md5sums_file` (both iso/injection.py
    and udib/modiso.py). */
module Manifest {
  import opened Paths
  import opened Results
  import opened FileTree
  import opened Utf8
  import opened Host
  import Walk

  /** Name of the manifest file in the image root. */
  const ManifestName: string := "md5sum.txt"

  /** One manifest line. */
  function Line(digest: string, rel: string): string
  {
    digest + "  " + rel + "\n"
  }

  /** `str(x.relative_to(root))`: "." for the root itself. */
  function RelPath(x: Path, root: Path): string
    requires IsPrefix(root, x)
  {
    if |x| == |root| then "." else Join(x[|root|..], "/")
  }

  /** `x.relative_to(root)`, which raises ValueError when `x` is not
      below `root`. */
  function RelativeTo(x: Path, root: Path): (r: Result<string>)
    ensures r.Ok? <==> IsPrefix(root, x)
    ensures r.Err? ==> r.error == NotRelative(x, root)
  {
    if IsPrefix(root, x) then Ok(RelPath(x, root)) else Err(NotRelative(x, root))
  }

  /** The loop over the walked files: reads each file, then computes its
      relative path, and appends its line; the first error stops it and
      leaves the text written so far. */
  function Scan(t: Tree, root: Path, files: seq<Path>, md5: seq<Byte> -> string): (string, Option<Error>)
  {
    if files == [] then ("", None)
    else
      var (text, err) := Scan(t, root, files[..|files| - 1], md5);
      var x := files[|files| - 1];
      if err.Some? then (text, err)
      else match ReadStep(t, x)
        case Err(e) => (text, Some(e))
        case Ok(data) =>
          match RelativeTo(x, root)
          case Err(e) => (text, Some(e))
          case Ok(rel) => (text + Line(md5(data), rel), None)
  }

  /** A walked file the loop gets through: readable and below the root. */
  predicate Listable(t: Tree, root: Path, x: Path)
  {
    IsFile(t, x) && IsPrefix(root, x)
  }

  /** The error the loop stops with on a file that is not listable. */
  function FileError(t: Tree, root: Path, x: Path): Error
  {
    if ReadStep(t, x).Err? then ReadStep(t, x).error else NotRelative(x, root)
  }

  /** The loop fails exactly when some walked file is not listable; it
      then raises that file's error for the first such file, and the text
      written is that of the files before it. */
  lemma {:induction false} ScanOutcome(t: Tree, root: Path, files: seq<Path>, md5: seq<Byte> -> string)
    ensures Scan(t, root, files, md5).1.None? <==> forall k :: 0 <= k < |files| ==> Listable(t, root, files[k])
    ensures Scan(t, root, files, md5).1.Some? ==>
              exists k :: 0 <= k < |files| && !Listable(t, root, files[k]) &&
                (forall j :: 0 <= j < k ==> Listable(t, root, files[j])) &&
                Scan(t, root, files, md5) == (Scan(t, root, files[..k], md5).0, Some(FileError(t, root, files[k])))
  {
    if files != [] {
      var init := files[..|files| - 1];
      ScanOutcome(t, root, init, md5);
      var x := files[|files| - 1];
      assert forall k :: 0 <= k < |init| ==> init[k] == files[k];
      ScanLast(t, root, files, md5);
      if Scan(t, root, init, md5).1.Some? {
        var k :| 0 <= k < |init| && !Listable(t, root, init[k]) &&
                 (forall j :: 0 <= j < k ==> Listable(t, root, init[j])) &&
                 Scan(t, root, init, md5) == (Scan(t, root, init[..k], md5).0, Some(FileError(t, root, init[k])));
        assert init[..k] == files[..k];
      } else if !Listable(t, root, x) {
        assert files[..|files| - 1] == init;
      }
    }
  }

  /** The last walked file: after an error nothing changes, an unlistable
      file raises its own error, and a listable one adds its line. */
  lemma ScanLast(t: Tree, root: Path, files: seq<Path>, md5: seq<Byte> -> string)
    requires files != []
    ensures var init, x := files[..|files| - 1], files[|files| - 1];
            Scan(t, root, files, md5) ==
              if Scan(t, root, init, md5).1.Some? then Scan(t, root, init, md5)
              else if !Listable(t, root, x) then (Scan(t, root, init, md5).0, Some(FileError(t, root, x)))
              else (Scan(t, root, init, md5).0 + Line(md5(Stat(t, x).value.data), RelPath(x, root)), None)
  {
    var x := files[|files| - 1];
    if IsFile(t, x) {
      assert ReadStep(t, x) == Ok(Stat(t, x).value.data);
    }
  }

  /** A parsed manifest line: digest and relative path. */
  datatype ManifestEntry = ManifestEntry(digest: string, path: string)

  predicate NoNewline(s: string)
  {
    forall i :: 0 <= i < |s| ==> s[i] != '\n'
  }

  /** The index of the first occurrence of `c`, or -1. */
  function IndexOf(s: string, c: char): (i: int)
    ensures -1 <= i < |s|
    ensures i >= 0 ==> s[i] == c
    ensures forall j :: 0 <= j < |s| && (i < 0 || j < i) ==> s[j] != c
  {
    if s == [] then -1
    else if s[0] == c then 0
    else
      var k := IndexOf(s[1..], c);
      if k < 0 then -1 else k + 1
  }

  /** Reads one line (without its newline): 32 digest characters, two
      spaces, then the path. */
  function ParseLine(l: string): Option<ManifestEntry>
  {
    if |l| >= 34 && l[32..34] == "  " then Some(ManifestEntry(l[..32], l[34..])) else None
  }

  /** Reads a manifest in which every line ends with a newline; None for
      a malformed one. */
  function ParseManifest(s: string): Option<seq<ManifestEntry>>
    decreases |s|
  {
    if s == [] then Some([])
    else
      var i := IndexOf(s, '\n');
      if i < 0 then None
      else match ParseLine(s[..i])
        case None => None
        case Some(e) =>
          match ParseManifest(s[i + 1..])
          case None => None
          case Some(es) => Some([e] + es)
  }

  /** A line with a 32-character digest and a path free of newlines reads
      back as itself. */
  lemma ParseOneLine(digest: string, rel: string)
    requires |digest| == 32 && NoNewline(digest) && NoNewline(rel)
    ensures ParseManifest(Line(digest, rel)) == Some([ManifestEntry(digest, rel)])
  {
    var s := Line(digest, rel);
    var l := digest + "  " + rel;
    assert s == l + "\n";
    forall j | 0 <= j < |l| ensures s[j] != '\n' {
      assert s[j] == l[j];
      if j < 32 { assert l[j] == digest[j]; }
      else if j >= 34 { assert l[j] == rel[j - 34]; }
    }
    assert s[|l|] == '\n';
    assert IndexOf(s, '\n') == |l|;
    assert s[..|l|] == l && l[32..34] == "  " && l[..32] == digest && l[34..] == rel;
    assert s[|l| + 1..] == [];
    assert ParseLine(s[..|l|]) == Some(ManifestEntry(digest, rel));
    assert ParseManifest(s) == Some([ManifestEntry(digest, rel)] + []);
    assert [ManifestEntry(digest, rel)] + [] == [ManifestEntry(digest, rel)];
  }

  /** One line read off the front of a manifest. */
  lemma ParseCons(s: string, i: int, head: string, tail: string)
    requires s != [] && IndexOf(s, '\n') == i && i >= 0 && head == s[..i] && tail == s[i + 1..]
    ensures ParseManifest(s) ==
              if ParseLine(head).Some? && ParseManifest(tail).Some?
              then Some([ParseLine(head).value] + ParseManifest(tail).value)
              else None
  {
  }

  lemma IndexOfConcat(a: string, b: string, c: char)
    requires IndexOf(a, c) >= 0
    ensures IndexOf(a + b, c) == IndexOf(a, c)
  {
    var i, ab := IndexOf(a, c), a + b;
    assert ab[i] == c;
    assert forall j :: 0 <= j < i ==> ab[j] == a[j];
  }

  lemma SplitAt(a: string, b: string, i: int, head: string, tail: string)
    requires 0 <= i < |a| && IndexOf(a, '\n') == i && head == a[..i] && tail == a[i + 1..]
    ensures IndexOf(a + b, '\n') == i && (a + b)[..i] == head && (a + b)[i + 1..] == tail + b
  {
    IndexOfConcat(a, b, '\n');
    DropConcat(a, b, i + 1);
  }

  lemma DropConcat(a: string, b: string, k: nat)
    requires k <= |a|
    ensures (a + b)[k..] == a[k..] + b
  {
  }

  lemma Assoc(x: seq<ManifestEntry>, y: seq<ManifestEntry>, z: seq<ManifestEntry>)
    ensures x + (y + z) == (x + y) + z
  {
  }

  /** Reading distributes over complete lines. */
  lemma {:induction false} ParseConcat(a: string, b: string)
    requires ParseManifest(a).Some? && ParseManifest(b).Some?
    ensures ParseManifest(a + b) == Some(ParseManifest(a).value + ParseManifest(b).value)
    decreases |a|
  {
    if a == [] {
      assert a + b == b;
      assert ParseManifest(a) == Some([]);
      assert [] + ParseManifest(b).value == ParseManifest(b).value;
    } else {
      var i := IndexOf(a, '\n');
      var head, tail := a[..i], a[i + 1..];
      ParseCons(a, i, head, tail);
      ParseConcat(tail, b);
      SplitAt(a, b, i, head, tail);
      ParseCons(a + b, i, head, tail + b);
      var e, rest, pb := ParseLine(head).value, ParseManifest(tail).value, ParseManifest(b).value;
      Assoc([e], rest, pb);
      assert ParseManifest(a + b) == Some([e] + (rest + pb));
    }
  }

  /** The entry a listable file should get: the digest of its content and
      its path relative to the root. */
  function Expected(t: Tree, root: Path, x: Path, md5: seq<Byte> -> string): ManifestEntry
    requires Listable(t, root, x)
  {
    ManifestEntry(md5(Stat(t, x).value.data), RelPath(x, root))
  }

  /** The regenerated manifest reads back as one entry per walked file,
      in walk order: the MD5 digest of the file's content, and its path
      relative to the root. */
  lemma {:induction false} ScanRoundTrip(t: Tree, root: Path, files: seq<Path>, md5: seq<Byte> -> string)
    requires forall x :: IsHexDigest(md5(x))
    requires forall k :: 0 <= k < |files| ==> Listable(t, root, files[k]) && NoNewline(RelPath(files[k], root))
    ensures Scan(t, root, files, md5).1.None?
    ensures ParseManifest(Scan(t, root, files, md5).0).Some?
    ensures |ParseManifest(Scan(t, root, files, md5).0).value| == |files|
    ensures forall k :: 0 <= k < |files| ==>
              ParseManifest(Scan(t, root, files, md5).0).value[k] == Expected(t, root, files[k], md5)
  {
    if files != [] {
      var init := files[..|files| - 1];
      var x := files[|files| - 1];
      assert forall k :: 0 <= k < |init| ==> init[k] == files[k];
      ScanRoundTrip(t, root, init, md5);
      var digest := md5(Stat(t, x).value.data);
      var rel := RelPath(x, root);
      assert |digest| == 32 && NoNewline(digest) by {
        assert IsHexDigest(digest);
      }
      ParseOneLine(digest, rel);
      var text0 := Scan(t, root, init, md5).0;
      var es0 := ParseManifest(text0).value;
      ScanLast(t, root, files, md5);
      ParseConcat(text0, Line(digest, rel));
      var es := es0 + [ManifestEntry(digest, rel)];
      assert ParseManifest(Scan(t, root, files, md5).0) == Some(es);
      forall k | 0 <= k < |files| ensures es[k] == Expected(t, root, files[k], md5) {
        if k < |init| {
          assert es[k] == es0[k];
        }
      }
    } else {
      assert ParseManifest("") == Some([]);
    }
  }
}
