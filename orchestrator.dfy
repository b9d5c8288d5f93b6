/** The parts of `inject_files_into_iso` (iso/injection.py) that are not
    shell glue: the normalisation of the two paths it is given, its up-front
    checks on them, and the architecture, distribution and testing names it
    derives from the image's file name. */
module Inject {
  import opened Paths
  import opened Results
  import opened FileTree
  import Host
  import Initrd
  import Repack

  /** `sub` starts at position `i` of `s`. */
  predicate OccursAt(s: string, sub: string, i: int)
  {
    0 <= i && i + |sub| <= |s| && s[i..i + |sub|] == sub
  }

  /** Python's `sub in s` on strings. */
  function Contains(s: string, sub: string): bool
    decreases |s|
  {
    if |s| < |sub| then false
    else if s[..|sub|] == sub then true
    else Contains(s[1..], sub)
  }

  /** `sub in s` holds exactly when `sub` occurs somewhere in `s`. */
  lemma {:induction false} ContainsIff(s: string, sub: string)
    ensures Contains(s, sub) <==> exists i :: OccursAt(s, sub, i)
    decreases |s|
  {
    if |s| < |sub| {
      // no position leaves room for `sub`
    } else if s[..|sub|] == sub {
      assert OccursAt(s, sub, 0);
    } else {
      assert s != [];
      ContainsIff(s[1..], sub);
      if exists j :: OccursAt(s[1..], sub, j) {
        var j :| OccursAt(s[1..], sub, j);
        assert s[1..][j..j + |sub|] == s[j + 1..j + 1 + |sub|];
        assert OccursAt(s, sub, j + 1);
      }
      if exists i :: OccursAt(s, sub, i) {
        var i :| OccursAt(s, sub, i);
        assert i != 0;
        assert s[1..][i - 1..i - 1 + |sub|] == s[i..i + |sub|];
        assert OccursAt(s[1..], sub, i - 1);
      }
    }
  }

  /** `yes if marker in name else no`, the form of both derivations
      below. */
  function Pick(name: string, marker: string, yes: string, no: string): (r: string)
    requires yes != no
    ensures r == yes <==> exists i :: OccursAt(name, marker, i)
    ensures r != yes ==> r == no
  {
    ContainsIff(name, marker);
    if Contains(name, marker) then yes else no
  }

  /** The architecture: "amd" when the image's name holds "amd64",
      "386" otherwise. */
  function Arch(name: string): string
  {
    Pick(name, "amd64", "amd", "386")
  }

  /** The distribution: "bookworm" when the image's name holds "debian-12",
      "bullseye" otherwise. */
  function Dist(name: string): string
  {
    Pick(name, "debian-12", "bookworm", "bullseye")
  }

  /** The three names the orchestrator derives, each decided by one
      marker in the image's name. */
  lemma Derived(name: string)
    ensures Arch(name) == "amd" <==> exists i :: OccursAt(name, "amd64", i)
    ensures Arch(name) != "amd" ==> Arch(name) == "386"
    ensures Dist(name) == "bookworm" <==> exists i :: OccursAt(name, "debian-12", i)
    ensures Dist(name) != "bookworm" ==> Dist(name) == "bullseye"
    ensures Testing(name) == "testing" <==> exists i :: OccursAt(name, "debian-12", i)
    ensures Testing(name) != "testing" ==> Testing(name) == ""
  {
  }

  /** The testing marker: "testing" exactly for bookworm images, empty
      otherwise; so it too is decided by "debian-12" in the name. */
  function Testing(name: string): (r: string)
    ensures r == "testing" <==> Dist(name) == "bookworm"
    ensures r == "testing" <==> exists i :: OccursAt(name, "debian-12", i)
    ensures r != "testing" ==> r == ""
  {
    if Dist(name) == "bookworm" then "testing" else ""
  }

  /** The initrd the orchestrator patches: `install.<arch>/gtk/initrd.gz`
      under the extracted tree. Its name passes the initrd stage's name
      check, and its decompressed sibling is `initrd` beside it. */
  function InitrdArchivePath(root: Path, imageName: string): (p: Path)
    ensures Name(p) == Initrd.ArchiveName
    ensures Parent(p) == root + ["install." + Arch(imageName), "gtk"]
    ensures WithoutSuffix(p) == root + ["install." + Arch(imageName), "gtk", "initrd"]
  {
    var p := root + ["install." + Arch(imageName), "gtk", Initrd.ArchiveName];
    InitrdSibling(p);
    assert Parent(p) + ["initrd"] == root + ["install." + Arch(imageName), "gtk", "initrd"];
    p
  }

  /** `home` with its trailing slashes removed, as `expanduser` does. */
  function StripSlashes(home: string): (r: string)
    ensures |r| <= |home| && r == home[..|r|]
    ensures r == [] || r[|r| - 1] != '/'
    ensures forall k :: |r| <= k < |home| ==> home[k] == '/'
  {
    if home == [] || home[|home| - 1] != '/' then home
    else
      var r := StripSlashes(home[..|home| - 1]);
      assert home[..|home| - 1][..|r|] == home[..|r|];
      r
  }

  /** `Path.expanduser` for a user whose home directory is `home`: a
      leading "~" alone or followed by "/" is replaced by the home
      directory without its trailing slashes, and an empty result becomes
      "/". Every other string is returned as it is. */
  function ExpandUser(s: string, home: string): string
  {
    if |s| > 0 && s[0] == '~' && (|s| == 1 || s[1] == '/') then
      var r := StripSlashes(home) + s[1..];
      if r == [] then "/" else r
    else s
  }

  /** The orchestrator's `if "~" in str(path): path = path.expanduser()`. */
  function Normalise(s: string, home: string): string
  {
    if '~' in s then ExpandUser(s, home) else s
  }

  /** The guard on `~` changes nothing: normalising is expanding. */
  lemma NormaliseIsExpandUser(s: string, home: string)
    ensures Normalise(s, home) == ExpandUser(s, home)
  {
    if '~' !in s && |s| > 0 {
      assert s[0] in s;
    }
  }

  /** With an absolute home directory, a path that `expanduser` rewrites
      becomes absolute, and keeps whatever followed the "~". */
  lemma {:induction false} ExpandUserAbsolute(s: string, home: string)
    requires |home| > 0 && home[0] == '/'
    requires |s| > 0 && s[0] == '~' && (|s| == 1 || s[1] == '/')
    ensures var r := ExpandUser(s, home); |r| > 0 && r[0] == '/'
    ensures var r := ExpandUser(s, home); |s| > 1 ==> |s| - 1 <= |r| && r[|r| - (|s| - 1)..] == s[1..]
  {
    var h := StripSlashes(home);
    var r := h + s[1..];
    if r != [] {
      if h != [] {
        assert h[0] == home[0];
      } else {
        assert r == s[1..] && |s| > 1;
      }
      assert r[|r| - (|s| - 1)..] == s[1..];
    }
  }

  /** The up-front checks on the normalised, resolved paths, in the order
      the source makes them: the input must be a file, the output must not
      be a file, and the output's parent must be a directory. */
  function CheckPaths(t: Tree, input: Path, output: Path): (r: Outcome)
    ensures r == Pass <==> IsFile(t, input) && !IsFile(t, output) && IsDir(t, Parent(output))
    ensures r.Fail? ==> r.error in {FileNotFound(input), FileExists(output), NotADirectory(Parent(output))}
  {
    if !IsFile(t, input) then Fail(FileNotFound(input))
    else if IsFile(t, output) then Fail(FileExists(output))
    else if !IsDir(t, Parent(output)) then Fail(NotADirectory(Parent(output)))
    else Pass
  }

  /** The checks come in this order. */
  lemma CheckPathsOrder(t: Tree, input: Path, output: Path)
    ensures !IsFile(t, input) ==> CheckPaths(t, input, output) == Fail(FileNotFound(input))
    ensures IsFile(t, input) && IsFile(t, output) ==> CheckPaths(t, input, output) == Fail(FileExists(output))
    ensures IsFile(t, input) && !IsFile(t, output) && !IsDir(t, Parent(output)) ==>
              CheckPaths(t, input, output) == Fail(NotADirectory(Parent(output)))
  {
  }

  /** The output check only rejects files: an output that is an existing
      directory (or symlink to one) passes it, and it is the repack stage,
      at the end of the pipeline, that then refuses it. */
  lemma DirectoryOutputCaughtLate(t: Tree, tools: Host.Tools, input: Path, output: Path, mbr: Path, root: Path, name: string)
    requires WellFormed(t) && IsFile(t, input) && IsDir(t, output) && IsDir(t, Parent(output))
    ensures CheckPaths(t, input, output) == Pass
    ensures Repack.RepackIso(t, tools, output, mbr, root, name).outcome == Fail(FileExists(output))
  {
  }
}
