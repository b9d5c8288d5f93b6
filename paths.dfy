/** Absolute filesystem paths as lists of components, and the parts of
    Python's `pathlib.PurePath` that the pipeline relies on: `name`,
    `parent`, `suffix`, `stem`, `with_suffix("")` and `str()`. */
module Paths {

  /** An absolute, already resolved path, as its components; `[]` is "/". */
  type Path = seq<string>

  /** `p.name`: the last component, "" for the root. */
  function Name(p: Path): string
  {
    if p == [] then "" else p[|p| - 1]
  }

  /** `p.parent`: the root is its own parent. */
  function Parent(p: Path): Path
  {
    if p == [] then [] else p[..|p| - 1]
  }

  predicate IsPrefix(a: Path, b: Path)
  {
    |a| <= |b| && b[..|a|] == a
  }

  predicate IsStrictPrefix(a: Path, b: Path)
  {
    |a| < |b| && b[..|a|] == a
  }

  /** The components joined by `sep`. */
  function Join(parts: seq<string>, sep: string): string
  {
    if parts == [] then ""
    else if |parts| == 1 then parts[0]
    else parts[0] + sep + Join(parts[1..], sep)
  }

  /** `str(p)`, as it is handed to a subprocess. */
  function PathString(p: Path): string
  {
    "/" + Join(p, "/")
  }

  /** `str.rfind('.')`: the index of the last dot, or -1. */
  function LastDot(s: string): (i: int)
    ensures -1 <= i < |s|
    ensures i >= 0 ==> s[i] == '.'
    ensures forall j :: i < j < |s| ==> s[j] != '.'
  {
    if s == [] then -1
    else if s[|s| - 1] == '.' then |s| - 1
    else LastDot(s[..|s| - 1])
  }

  /** `PurePath.suffix` of a name: from the last dot on, provided that dot
      is neither the first nor the last character; otherwise "". */
  function Suffix(name: string): string
  {
    var i := LastDot(name);
    if 0 < i < |name| - 1 then name[i..] else ""
  }

  /** `PurePath.stem` of a name: the name without its suffix. */
  function Stem(name: string): string
  {
    var i := LastDot(name);
    if 0 < i < |name| - 1 then name[..i] else name
  }

  /** `p.with_suffix("")`: the same name in the same directory, minus its
      suffix. */
  function WithoutSuffix(p: Path): (r: Path)
    requires p != []
    ensures |r| == |p| && Parent(r) == Parent(p)
    ensures Name(r) + Suffix(Name(p)) == Name(p)
  {
    Parent(p) + [Stem(Name(p))]
  }

  /** The last dot is found wherever no dot follows it. */
  lemma LastDotAt(s: string, k: int)
    requires 0 <= k < |s| && s[k] == '.'
    requires forall j :: k < j < |s| ==> s[j] != '.'
    ensures LastDot(s) == k
  {
  }

  /** A name has a given dotted extension as its suffix exactly when it
      ends with that extension and something comes before it; so ".iso"
      (a hidden file) and "disk.ISO" have no ".iso" suffix. */
  lemma {:induction false} SuffixIs(name: string, ext: string)
    requires |ext| >= 2 && ext[0] == '.'
    requires forall k :: 1 <= k < |ext| ==> ext[k] != '.'
    ensures Suffix(name) == ext <==> |name| > |ext| && name[|name| - |ext|..] == ext
  {
    if |name| > |ext| && name[|name| - |ext|..] == ext {
      var k := |name| - |ext|;
      assert name[k] == ext[0];
      forall j | k < j < |name| ensures name[j] != '.' {
        assert name[j] == ext[j - k];
      }
      LastDotAt(name, k);
    }
  }

  /** `initrd.gz` with its suffix removed is its sibling `initrd`. */
  lemma InitrdSibling(p: Path)
    requires p != [] && Name(p) == "initrd.gz"
    ensures WithoutSuffix(p) == Parent(p) + ["initrd"]
    ensures WithoutSuffix(p) != p && Name(WithoutSuffix(p)) == "initrd"
  {
    LastDotAt("initrd.gz", 6);
    assert "initrd.gz"[..6] == "initrd";
  }
}
