# custom-debian-iso: the image re-mastering pipeline in Dafny

YunoHost's custom-debian-iso re-masters a Debian installer image. The core
pipeline is in `iso/injection.py`, and `udib/modiso.py` is an older copy of it:

1. `extract_iso` unpacks the image into a directory with `xorriso -osirrox on`.
2. `extract_mbr_from_iso` copies the image's master boot record (its first
   432 bytes) into a file.
3. `append_file_contents_to_initrd_archive` adds a file to the installer's
   `initrd.gz`. It widens the modes and decompresses to `initrd`, appends with
   `cpio -H newc -o -A`, then recompresses and narrows the modes again.
4. `regenerate_iso_md5sums_file` rewrites `md5sum.txt`. It holds one line
   `<md5>  <path relative to the root>` per file below the image root.
5. `repack_iso` masters a new hybrid BIOS/EFI image with `xorriso -as mkisofs`.

The orchestrator `inject_files_into_iso` checks its paths first. It then works
out the architecture, the distribution and the testing marker from the image
name, and calls the stages in order.

The model works like this:

- **The filesystem** is a value `Tree`: a map from absolute paths (lists of
  components) to files, directories and symbolic links (module `FileTree`).
  - `WellFormed` says every entry sits in a directory that lists it.
  - `Stat`, `IsFile`, `IsDir` and `Exists` follow links on the last component,
    with at most 40 hops.
  - Each Python file operation the stages use is a step function returning
    `Ok(tree)` or `Err(error)`: `Path.chmod`, `Path.unlink`, `open(..., "w")`
    with write and close, and `read()`.
- **The machine** is the class `Host.FileSystem`. Its fields are the tree and
  the log of processes started. Its methods apply one step each.
  - The external programs and outside code are fields of the value
    `Host.Tools`: gzip, gunzip, cpio's append, MD5, the two xorriso modes and
    the `core.utils` walker.
  - `Lawful(tools)` states the few laws the proofs rely on: gunzip undoes gzip,
    MD5 yields 32 hex digits, and extraction leaves a well-formed tree.
- **Each stage** is a specification function returning an `Effect`. An
  `Effect` says whether the stage raised (and with which exception), the tree
  it leaves, and the processes it started.
  - Beside it is an imperative method that runs the stage on a `FileSystem`.
    Its postcondition is equality with the specification function.
  - Lemmas state what the source promises about the function: check order,
    error cases, the exact command lines, and the files left behind.
  - They also state the frames: nothing else changes.
- **Exceptions** are constructors of `Results.Error`. `ExceptionClass` names the
  Python class each one is raised as.

## Model

| member | source | states |
|---|---|---|
| FileTree.ChmodStep | iso/injection.py:129-130 | chmod succeeds exactly when the path exists after following links, and sets the mode of the link's target. Otherwise it raises ELOOP for a link loop, NotADirectoryError when the lookup stops at a file, and FileNotFoundError otherwise. |
| FileTree.UnlinkStep | iso/injection.py:138 | unlink succeeds exactly on an existing non-directory entry and removes that entry itself, not a link's target. It raises IsADirectoryError for a directory; for a missing path, NotADirectoryError when the lookup stops at a file and FileNotFoundError otherwise. |
| FileTree.WriteStep | iso/injection.py:136 | after a successful `open(p, "w")` + write + close, `p` is a file holding exactly the written bytes. Opening a directory raises IsADirectoryError; an existing file can always be overwritten. |
| FileTree.ReadStep | iso/injection.py:230-232 | reading succeeds exactly on a file (after following links) and yields its content |
| FileTree.Stat | iso/injection.py:122 | `os.stat`: follows links on the last component and never yields a link; `Exists`, `IsFile` and `IsDir` are read off it |
| FileTree.Deepest | iso/injection.py:129 | the longest prefix of a path that is an entry: where a lookup stops |
| FileTree.AncestorIsDir | iso/injection.py:129 | in a well-formed tree every proper prefix of an entry is a directory |
| FileTree.MissingThroughFile | iso/injection.py:129 | a lookup that meets a file before its last component raises NotADirectoryError |
| FileTree.MissingInDir | iso/injection.py:129 | a missing name inside an existing directory raises FileNotFoundError |
| FileTree.StepsThroughFile | iso/injection.py:129-136 | chmod, read and `open(.., "w")` raise NotADirectoryError on a path through a file, also two levels below it |
| FileTree.UnlinkThroughFile | iso/injection.py:138 | unlink raises NotADirectoryError on a path through a file |
| FileTree.CreateStep | iso/injection.py:299-301 | writing a path that does not exist succeeds exactly when its links lead into an existing directory. It then adds exactly one new 0o644 file. |
| FileTree.ChmodWithParent | iso/injection.py:129-130 | chmod of a file and then of its directory keeps the same paths, sets exactly those two modes and changes no other entry |
| FileTree.Supersede | iso/injection.py:135-138 | writing a new sibling and deleting the original leaves the sibling as a new 0o644 file in place of the original. The directory's mode and every other entry stay as they were. |
| FileTree.PutFileTwice | iso/injection.py:165-167 | `open(p, "w")` followed by a second write leaves only what the second write left |
| Paths.Name | iso/injection.py:124 | `PurePath.name`: the last component, empty for the root (see `Paths.InitrdSibling`) |
| Paths.Parent | iso/injection.py:130 | `PurePath.parent`: the root is its own parent (see `FileTree.ParentListed`) |
| Paths.Suffix | iso/injection.py:294 | `PurePath.suffix`: from the last dot, when that dot is neither first nor last (see `Paths.SuffixIs`) |
| Paths.Stem | iso/injection.py:132 | `PurePath.stem`: the name without its suffix (see `Paths.WithoutSuffix`) |
| Paths.WithoutSuffix | iso/injection.py:132 | `with_suffix("")` keeps the directory and removes exactly the name's suffix |
| Paths.SuffixIs | iso/injection.py:294 | a name has a given extension as its `suffix` exactly when it ends in that extension after at least one other character |
| Paths.InitrdSibling | iso/injection.py:132 | `initrd.gz` without its suffix is the distinct sibling `initrd` |
| Utf8.EncodeAppend | iso/injection.py:233-238 | the UTF-8 text written in pieces is the encoding of the whole text |
| Utf8.EncodeAscii | iso/injection.py:155 | ASCII text encodes to one byte per character, each its code point |
| Utf8.EncodeEndsInNewline | iso/injection.py:155 | the encoding ends in a newline byte exactly when the text ends in a newline |
| Host.FileSystem.Chmod | iso/injection.py:129-130 | applies chmod to the tree, or raises and leaves it unchanged |
| Host.FileSystem.Unlink | iso/injection.py:138 | applies unlink to the tree, or raises and leaves it unchanged |
| Host.FileSystem.Write | iso/injection.py:135-137 | applies the write to the tree, or raises and leaves it unchanged |
| Host.FileSystem.Read | iso/injection.py:230-232 | returns the content of the file, and raises exactly when the path is not a file |
| Host.FileSystem.Start | iso/injection.py:144-156 | records one started process and leaves the tree alone |
| Host.FileSystem.Replace | iso/injection.py:64-74 | replaces the whole tree with the well-formed tree an extraction leaves, without logging another process |
| ExtractIso.Extract | iso/injection.py:56-78 | the output directory and then the image are checked before anything runs. xorriso runs once, and only when both checks pass. The stage succeeds exactly when both checks pass and xorriso exits 0; a failure leaves the tree as it was. |
| ExtractIso.ExtractCheckOrder | udib/modiso.py:84-103 | NotADirectoryError comes first, then FileNotFoundError; a run that exits non-zero raises RuntimeError naming the image |
| ExtractIso.ExtractArgv | iso/injection.py:64-71 | the `xorriso -osirrox on -indev <image> -extract / <dir>` command line (see `ExtractIso.ExtractArgvShape`) |
| ExtractIso.ExtractArgvShape | iso/injection.py:64-71 | the command line names the image after `-indev` and the target directory last |
| ExtractIso.ExtractWellFormed | iso/injection.py:63-74 | with a well-behaved xorriso, the tree after the stage is well formed |
| ExtractIso.ExtractInto | iso/injection.py:56-78 | the method's outcome, tree and process log are those of the stage's specification |
| Mbr.IsImageName | iso/injection.py:294 | the suffix is `.iso` or `.img` (see `Mbr.ImageNameIff`) |
| Mbr.ImageNameIff | iso/injection.py:294-296 | the source passes the name check exactly when its name ends in `.iso` or `.img` after at least one other character (the check is case-sensitive) |
| Mbr.Prefix | iso/injection.py:301 | `read(432)` yields the first min(432, length) bytes |
| Mbr.ExtractMbr | iso/injection.py:285-301 | the stage succeeds exactly when the output does not exist, the source is a file named `.iso`/`.img`, and the output can be created. It starts no process, and a failure leaves the tree as it was. |
| Mbr.MbrCheckOrder | iso/injection.py:285-296 | FileExistsError for the output comes first, then FileNotFoundError for the source, then RuntimeError for a name that is not an image |
| Mbr.MbrWritten | udib/modiso.py:288-307 | on success the output is a new 0o644 file holding the source's first min(432, length) bytes. The source is unchanged, and only the output's directory listing also changes. |
| Mbr.ExtractMbrFromIso | iso/injection.py:285-301 | the method's outcome and tree are those of the stage's specification, and no process is started |
| Repack.IsWordChar | iso/injection.py:380 | `\w` restricted to ASCII: letters, digits and `_` |
| Repack.IsNameChar | iso/injection.py:380 | a character outside the class `[^\w .-]` (see `Repack.InvalidChar`) |
| Repack.RepackArgv | iso/injection.py:390-402 | the 29-word `xorriso -as mkisofs` command line (see `Repack.RepackArgvShape` and `Repack.RepackArgvFixed`) |
| Repack.Admissible | iso/injection.py:366-385 | all four checks pass (see `Repack.RepackIso`, which starts xorriso exactly then) |
| Repack.InvalidChar | iso/injection.py:380-385 | it finds nothing exactly when every character of the volume name is a word character, space, dot or hyphen. Otherwise it finds the leftmost character that is not. |
| Repack.RepackArgvShape | iso/injection.py:389-402 | the 29-word command line holds the volume name after `-V`, the output after `-o`, the boot record after `-isohybrid-mbr`, and the tree root last |
| Repack.RepackArgvFixed | udib/modiso.py:387-400 | every other word of the command line is the same whatever the arguments |
| Repack.RepackIso | iso/injection.py:366-410 | the stage is well formed. A failure leaves the tree as it was. xorriso is started exactly when all four checks pass. |
| Repack.RepackCheckOrder | iso/injection.py:366-385 | FileExistsError for any existing output comes first, then FileNotFoundError for the boot record, then NotADirectoryError for the root, then RuntimeError naming the first bad character |
| Repack.RepackRuns | iso/injection.py:388-410 | once the checks pass, exactly the one xorriso process is started. The stage succeeds exactly when xorriso produces an image and the output can be created; a run that exits non-zero raises RuntimeError naming the root. On success the output holds the image, and only the output's directory listing also changes. |
| Repack.Repack | udib/modiso.py:364-404 | the method's outcome, tree and process log are those of the stage's specification |
| Walk.WalkDir | udib/modiso.py:44-52 | the walk of one directory: the walk of its children in `iterdir` order (see `Walk.WalkDirSound` and `Walk.WalkDirComplete`) |
| Walk.WalkEntries | udib/modiso.py:46-50 | each child in turn: a file gives its resolved path, a real directory its own walk, anything else nothing |
| Walk.FindAllFiles | udib/modiso.py:39-42 | the walk raises exactly when the path is not a directory, and then raises NotADirectoryError |
| Walk.WalkDirSound | udib/modiso.py:46-50 | everything the walk yields is the resolved path of a file entry below the directory |
| Walk.WalkDirComplete | udib/modiso.py:46-50 | in a well-formed tree the walk yields the resolved path of every file entry below the directory, descending into real directories only |
| Walk.FindAllFilesExact | udib/modiso.py:18-52 | on a well-formed tree the walk's result is exactly the set of resolved file entries below the resolved directory, and each of them is a regular file |
| Walk.FilesBelowMono | udib/modiso.py:49-50 | the files below a subdirectory are among the files below its ancestor |
| Manifest.Line | iso/injection.py:233-238 | one line: digest, two spaces, relative path, newline (see `Manifest.ParseOneLine`) |
| Manifest.RelPath | iso/injection.py:236 | `str(x.relative_to(root))`: the components below the root joined by `/`, "." for the root itself |
| Manifest.Scan | iso/injection.py:227-238 | the loop as a reference function: the text written and the first error (see `Manifest.ScanOutcome`, `Manifest.ScanRoundTrip` and `Md5Sums.ScanFiles`) |
| Manifest.RelativeTo | iso/injection.py:236 | `relative_to` succeeds exactly when the root is a prefix of the path, and otherwise raises ValueError |
| Manifest.ScanLast | iso/injection.py:227-238 | the loop over one more file leaves an earlier error as it was. It stops with that file's error when the file cannot be read or is not below the root. Otherwise it appends that file's line. |
| Manifest.ScanOutcome | iso/injection.py:227-238 | the loop fails exactly when some walked file is unreadable or outside the root, and then with the error of the first such file |
| Manifest.ParseOneLine | iso/injection.py:233-238 | one written manifest line reads back as its digest and relative path |
| Manifest.ParseConcat | iso/injection.py:233-238 | reading a manifest distributes over complete lines |
| Manifest.ScanRoundTrip | udib/modiso.py:239-249 | when every walked file is listable, the text written reads back as one entry per walked file, in walk order, holding the MD5 of its content and its path relative to the root |
| Manifest.IndexOf | iso/injection.py:237 | the index found is that of the first newline, or -1 when there is none |
| Md5Sums.Prepare | iso/injection.py:213-217 | widen, widen, unlink; the first step that raises ends it; the tree stays well formed and no process starts (see `Md5Sums.Cleared` and `Md5Sums.PrepareClears`) |
| Md5Sums.Rewrite | iso/injection.py:227-242 | create, loop, close, narrow, narrow; the tree stays well formed and no process starts (see `Md5Sums.RewriteSteps`, `Md5Sums.RewritePass` and `Md5Sums.RewriteFail`) |
| Md5Sums.ScanFiles | iso/injection.py:227-238 | the loop's text and error are those of the manifest's reference scan |
| Md5Sums.ScanStops | iso/injection.py:227-238 | once the loop has raised, no later file is looked at |
| Md5Sums.ScanSameFiles | iso/injection.py:227-238 | the loop reads the same from two trees that agree on the walked files |
| Md5Sums.Regenerate | iso/injection.py:200-242 | a root that is not a directory raises NotADirectoryError and changes nothing. A missing `md5sum.txt` raises and changes nothing. No process is started. |
| Md5Sums.Cleared | iso/injection.py:213-217 | widening and deleting the old manifest removes exactly that path, sets the root to 0o755, and changes no other entry |
| Md5Sums.PrepareClears | udib/modiso.py:225-229 | on a plain root holding a plain `md5sum.txt`, the preparation raises nothing and leaves that cleared tree |
| Md5Sums.RewriteSteps | iso/injection.py:227-242 | the rewrite creates the empty manifest and fills it with the loop's text when closed. It raises with the loop's error, or narrows both modes to 0o444/0o555. Walked files are untouched. |
| Md5Sums.RewriteFrame | iso/injection.py:227-242 | the rewrite adds exactly the manifest back at the end of the root's listing and changes no other entry's content |
| Md5Sums.RewritePass | iso/injection.py:227-242 | the rewrite succeeds exactly when every walked file lies below the root. Then the manifest, at 0o444 in a root at 0o555, records each walked file with the MD5 of its content and its relative path. |
| Md5Sums.RewriteFail | iso/injection.py:227-238 | otherwise the stage raises ValueError for the first walked file outside the root. The lines of the files before it are in the manifest, which stays at 0o644, and the root keeps its mode. |
| Md5Sums.FirstOutside | iso/injection.py:236 | the index of the first walked file outside the root, or the length when there is none |
| Md5Sums.ClearedFiles | udib/modiso.py:229-237 | deleting the old manifest takes exactly it out of the files found below the root, so the new manifest never lists itself |
| Md5Sums.ClearedResolves | iso/injection.py:217 | every path resolves alike before and after the old manifest is deleted |
| Md5Sums.UdibYieldsFiles | udib/modiso.py:46-50 | udib's walker yields regular-file entries only |
| Md5Sums.RegenerateUnfold | iso/injection.py:200-225 | on the expected layout, the checks pass and the old manifest is deleted before the walk sees the tree |
| Md5Sums.RegenerateFrame | iso/injection.py:200-242 | for a walker whose whole result is fixed at line 225, on the tree without the old manifest, and that yields files: the manifest never lists itself. The stage keeps the same paths and changes no entry but the manifest and the root. |
| Md5Sums.RegeneratePass | iso/injection.py:200-242 | the whole stage succeeds exactly when every walked file lies below the root. Then the manifest, at 0o444 in a root at 0o555, records each walked file's MD5 and relative path. |
| Md5Sums.RegenerateFail | iso/injection.py:200-238 | otherwise it raises ValueError for the first walked file outside the root, leaving the manifest at 0o644 and the root at 0o755 |
| Md5Sums.RegenerateUdib | udib/modiso.py:215-253 | with udib's walker, the walk cannot fail and lists exactly the files below the root other than the deleted manifest |
| Md5Sums.RegenerateMd5Sums | iso/injection.py:200-242 | the method's outcome and tree are those of the stage's specification |
| Md5Sums.PrepareManifest | iso/injection.py:213-217 | the method's outcome and tree are those of the preparation's specification |
| Md5Sums.RewriteManifest | iso/injection.py:227-242 | the method's outcome and tree are those of the rewrite's specification |
| Initrd.CpioArgs | iso/injection.py:145-148 | `cpio -H newc -o -A -F <raw>` (see `Initrd.PipeAppendPass`) |
| Initrd.AppendCall | iso/injection.py:144-156 | the process the append starts: cpio in `base_dir` with the relative path's encoding on stdin, or for udib/modiso.py:167-172 a shell running `echo` (see `Initrd.PipeStdin` and `Initrd.ShellAppendPass`) |
| Initrd.PipeStdin | iso/injection.py:154-156 | cpio's standard input ends in a newline byte only when the relative path does, and an ASCII path arrives one byte per character |
| Initrd.Append | iso/injection.py:140-162 | udib's shell form always succeeds and changes nothing. iso/injection.py's direct cpio, with cpio installed, raises exactly when its working directory is not a directory, with FileNotFoundError, NotADirectoryError or ELOOP. On success it starts exactly the one process; cpio's own exit status is never looked at. |
| Initrd.AppendCwdThroughFile | iso/injection.py:144-149 | a working directory whose lookup meets a file raises NotADirectoryError and changes nothing |
| Initrd.Unpack | iso/injection.py:129-138 | widen, widen, decompress to the sibling, unlink; the tree stays well formed and no process starts (see `Initrd.Unpacked` and `Initrd.UnpackSteps`) |
| Initrd.Recompress | iso/injection.py:165-172 | create, compress, unlink, narrow, narrow; the tree stays well formed and no process starts (see `Initrd.Repacked` and `Initrd.RecompressSteps`) |
| Initrd.Patch | iso/injection.py:129-172 | the three phases, each only after the previous one did not raise; the tree stays well formed (see `Initrd.PatchThen` and `Initrd.Patched`) |
| Initrd.PipeAppend | iso/injection.py:117-172 | iso/injection.py's stage: the two checks, then the patch; the tree stays well formed (see `Initrd.PipeCheckOrder`, `Initrd.PipeAppendPass` and `Initrd.PipeAppendLeaves`) |
| Initrd.ShellAppend | udib/modiso.py:139-187 | udib/modiso.py's stage as written: three checks, then the patch through the shell (see `Initrd.ShellCheckOrder` and `Initrd.ShellAppendKeepsContent`) |
| Initrd.CorrectedShellAppend | udib/modiso.py:139-187 | udib/modiso.py's stage with cpio run in the input's directory (see `Initrd.CorrectedShellAppendAdds`) |
| Initrd.PipeCheckOrder | iso/injection.py:122-126 | FileNotFoundError for a missing archive, then AssertionError for one not called `initrd.gz`, each before any mode changes |
| Initrd.ShellCheckOrder | udib/modiso.py:143-151 | the same two checks, then FileNotFoundError for a missing input file |
| Initrd.Unpacked | iso/injection.py:129-138 | after unpacking, `initrd.gz` is replaced by `initrd` holding the decompressed bytes at 0o644, the directory is at 0o755, and nothing else changes |
| Initrd.Repacked | iso/injection.py:165-172 | after repacking, `initrd` is replaced by `initrd.gz` at 0o444 holding the compressed bytes, the directory is at 0o555, and nothing else changes |
| Initrd.UnpackSteps | udib/modiso.py:154-163 | on the expected layout, widening, decompressing and deleting raise nothing and leave the unpacked tree |
| Initrd.PipeSteps | iso/injection.py:144-156 | with a real directory to run in, cpio replaces the raw archive with its append of the piped name |
| Initrd.RecompressSteps | udib/modiso.py:180-187 | recompressing what the append leaves raises nothing and leaves the repacked tree |
| Initrd.Patched | iso/injection.py:129-172 | the patched tree has the same paths, no `initrd`, `initrd.gz` at 0o444 holding the final bytes in a directory at 0o555, and every other entry unchanged |
| Initrd.PatchThen | iso/injection.py:138-168 | on the expected layout, the patch is the append on the unpacked tree. The recompression follows only when the append did not raise. |
| Initrd.ChecksPass | udib/modiso.py:143-151 | on the expected layout (and an input file, for udib), the checks let the patch run |
| Initrd.PipeAppendPass | iso/injection.py:117-172 | on the expected layout with a real directory to run in, the stage succeeds. It starts exactly one cpio with the relative path's encoding (no newline) on its standard input, in that directory. |
| Initrd.PipeAppendLeaves | iso/injection.py:117-172 | afterwards `initrd.gz` is at 0o444 and decompresses to cpio's append to the old raw archive. Its directory is at 0o555, `initrd` is gone, and every other entry is as it was. |
| Initrd.PipeAppendCwdFails | iso/injection.py:138-156 | a working directory that is not a directory raises after `initrd.gz` was deleted: `initrd` is left behind and nothing is cleaned up |
| Initrd.ShellAppendPass | udib/modiso.py:165-187 | the udib stage as written succeeds and starts only a shell running `echo` |
| Initrd.ShellAppendKeepsContent | udib/modiso.py:167-172 | as written, the udib stage leaves an `initrd.gz` that decompresses to exactly the old archive: the input is never added |
| Initrd.CorrectedShellAppendAdds | udib/modiso.py:165-172 | the corrected udib stage runs cpio in the input's directory with the input's name on its standard input. The new `initrd.gz` decompresses to cpio's append of the input to the old archive. |
| Initrd.UnpackArchive | iso/injection.py:129-138 | the method's outcome and tree are those of the unpack's specification |
| Initrd.AppendToArchive | iso/injection.py:140-162 | the method's outcome, tree and process log are those of the append's specification |
| Initrd.RecompressArchive | iso/injection.py:165-172 | the method's outcome and tree are those of the recompression's specification |
| Initrd.PatchArchive | iso/injection.py:129-172 | the method's outcome, tree and process log are those of the three phases' specification |
| Initrd.AppendFileContentsToInitrdArchive | iso/injection.py:117-172 | the method's outcome, tree and process log are those of iso/injection.py's stage specification |
| Initrd.AppendInputFileToInitrdArchive | udib/modiso.py:140-187 | the method's outcome, tree and process log are those of the udib stage as written |
| Inject.ContainsIff | iso/injection.py:484 | Python's `sub in s` holds exactly when `sub` occurs at some position of `s` |
| Inject.Pick | iso/injection.py:484-485 | `yes if marker in name else no` yields `yes` exactly when the marker occurs in the name, and `no` otherwise |
| Inject.Arch | iso/injection.py:484 | the architecture, picked by "amd64" (see `Inject.Derived`) |
| Inject.Dist | iso/injection.py:485 | the distribution, picked by "debian-12" (see `Inject.Derived`) |
| Inject.Derived | iso/injection.py:484-486 | the architecture is "amd" exactly when the image name contains "amd64", and "386" otherwise; the distribution is "bookworm" exactly when it contains "debian-12", and "bullseye" otherwise; the testing marker is "testing" exactly then, and empty otherwise |
| Inject.Testing | iso/injection.py:486 | the testing marker is "testing" exactly for bookworm, hence exactly when the name contains "debian-12", and empty otherwise |
| Inject.InitrdArchivePath | iso/injection.py:513-517 | the archive patched is `install.<arch>/gtk/initrd.gz` under the extracted tree. It passes the stage's name check, and its sibling is `initrd`. |
| Inject.ExpandUser | iso/injection.py:442-443 | `expanduser` of a leading `~` or `~/` with a given home directory (see `Inject.ExpandUserAbsolute`) |
| Inject.Normalise | iso/injection.py:442-443 | the guarded expansion (see `Inject.NormaliseIsExpandUser`) |
| Inject.StripSlashes | iso/injection.py:442-443 | the home directory with exactly its trailing slashes removed |
| Inject.NormaliseIsExpandUser | iso/injection.py:442-443 | the `"~" in str(path)` guard changes nothing: guarded expansion equals `expanduser` |
| Inject.ExpandUserAbsolute | iso/injection.py:448-449 | with an absolute home, a path that expansion rewrites becomes absolute and keeps everything after the `~` |
| Inject.CheckPaths | iso/injection.py:442-454 | the preflight passes exactly when the input is a file, the output is not a file, and the output's parent is a directory. Any failure is one of the three matching exceptions. |
| Inject.CheckPathsOrder | iso/injection.py:445-454 | FileNotFoundError for the input comes first, then FileExistsError for the output, then NotADirectoryError for its parent |
| Inject.DirectoryOutputCaughtLate | iso/injection.py:451-452 | an output path that is an existing directory passes the preflight, and only the final repack stage then raises FileExistsError for it |

## Left out

- The algorithms of gzip (RFC 1952), cpio's newc format, MD5 (RFC 1321) and
  ISO 9660/El Torito mastering are outside code. They are fields of
  `Host.Tools`, and only the laws in `Lawful` are assumed about them.
- `core.utils.find_all_files_under` (the walker iso/injection.py calls) is not
  part of this model. It is the parameter `walker`, and the regeneration lemmas
  hold for any walker that yields regular-file entries.
- The `os.system` shell glue of `inject_files_into_iso` (iso/injection.py:488-512)
  sits outside the Python it drives. This covers the xen removal, the
  `chmod +w/-w` calls, `cp` and `sed`.
- The order in which `inject_files_into_iso` runs the stages is left out too.
  The stages are modelled one by one, with the orchestrator's own checks and
  names.
- The temporary directories and their cleanup are not modelled: nothing is
  cleaned up when a stage raises, and `Initrd.PipeAppendCwdFails` shows what is
  left behind then.
- `clibella.Printer` output and the `TypeError` check on the printer
  (iso/injection.py:456-461) are left out: that is console I/O and a type check.
- Standard output and error capture of the subprocesses is not modelled.
- A failed xorriso run is taken to leave the tree unchanged, which drops
  partial output.
- Permissions are not enforced. Modes are recorded as integers only, and the
  umask is taken as 0o022, so new files are 0o644.
- gzip decoding errors are not modelled: `gunzip` is total.
- `Path.resolve()` is not modelled: paths are absolute and already resolved.
  Symbolic links are followed on the last component only, so a link in the
  middle of a path is not followed.
- Inject.ExpandUser: the home directory is a parameter (from `HOME`). The
  password-database lookup and `~user` forms are not modelled; those paths are
  left unchanged.
- Inject.ExpandUser works on the raw string. `Path.expanduser` tests the first
  component pathlib parsed, after dropping `.` components and repeated
  slashes, so Python expands `./~/a.iso` and the model leaves it unchanged.
- Md5Sums.Rewrite: `open(p, "w")` encodes with the locale's preferred
  encoding in strict mode; a UTF-8 locale is assumed. A file name holding
  surrogate escapes would raise UnicodeEncodeError; that is not modelled.
- Initrd.PipeAppendPass: `gzip.open(.., "wb")` puts the current time and the
  name `initrd` into the gzip header. `gzip` is taken as a function of the
  bytes alone, as if the clock were fixed for the run, so the exact
  compressed bytes this lemma states hold only under that assumption. The
  decompressed content (`Initrd.PipeAppendLeaves`) does not depend on it.
- Initrd.ShellAppendPass: the same fixed-clock assumption about the gzip
  header at udib/modiso.py:180.
- Intermediate symbolic links: a link in the middle of a path is not
  followed as a directory. When a lookup stops at such a link:
  - chmod, unlink and read raise NotADirectoryError if the link leads to a
    file, as Linux does (`FileTree.MissingError` follows the link to decide);
  - they raise FileNotFoundError if the link leads to a directory, is
    dangling or loops, where Linux would go on into the directory (and
    might succeed), or raise ELOOP for a loop;
  - `open(p, "w")` raises NotADirectoryError whenever the new file's own
    directory is a link, even a link to a directory, where Linux would
    create the file in that directory.
- Initrd.Append, ExtractIso.Extract, Repack.RepackIso: the external programs
  (`cpio`, `xorriso`) are assumed installed. When one is missing,
  `subprocess.Popen`/`subprocess.run` raise FileNotFoundError, which the
  `except subprocess.CalledProcessError` clauses at iso/injection.py:75,
  :158 and :408 do not catch; after the initrd unpack that leaves `initrd`
  behind. The model's tools cannot fail that way.
- Initrd.PipeAppendPass, Initrd.PipeAppendLeaves, Initrd.Patched: these
  assume no stale `initrd` already sits beside `initrd.gz`. The source would
  overwrite such a file at iso/injection.py:135-137 and delete it at :168;
  that case is not stated.
- Repack.IsWordChar: `\w` is restricted to ASCII; Python's Unicode word
  characters beyond ASCII are not modelled.
- The `r+b` mode of the source in `extract_mbr_from_iso`, which would also
  demand write access to the image, is not modelled.
- Md5Sums.RegenerateFrame: the model assumes the whole result of the
  `core.utils` walker is fixed at iso/injection.py:225, before line 227
  creates the new `md5sum.txt`. A walker that yielded lazily could list the
  new manifest. For udib/modiso.py the assumption holds outright, since its
  walker returns a list (`Md5Sums.RegenerateUdib`).
- Initrd.PipeAppend: the archive path is taken as already resolved. The
  `~` expansion and `resolve()` at iso/injection.py:117-119 are the
  orchestrator-level normalisation modelled in `Inject`.

Where the documentation and the code disagree, the model follows the code:

- The MBR file holds min(432, length) bytes of the source.
- udib's walker includes resolved links to files, although its docstring says
  symbolic links are ignored.
- An empty volume name passes the name check.
- iso/injection.py:283 does not resolve the source of `extract_mbr_from_iso`,
  so the name of the path as given is checked.
- The orchestrator's output check rejects only files. An existing directory
  passes, and the repack then raises `FileExistsError`
  (`Inject.DirectoryOutputCaughtLate`).

## Findings

| source | as written | input that shows it | evidently intended | confidence | as-written member | corrected member |
|---|---|---|---|---|---|---|
| udib/modiso.py:167-172 | the argument list is handed to `subprocess.run` with `shell=True`. POSIX runs only the first word, `echo`, as the shell command; the pipe and `cpio` become positional parameters. So the archive is recompressed unchanged and the stage reports success. | any input file, with a plain `initrd.gz` and no `initrd` beside it | cpio appends the input file to the decompressed archive, as iso/injection.py:144-156 does | not executed | Initrd.ShellAppendKeepsContent | Initrd.CorrectedShellAppendAdds |
