# rpm.extract — a Dafny model of `run_module`

`rpm.extract` is an Ansible module. It unpacks an RPM into a folder (as
`rpmdev-extract` does), optionally hands the unpacked tree to an owner and/or
group, and reports whether anything changed. It supports check mode.

The model covers `run_module` in `library/rpm.extract.py`. It has six files:

- `names.dfy`: how the default destination name is derived from `src`.
  This is the Python slice `src[:-4]` followed by `os.path.basename`.
- `paths.dfy`: how a path string is resolved against a working directory
  that is passed explicitly. This replaces the process-wide current
  directory, which the module changes with `os.chdir`. It also gives the
  entries a lookup passes through (`Paths.TraversedBy`): the kernel looks
  each non-empty piece up inside the entry reached so far.
- `filesystem.dfy`: the disk and the operations the module applies to it.
  - The disk is a map from absolute paths to entries. An entry is a
    directory, a file, or a symbolic link that does or does not point to a
    directory.
  - A lookup succeeds only when every entry it passes through is a directory
    or a link to one (`FileSystem.Reachable`). So "x/.." fails when `x` is
    missing or a file, although ".." cancels "x" once the path is resolved.
  - The operations are `os.path.isdir`, `shutil.rmtree(ignore_errors=True)`,
    `os.mkdir`, writing the unpacked entries, and the
    `os.walk` + `os.chown(follow_symlinks=False)` pass.
  - `Disk` is a class whose entries are updated in place. Its `ChownWalk`
    method is the nested walk loop.
- `rpm_extract.dfy`: the request, the environment, the report, and two forms
  of one run.
  - `Run` is one run as a function of its inputs. `Created` is the disk
    right after `os.mkdir`, `Archive` is where the pipeline looks for `src`,
    and `Pipeline` is what the pipeline does on that disk.
  - `RunModule` is the step-by-step procedure on a `Disk`, proved to follow
    `Run`.
  - When the walk is refused part-way, the final disk depends on the order of
    the walk. `Reaches` says which disks a run may end with.
- `properties.dfy`: what runs promise: the check-mode prediction, idempotence,
  force, ownership scoping, failure ordering, and the frame.
- `wrappers.dfy`: `Option`, and Python truthiness for optional strings.

The environment is made explicit. It holds:

- the starting working directory;
- the ids a freshly created directory receives;
- the password and group databases, as maps;
- what the unpack pipeline writes and whether it succeeds, once it has opened
  the archive. The module changes into the new destination before it runs
  the pipeline, so `src` is resolved there. When that path is absent, a
  directory, or a link to a directory, or its lookup passes through
  something that is not a directory, the pipeline fails and writes nothing;
- the set of paths whose chown is refused.

`os.chdir` failing and `os.mkdir` failing are uncaught exceptions in the
module. The model reports them as the failures `ChdirFailed` and
`MkdirFailed`. Only the failures that follow from the disk's structure or
the destination's name are modelled:

- `chdir` is not a directory, or its lookup passes through something that is
  not one;
- the destination's name is taken;
- the destination's parent is not a directory, or the lookup of the
  destination passes through something that is not one;
- the destination's last non-empty piece is "." or "..", or there is none
  (as in "/"). `os.mkdir` refuses such a name even when the directory it
  names is missing (`Paths.Creatable`).

Behaviour worth knowing:

- The option documentation (`library/rpm.extract.py:28-29`) describes the
  default destination as the RPM name without its ".rpm" suffix. The suffix
  is not checked: the last four characters of `src` are dropped whatever they
  are (`Names.DefaultDestIgnoresSuffix`).
- The pipeline runs inside the new, empty destination (line 189), so a
  relative `src` is looked up there. For any relative `src` without a ".."
  piece, the run then fails at lines 198-199 and leaves the empty
  destination behind (`Properties.RelativeSrcNeverExtracts`). A second run
  without `force` then reports no change, provided neither `chdir` nor its
  lookup reaches into the destination (`Properties.RelativeSrcSecondRun`).
  Both hold for a bare file name, the form the module's own examples use
  (`Properties.RelativePackageScenario`).
  An absolute `src` extracts (`Properties.PackageScenario`).
- With `force` and a destination whose last piece is "." or "..", where the
  lookup reaches an existing directory, the module's `rmtree` removes
  everything below that directory. It cannot remove the directory itself,
  and that error is swallowed. `os.mkdir` then fails, so the run ends with
  the directory emptied (`Properties.UncreatableDestNeverExtracts`).
  `RpmExtract.Cleared` is the disk after the forced removal in both cases.
- A destination "x/.." with `x` missing is not a directory, even though it
  names the working directory once ".." is applied. Check mode predicts a
  change, and a real run, forced or not, fails at `os.mkdir` with nothing
  removed (`Properties.UpFromMissingIsAbsent`).
- A non-directory at the destination counts as absent. Check mode predicts a
  change, and the real run then fails at `os.mkdir`
  (`Properties.NonDirAtDest`).
- A refused chown is reported against the destination (`result_dir`), not
  against the entry that was refused.
- Only the unpack failure echoes the result fields. The owner, group and
  chown failures carry just their message.
- Links to directories are listed by `os.walk` among `dirnames`, which the
  loop ignores. So they are never chowned, and the walk does not descend
  into them.

## Model

| member | source | states |
|---|---|---|
| Names.DropLast | library/rpm.extract.py:152 | `src[:-4]`: `src` is the result followed by its last four characters; a shorter `src` gives "" |
| Names.Basename | library/rpm.extract.py:152 | `os.path.basename`: the result holds no '/', is a suffix of the path, and is preceded by '/' when shorter than the path |
| Names.DefaultDest | library/rpm.extract.py:151-153 | the default destination name is a single component (no '/') no longer than `src` |
| Names.BasenameAppend | library/rpm.extract.py:152 | appending a '/'-free tail to a path appends it to the base name |
| Names.DefaultDestStripsRpm | library/rpm.extract.py:28-29 | for a `src` ending in ".rpm", the default destination plus ".rpm" is the base name of `src` |
| Names.BasenameOfName | library/rpm.extract.py:152 | a '/'-free name is its own base name |
| Names.DefaultDestOfPackageName | library/rpm.extract.py:151-153 | a '/'-free name followed by ".rpm" defaults to that name |
| Names.DefaultDestInDirectory | library/rpm.extract.py:151-153 | a path ending in "/" followed by a '/'-free name and ".rpm" defaults to that name, whatever directory precedes it |
| Names.DefaultDestExample | library/rpm.extract.py:151-153 | "ansible-core-2.12.9-1.fc36.noarch.rpm" defaults to "ansible-core-2.12.9-1.fc36.noarch" |
| Names.DefaultDestIgnoresSuffix | library/rpm.extract.py:152 | four characters are dropped even when they are not ".rpm": "downloads/pkg" gives "downloads", "abc" gives "" |
| Paths.Step | library/rpm.extract.py:161 | one piece of a path: "" and "." stay, ".." goes up but never above '/', a name goes down; the result is an absolute path of proper components |
| Paths.Split | library/rpm.extract.py:161 | splitting a path string yields at least one piece, none containing '/' |
| Paths.SplitJoin | library/rpm.extract.py:161 | joining the pieces with '/' gives back the string |
| Paths.SplitName | library/rpm.extract.py:161 | a '/'-free string is a single piece |
| Paths.SplitAfterName | library/rpm.extract.py:161 | a '/'-free name followed by '/' splits into that name and the pieces of the rest |
| Paths.CreatableName | library/rpm.extract.py:188 | a proper name (not empty, ".", ".." and without '/') is a name `os.mkdir` can create |
| Paths.CreatableExamples | library/rpm.extract.py:188 | ".", "x/..", "x/../" and "/" are not creatable names; "out/" is |
| Paths.NormalizeAppend | library/rpm.extract.py:161 | resolving two runs of pieces one after the other is resolving them together |
| Paths.NormalizeEndsInLastPiece | library/rpm.extract.py:161 | when the last non-empty piece is a proper name, resolution ends at an entry of that name |
| Paths.ResolveCreatable | library/rpm.extract.py:161 | a creatable path string resolves to a path whose last component is its last non-empty piece |
| Paths.Resolve | library/rpm.extract.py:156-161 | a path string resolves to an absolute path of proper components |
| Paths.ResolveAbsolute | library/rpm.extract.py:161 | a string starting with '/' resolves to the same path whatever the working directory, as `os.path.join` does |
| Paths.ResolveAboveRoot | library/rpm.extract.py:161 | ".." never climbs above '/': "/.." resolves to '/' |
| Paths.ResolveTopLevel | library/rpm.extract.py:192-194 | "/dir/name" resolves to the entry `name` inside the top-level directory `dir`, wherever the module has changed to |
| Paths.NormalizeExtends | library/rpm.extract.py:161 | pieces without ".." only go down from where resolution starts |
| Paths.ResolveRelativeBelow | library/rpm.extract.py:189-194 | a relative string without ".." pieces names the working directory or an entry below it |
| Paths.Locate | library/rpm.extract.py:161 | a path string names an entry exactly when it is non-empty |
| Paths.ResolveName | library/rpm.extract.py:161 | a plain name resolves to that entry inside the working directory |
| Paths.EndsInNameCreatable | library/rpm.extract.py:184-188 | a path string that ends in a proper name (no trailing '/', "." or "..") is creatable, and that name is its last non-empty piece |
| Paths.LastPieceEmpty | library/rpm.extract.py:188 | there is no last non-empty piece exactly when every piece is empty |
| Paths.LastPieceCons | library/rpm.extract.py:188 | the last non-empty piece of a piece followed by more is that of the rest, or the first piece when the rest has none |
| Paths.EmptyPieces | library/rpm.extract.py:161 | empty pieces neither move the lookup nor look anything up |
| Paths.BaseTraversed | library/rpm.extract.py:161 | a lookup with a non-empty piece looks something up in the entry it starts from |
| Paths.PassesEndFromBelow | library/rpm.extract.py:161-188 | a lookup that ends in a proper name and passes strictly below its end, or starts there, passes through its end |
| Paths.TraversedName | library/rpm.extract.py:161 | a plain name is looked up in the working directory and nowhere else |
| Paths.TraversedTopLevel | library/rpm.extract.py:192-194 | "/dir/name" is looked up through the top-level directory `dir` only |
| Paths.UpFromName | library/rpm.extract.py:161-188 | "name/.." resolves to where it starts, but its lookup passes through `name`, and it is not creatable |
| FileSystem.RemoveTree | library/rpm.extract.py:184 | `rmtree` on a directory removes it and everything below it and keeps everything else unchanged; on anything else (a link named without a trailing '/', a file) it changes nothing |
| FileSystem.Place | library/rpm.extract.py:189-195 | the unpacked entries appear strictly below the destination with the kinds and ids the pipeline gave them; every other entry is kept |
| FileSystem.RemoveBelow | library/rpm.extract.py:184 | `rmtree` on a directory that cannot itself be removed: exactly the entries strictly below the path are removed, and every other entry is kept unchanged |
| FileSystem.OnlyDirsHaveEntriesBelow | library/rpm.extract.py:184 | on a well-formed disk, a path with entries below it is a directory |
| FileSystem.RemoveBelowKeepsShape | library/rpm.extract.py:184 | emptying a directory keeps the disk well formed |
| FileSystem.PlaceNothing | library/rpm.extract.py:192-199 | a pipeline that writes nothing leaves the disk unchanged |
| FileSystem.NothingBelowAbsent | library/rpm.extract.py:182-188 | on a well-formed disk nothing lies below a path that is absent |
| FileSystem.RemoveTreeKeepsShape | library/rpm.extract.py:184 | removing a subtree keeps the disk well formed |
| FileSystem.MkdirKeepsShape | library/rpm.extract.py:188 | creating an entry where `os.mkdir` may create one keeps the disk well formed |
| FileSystem.PlaceKeepsShape | library/rpm.extract.py:189-195 | writing a tree below an empty directory keeps the disk well formed |
| FileSystem.TargetsBelow | library/rpm.extract.py:222-226 | the walk only visits existing entries at or below `result_dir` |
| FileSystem.WalkCoversTree | library/rpm.extract.py:222-226 | in a well-formed tree the walk chowns an entry below the root exactly when it is not a link to a directory |
| FileSystem.ChownAllKeepsShape | library/rpm.extract.py:223-226 | chowning keeps the disk well formed |
| FileSystem.Disk.ChownWalk | library/rpm.extract.py:219-228 | the walk succeeds exactly when no visited path is refused; it then chowns every visited path with the ids, where -1 leaves an id unchanged; otherwise it leaves each entry either untouched or chowned, a refused entry is never chowned, and only visited paths are chowned |
| FileSystem.Disk.ChownFiles | library/rpm.extract.py:225-226 | the inner loop chowns all files listed in one directory, or stops at a refused one; it succeeds exactly when none of them is refused, a refused file is never chowned, and only files of that directory are chowned |
| RpmExtract.Workdir | library/rpm.extract.py:156-157 | the working directory after the optional `chdir` is an absolute path of proper components |
| RpmExtract.RunModule | library/rpm.extract.py:108-231 | the report is the one `Run` gives, and the final disk is one `Run` allows; with `force`, an existing destination with an uncreatable name is only emptied, and `os.mkdir` then fails; `os.path.isdir`, `os.chdir` and `os.mkdir` fail when their lookup passes through a non-directory |
| RpmExtract.Extract | library/rpm.extract.py:188-199 | `os.mkdir` and everything after it: the report and the final disk are those of `Run` |
| RpmExtract.RunPipeline | library/rpm.extract.py:189-231 | after `os.mkdir`, the pipeline's lookup of `src` inside the new destination, the unpack and the ownership step give the report and the final disk of `Run` |
| RpmExtract.RunAfterMkdir | library/rpm.extract.py:188-231 | a run that creates the destination either fails at the pipeline with the echoed fields and the staged disk, or goes on to the ownership step on the staged disk |
| RpmExtract.ApplyOwnership | library/rpm.extract.py:201-231 | owner lookup, then group lookup, then the walk if either was given; the report and the final disk are those of the ownership step |
| Properties.CheckModeOnlyPredicts | library/rpm.extract.py:171-180 | check mode leaves the disk unchanged and reports `changed` exactly when the destination is not a directory or `force` is set |
| Properties.ExistingDestIsNoop | library/rpm.extract.py:182-186 | a real run without `force` on an existing directory reports no change and leaves the disk unchanged |
| Properties.UnchangedOnlyOnNoop | library/rpm.extract.py:182-231 | a completed real run reports no change exactly when the destination was a directory and `force` was off, and it echoes the result fields |
| Properties.CompletedRun | library/rpm.extract.py:182-231 | a completed real run is either that no-op or an extraction with a successful unpack whose ownership step completed, and the latter reports a change |
| Properties.DryRunFidelity | library/rpm.extract.py:171-231 | when the real run completes, check mode on the same request and disk gives the same report |
| Properties.StagedFrame | library/rpm.extract.py:182-195 | creating and filling the destination touches nothing outside it |
| Properties.StopsBeforeUnpack | library/rpm.extract.py:156-188 | a run that does not get to the unpack step ends with the starting disk, or with the disk after the forced removal |
| Properties.OwnershipEnds | library/rpm.extract.py:218-228 | after the ownership step, the extracted tree is partly chowned over the walked paths that were not refused |
| Properties.EndsAfterUnpack | library/rpm.extract.py:194-231 | a run that has unpacked ends with the extracted tree, partly chowned over the walked paths that were not refused |
| Properties.RunFrame | library/rpm.extract.py:108-231 | a run changes nothing outside the destination; when there is no destination path it changes nothing at all |
| Properties.CompletedRunLeavesDir | library/rpm.extract.py:182-231 | after a completed real run the destination is a directory |
| Properties.Idempotent | library/rpm.extract.py:182-186 | after a completed real run, a run without `force` on the resulting disk reports no change and leaves the disk unchanged, provided neither `chdir` nor its lookup reaches into the destination |
| Properties.ForceClearsToAbsent | library/rpm.extract.py:182-188 | after a forced removal of an existing real directory with a creatable name, the destination is absent, `chdir` (when its lookup avoids the destination) still succeeds, and the run extracts exactly when it would have on the original disk |
| Properties.ForceIsFreshExtract | library/rpm.extract.py:182-189 | for a destination that is a real directory (not a link to one), whose name is creatable (its last piece is not "." or ".."), and a `chdir` whose lookup does not reach into it, a forced run gives the same outcome as a run on the disk with that directory already removed, where the destination is absent; a completed forced run reports a change |
| Properties.ExtractionReplacesContents | library/rpm.extract.py:184-195 | no leftovers: below the destination, the extracted disk holds the destination and exactly the entries the pipeline wrote |
| Properties.ExtractionIsKept | library/rpm.extract.py:198-228 | whatever happens after the unpack, the extracted entries stay, with their kinds |
| Properties.OwnershipScoping | library/rpm.extract.py:201-228 | the owner is set only when given and the group only when given, and only on walked entries; every other id and every kind stays as extracted |
| Properties.OwnershipScoped | library/rpm.extract.py:201-228 | the same, for the ownership step on its own |
| Properties.UnpackFailureComesFirst | library/rpm.extract.py:198-199 | a failed pipeline (the archive is not readable inside the destination, or the pipeline exits non-zero) is reported with the echoed fields and the partial tree kept; the identity databases and chown permissions play no part |
| Properties.OwnerCheckedBeforeGroup | library/rpm.extract.py:206-210 | an unknown owner fails before the group lookup and before any chown, and the extracted tree stays |
| Properties.GroupCheckedBeforeWalk | library/rpm.extract.py:212-216 | an unknown group fails before any chown, and the extracted tree stays |
| Properties.DeniedWalkReportsRoot | library/rpm.extract.py:227-228 | a refused chown anywhere in the walk is reported with `result_dir` |
| Properties.ChangedExactlyWhen | library/rpm.extract.py:188-231 | a real run reports a change exactly when it extracted, the unpack succeeded, each given identity was found, and the walk (if any) was never refused |
| Properties.UncreatableDestNeverExtracts | library/rpm.extract.py:182-188 | a destination whose last piece is "." or ".." (or missing) is never extracted into, and a real run on it never reports a change; with `force`, an existing one is emptied but its entry is kept, and the run fails at `os.mkdir` |
| Properties.UpFromMissingIsAbsent | library/rpm.extract.py:161-188 | a `dest` "name/.." with `name` missing is not a directory: check mode predicts a change, and a real run fails at `os.mkdir` with the disk unchanged |
| Properties.ClearedKeepsShape | library/rpm.extract.py:182-186 | the forced removal, whole or of the contents only, keeps a well-formed disk well formed |
| Properties.ForcedLinkIsNotReplaced | library/rpm.extract.py:182-188 | on a well-formed disk, a forced run on a link to a directory, named by a `dest` that ends in the link's own name, fails at `os.mkdir` and leaves the disk unchanged |
| Properties.NonDirAtDest | library/rpm.extract.py:171-188 | a non-directory at the destination counts as absent: check mode predicts a change, and the real run fails at `os.mkdir` with the disk unchanged |
| Properties.StagedKeepsShape | library/rpm.extract.py:184-195 | creating and filling the destination keeps a well-formed disk well formed when the pipeline writes a tree |
| Properties.RunKeepsShape | library/rpm.extract.py:108-231 | every run keeps a well-formed disk well formed when the pipeline writes a tree |
| Properties.WalkCoversExtraction | library/rpm.extract.py:218-226 | below the destination, the walk over an extracted tree chowns exactly the entries that are not links to directories |
| Properties.PackageDest | library/rpm.extract.py:151-161 | `src` "/dir/stem.rpm" or "stem.rpm" with no `dest` names the folder `stem` inside the working directory |
| Properties.PackageDestName | library/rpm.extract.py:151-153 | "/dir/stem.rpm" and "stem.rpm" both default to the creatable name `stem` |
| Properties.PackageArchive | library/rpm.extract.py:189-194 | the pipeline finds the absolute archive "/dir/stem.rpm" at the entry `stem.rpm` of `dir`, looked up through `dir` only, wherever the module has changed to |
| Properties.NameDestExtracts | library/rpm.extract.py:151-188 | a real run without `chdir`, whose destination is a proper name missing from a working directory that is a directory, creates it in an otherwise unchanged disk |
| Properties.PackageExtracts | library/rpm.extract.py:151-188 | with no `stem` in the working directory (a directory), the absolute request gets to `os.mkdir`, which creates `stem` in an otherwise unchanged disk |
| Properties.PackageFirstRun | library/rpm.extract.py:182-216 | on a well-formed disk, when the archive is a file and the pipeline succeeds, that run passes the pipeline and goes on to the ownership step |
| Properties.PackageScenario | library/rpm.extract.py:151-231 | on a well-formed disk, with the archive a file and no `stem` present, the absolute request reports a change and leaves `stem` a directory; a second run reports no change |
| Properties.RelativeSrcNeverExtracts | library/rpm.extract.py:188-199 | a relative `src` without ".." pieces is looked up inside the new, empty destination: the pipeline fails, the run reports the extraction failure with the echoed fields, and the disk is the one right after `os.mkdir` |
| Properties.CreatedIsPresent | library/rpm.extract.py:182-188 | after `os.mkdir` the destination is a directory whose lookup succeeds, and `chdir` (when its lookup does not reach into the destination) still succeeds |
| Properties.DestLookupOutside | library/rpm.extract.py:182-188 | the lookup of a destination that `os.mkdir` creates passes only through entries outside it |
| Properties.ReachableOutside | library/rpm.extract.py:156-188 | a lookup that passes only through entries outside a subtree succeeds on every disk that differs only inside that subtree |
| Properties.RelativeSrcSecondRun | library/rpm.extract.py:182-199 | after that failed run, a run without `force` on the resulting disk reports no change and leaves it as it is, provided neither `chdir` nor its lookup reaches into the destination |
| Properties.BareNameNeverExtracts | library/rpm.extract.py:188-199 | the same for a `src` that is a bare file name |
| Properties.RelativePackageExtracts | library/rpm.extract.py:151-188 | with no `stem` in the working directory, the request "stem.rpm" gets to `os.mkdir`, which creates `stem` in an otherwise unchanged disk |
| Properties.RelativePackageFirstRun | library/rpm.extract.py:151-199 | the request "stem.rpm" fails at the pipeline, leaving exactly the empty folder `stem` added to the disk |
| Properties.RelativePackageLeftDir | library/rpm.extract.py:151-182 | the folder `stem` added to a working directory that is a directory is found as the destination of the request "stem.rpm" |
| Properties.RelativePackageScenario | library/rpm.extract.py:151-199 | the request "stem.rpm", written as in the module's examples, fails with the empty folder `stem` left behind; the next run reports no change and leaves the disk as it is |

## Left out

- The `rpm2cpio | cpio` pipeline is not run. Its effect is a parameter of
  the run: the entries it writes below the destination and whether it exits
  with status 0. The captured output text is not modelled.
- `cpio --no-absolute-filenames` is not modelled: entries are given relative
  to the destination. An entry naming the destination itself is not written.
- The pwd and grp lookups are maps from names to ids.
- Argument parsing, `exit_json`/`fail_json` and the message strings are not
  modelled. A report is the `changed` flag with the echoed fields, or a
  failure kind with the name or path it carries.
- `os.path.expanduser` is not modelled: paths are taken as given.
- The working directory is a parameter. The two `os.chdir` calls do not change
  process state.
- Path resolution applies ".." by dropping the last component, after the
  lookup has checked that the entry it leaves is a directory or a link to
  one. A symbolic link in the middle of a path is not followed: "link/.."
  names the link's parent, not the parent of its target.
- Empty pieces are not looked up, so a trailing '/' after a file ("p.rpm/")
  is accepted where the kernel refuses it: such a `src` counts as readable.
- `os.mkdir` refused by the operating system (EACCES, EROFS, a full disk) is
  not modelled. It fails only when the name is taken, the parent is not a
  directory, or the last piece of the name is "." or ".." (or missing).
- `os.chdir(chdir)` refused for lack of search permission is not modelled. It
  fails only when `chdir` is not a directory.
- `os.chdir(dest)` at line 189 is taken to succeed, since the directory was
  just created. Its effect is modelled: the pipeline resolves `src` inside
  the destination.
- Whether the pipeline can read the archive is modelled only by the kind of
  entry at the archive path. A link to a non-directory counts as readable,
  and the pipeline's outcome decides the rest. An empty `src` counts as
  unreadable: `rpm2cpio` would then read its standard input, which the model
  does not have.
- FileSystem.RemoveTree: removal of a real directory is total. `rmtree`
  failing part-way, with the errors swallowed, is not modelled. A link named
  with a trailing '/' or "/." is followed by `rmtree`, which then empties
  the link's target; links here carry no target, so the model leaves the
  link and everything else in place.
- FileSystem.Disk.ChownWalk: the walk takes the directories in any order, not
  necessarily top-down. Unreadable directories that `os.walk` skips are not
  modelled. Only PermissionError is modelled among chown's errors. Other
  OSErrors would propagate uncaught.
- The shell command is built by string formatting, so shell metacharacters in
  `src` would be interpreted. This is not modelled.
- Properties.Idempotent: stated for runs whose `chdir`, and every entry its
  lookup passes through, lie outside the destination. Otherwise the second
  run's `chdir` may fail, because the forced removal and re-creation change
  what it names or passes through.
- Properties.ForceIsFreshExtract, Properties.RelativeSrcSecondRun and
  Properties.CreatedIsPresent carry the same `chdir` proviso, for the same
  reason.
- Properties.UncreatableDestNeverExtracts: promises that the destination's
  entry is kept as it was, not that `os.path.isdir` still finds it. The
  lookup of "a/b/../.." passes through `a/b`, which the forced removal
  deletes.
