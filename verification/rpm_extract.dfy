/** `run_module` of the rpm.extract Ansible module: decide whether the RPM
    must be extracted, carry that out on the disk, set ownership, and report.

    `Run` is the specification: a function from the request, the environment
    and the starting disk to the report and the final disk. `RunModule` is
    the step-by-step procedure, proved to follow `Run`. */
module RpmExtract {
  import opened Wrappers
  import opened Names
  import opened Paths
  import opened FileSystem

  /** The module parameters, and Ansible's check-mode flag. */
  datatype Request = Request(
    src: string,
    dest: Option<string>,
    chdir: Option<string>,
    owner: Option<string>,
    group: Option<string>,
    force: bool,
    checkMode: bool)

  /** The outcome of the `rpm2cpio src | cpio ...` pipeline once it has
      opened the archive: the entries it writes below the destination (paths
      relative to it), and whether it exited with status 0. A failed
      pipeline may have written some entries. */
  datatype Unpack = Unpacked(tree: FS) | UnpackFailed(partial: FS)

  /** The entries the pipeline writes, whether or not it succeeds. */
  function Entries(u: Unpack): FS
  {
    match u
    case Unpacked(tree) => tree
    case UnpackFailed(partial) => partial
  }

  /** Everything the module consults besides the disk. */
  datatype Env = Env(
    cwd: Path,                  // the process working directory at start
    procUid: nat,               // owner given to a directory the module creates
    procGid: nat,               // group given to a directory the module creates
    users: map<string, nat>,    // the password database: user name to uid
    groups: map<string, nat>,   // the group database: group name to gid
    unpack: Unpack,             // what the pipeline does with a readable archive
    denied: set<Path>)          // paths whose chown raises PermissionError

  /** The fields echoed back in the result. */
  datatype Fields = Fields(
    src: string,
    dest: string,
    chdir: Option<string>,
    owner: Option<string>,
    group: Option<string>,
    force: bool)

  /** Why a run fails. The last two are uncaught exceptions of `os.chdir`
      and `os.mkdir`, which the module does not handle itself. */
  datatype Failure =
    | ExtractFailed(src: string)
    | OwnerNotFound(owner: string)
    | GroupNotFound(group: string)
    | ChownDenied(path: Path)
    | ChdirFailed(dir: Path)
    | MkdirFailed(dest: string)

  /** `exit_json(changed=...)`, or a failure with the echoed fields when the
      failure report carries them. */
  datatype Report =
    | Exit(changed: bool, fields: Fields)
    | Fail(failure: Failure, echoed: Option<Fields>)

  /** The report and the disk a run ends with. After a ChownDenied failure
      `disk` is the disk the walk started from (see `Reaches`). */
  datatype Outcome = Outcome(report: Report, disk: FS)

  /** The destination folder name: `dest` when given and non-empty, else
      derived from `src`. */
  function DestName(req: Request): string
  {
    if Truthy(req.dest) then req.dest.value else DefaultDest(req.src)
  }

  /** The `result` fields: `dest` after derivation, `chdir` only when non-empty. */
  function Echo(req: Request): Fields
  {
    Fields(req.src, DestName(req), if Truthy(req.chdir) then req.chdir else None,
           req.owner, req.group, req.force)
  }

  /** The working directory once `chdir` has been applied. */
  function Workdir(req: Request, cwd: Path): (w: Path)
    requires ProperPath(cwd)
    ensures ProperPath(w)
  {
    if Truthy(req.chdir) then Resolve(cwd, req.chdir.value) else cwd
  }

  /** `result_dir`: the destination as an absolute path; none for an empty name. */
  function Dest(req: Request, cwd: Path): Option<Path>
    requires ProperPath(cwd)
  {
    Locate(Workdir(req, cwd), DestName(req))
  }

  /** `os.chdir(chdir)` raises: `chdir` is given and its lookup fails or
      ends at something that is not a directory. */
  predicate ChdirFails(req: Request, env: Env, fs: FS)
    requires ProperPath(env.cwd)
  {
    Truthy(req.chdir) &&
    !(Reachable(fs, env.cwd, req.chdir.value) && IsDir(fs, Some(Workdir(req, env.cwd))))
  }

  /** The destination exists as a directory (`os.path.isdir(dest)`). */
  predicate Present(req: Request, env: Env, fs: FS)
    requires ProperPath(env.cwd)
  {
    Reachable(fs, Workdir(req, env.cwd), DestName(req)) && IsDir(fs, Dest(req, env.cwd))
  }

  /** The disk after the forced removal, if there is one. A `dest` that is
      not creatable ("." or "x/..") names a directory `rmtree` can empty but
      not remove. */
  function Cleared(req: Request, env: Env, fs: FS): FS
    requires ProperPath(env.cwd)
  {
    if !(Present(req, env, fs) && req.force) then fs
    else if Creatable(DestName(req)) then RemoveTree(fs, Dest(req, env.cwd).value)
    else RemoveBelow(fs, Dest(req, env.cwd).value)
  }

  /** A real run gets as far as creating the destination and unpacking into it. */
  predicate Extracts(req: Request, env: Env, fs: FS)
    requires ProperPath(env.cwd)
  {
    && !ChdirFails(req, env, fs)
    && !req.checkMode
    && (!Present(req, env, fs) || req.force)
    && Dest(req, env.cwd).Some?
    && Creatable(DestName(req))
    && Reachable(Cleared(req, env, fs), Workdir(req, env.cwd), DestName(req))
    && CanMkdir(Cleared(req, env, fs), Dest(req, env.cwd).value)
  }

  /** The disk once `os.mkdir(dest)` has created the destination. */
  function Created(req: Request, env: Env, fs: FS): FS
    requires ProperPath(env.cwd)
    requires Extracts(req, env, fs)
  {
    Cleared(req, env, fs)[Dest(req, env.cwd).value := Node(Dir, env.procUid, env.procGid)]
  }

  /** The archive the pipeline opens. The module has changed into the
      destination (`os.chdir(dest)`) before it runs the pipeline, so `src`
      is resolved against the destination, not against the directory the
      run started in. */
  function Archive(req: Request, root: Path): Option<Path>
    requires ProperPath(root)
  {
    Locate(root, req.src)
  }

  /** What the pipeline does: when the archive cannot be opened, `rpm2cpio`
      writes nothing and `cpio`, whose status is the pipeline's, fails on
      the empty stream; otherwise the outcome is the environment's. */
  function Pipeline(req: Request, env: Env, fs: FS): Unpack
    requires ProperPath(env.cwd)
    requires Extracts(req, env, fs)
  {
    var root := Dest(req, env.cwd).value;
    if Reachable(Created(req, env, fs), root, req.src) && Readable(Created(req, env, fs), Archive(req, root))
    then env.unpack
    else UnpackFailed(map[])
  }

  /** The disk once the destination has been created and the pipeline has run. */
  function Staged(req: Request, env: Env, fs: FS): FS
    requires ProperPath(env.cwd)
    requires Extracts(req, env, fs)
  {
    Place(Created(req, env, fs), Dest(req, env.cwd).value, Entries(Pipeline(req, env, fs)))
  }

  /** The uid handed to chown: -1 unless an owner is given (and known). */
  function Uid(req: Request, env: Env): int
  {
    if Truthy(req.owner) && req.owner.value in env.users then env.users[req.owner.value] else -1
  }

  /** The gid handed to chown: -1 unless a group is given (and known). */
  function Gid(req: Request, env: Env): int
  {
    if Truthy(req.group) && req.group.value in env.groups then env.groups[req.group.value] else -1
  }

  /** The identity lookups and the ownership walk over the extracted tree. */
  function SetOwnership(req: Request, env: Env, root: Path, staged: FS): Outcome
  {
    if Truthy(req.owner) && req.owner.value !in env.users then
      Outcome(Fail(OwnerNotFound(req.owner.value), None), staged)
    else if Truthy(req.group) && req.group.value !in env.groups then
      Outcome(Fail(GroupNotFound(req.group.value), None), staged)
    else if !Truthy(req.owner) && !Truthy(req.group) then
      Outcome(Exit(true, Echo(req)), staged)
    else if Targets(staged, root) !! env.denied then
      Outcome(Exit(true, Echo(req)), ChownAll(staged, Targets(staged, root), Uid(req, env), Gid(req, env)))
    else
      Outcome(Fail(ChownDenied(root), None), staged)
  }

  /** One run of the module, as a function of its inputs. */
  function Run(req: Request, env: Env, fs: FS): Outcome
    requires ProperPath(env.cwd)
  {
    if ChdirFails(req, env, fs) then
      Outcome(Fail(ChdirFailed(Workdir(req, env.cwd)), None), fs)
    else if req.checkMode then
      Outcome(Exit(!Present(req, env, fs) || req.force, Echo(req)), fs)
    else if Present(req, env, fs) && !req.force then
      Outcome(Exit(false, Echo(req)), fs)
    else if !Extracts(req, env, fs) then
      Outcome(Fail(MkdirFailed(DestName(req)), None), Cleared(req, env, fs))
    else if Pipeline(req, env, fs).UnpackFailed? then
      Outcome(Fail(ExtractFailed(req.src), Some(Echo(req))), Staged(req, env, fs))
    else
      SetOwnership(req, env, Dest(req, env.cwd).value, Staged(req, env, fs))
  }

  /** `after` is a disk that a run with outcome `o` can end with: the
      outcome's disk, or, when the walk was denied part-way, that disk partly
      chowned with the ids `uid` and `gid`, refused paths left as they were. */
  predicate Ends(o: Outcome, after: FS, uid: int, gid: int, denied: set<Path>)
  {
    if o.report.Fail? && o.report.failure.ChownDenied? then
      PartlyChowned(o.disk, after, Targets(o.disk, o.report.failure.path) - denied, uid, gid)
    else
      after == o.disk
  }

  /** `after` is a disk that a run from `fs` can end with. */
  predicate Reaches(req: Request, env: Env, fs: FS, after: FS)
    requires ProperPath(env.cwd)
  {
    Ends(Run(req, env, fs), after, Uid(req, env), Gid(req, env), env.denied)
  }

  /** The module's procedure, step by step, on the disk it changes in place.
      The working directory is a local variable rather than process state. */
  method RunModule(disk: Disk, req: Request, env: Env) returns (report: Report)
    requires ProperPath(env.cwd)
    modifies disk
    ensures report == Run(req, env, old(disk.nodes)).report
    ensures Reaches(req, env, old(disk.nodes), disk.nodes)
  {
    ghost var fs := disk.nodes;
    var result := Echo(req);

    var cwd := env.cwd;
    if Truthy(req.chdir) {
      var dir := Resolve(cwd, req.chdir.value);
      if !Reachable(disk.nodes, cwd, req.chdir.value) || !IsDir(disk.nodes, Some(dir)) {
        assert Run(req, env, fs) == Outcome(Fail(ChdirFailed(dir), None), fs);
        return Fail(ChdirFailed(dir), None);
      }
      cwd := dir;
    }
    assert !ChdirFails(req, env, fs) && cwd == Workdir(req, env.cwd);
    var target := Locate(cwd, result.dest);
    assert target == Dest(req, env.cwd);

    var isDir := Reachable(disk.nodes, cwd, result.dest) && IsDir(disk.nodes, target);
    if req.checkMode {
      assert Run(req, env, fs) == Outcome(Exit(!isDir || req.force, result), fs);
      return Exit(!isDir || req.force, result);
    }

    if isDir {
      if req.force && Creatable(result.dest) {
        disk.nodes := RemoveTree(disk.nodes, target.value);
      } else if req.force {
        disk.nodes := RemoveBelow(disk.nodes, target.value);
      } else {
        assert Run(req, env, fs) == Outcome(Exit(false, result), fs);
        return Exit(false, result);
      }
    }
    assert disk.nodes == Cleared(req, env, fs);

    if target.None? || !Creatable(result.dest) || !Reachable(disk.nodes, cwd, result.dest)
       || !CanMkdir(disk.nodes, target.value) {
      assert !Extracts(req, env, fs);
      assert Run(req, env, fs) == Outcome(Fail(MkdirFailed(result.dest), None), disk.nodes);
      return Fail(MkdirFailed(result.dest), None);
    }
    report := Extract(disk, req, env, target.value, fs);
  }

  /** From `os.mkdir(dest)` on: create the destination, change into it, run
      the pipeline there, and hand over to the ownership pass. `fs` is the disk the run started from. */
  method Extract(disk: Disk, req: Request, env: Env, root: Path, ghost fs: FS) returns (report: Report)
    requires ProperPath(env.cwd) && Extracts(req, env, fs)
    requires root == Dest(req, env.cwd).value && disk.nodes == Cleared(req, env, fs)
    modifies disk
    ensures report == Run(req, env, fs).report
    ensures Reaches(req, env, fs, disk.nodes)
  {
    disk.nodes := disk.nodes[root := Node(Dir, env.procUid, env.procGid)];
    report := RunPipeline(disk, req, env, root, fs);
  }

  /** Lines 189-199 of the module: inside the new destination, run the
      pipeline on `src`, then hand over to the ownership pass. */
  method RunPipeline(disk: Disk, req: Request, env: Env, root: Path, ghost fs: FS) returns (report: Report)
    requires ProperPath(env.cwd) && Extracts(req, env, fs)
    requires root == Dest(req, env.cwd).value && disk.nodes == Created(req, env, fs)
    modifies disk
    ensures report == Run(req, env, fs).report
    ensures Reaches(req, env, fs, disk.nodes)
  {
    RunAfterMkdir(req, env, fs);
    var result := Echo(req);
    var archive := Locate(root, req.src);
    if !Reachable(disk.nodes, root, req.src) || !Readable(disk.nodes, archive) {
      PlaceNothing(disk.nodes, root);
      return Fail(ExtractFailed(req.src), Some(result));
    }
    match env.unpack {
      case UnpackFailed(partial) =>
        disk.nodes := Place(disk.nodes, root, partial);
        return Fail(ExtractFailed(req.src), Some(result));
      case Unpacked(tree) =>
        disk.nodes := Place(disk.nodes, root, tree);
    }
    report := ApplyOwnership(disk, req, env, root);
  }

  /** A run that gets to `os.mkdir` ends with the pipeline's failure or with
      the ownership step on the filled destination. */
  lemma RunAfterMkdir(req: Request, env: Env, fs: FS)
    requires ProperPath(env.cwd) && Extracts(req, env, fs)
    ensures Pipeline(req, env, fs).UnpackFailed? ==>
              Run(req, env, fs) == Outcome(Fail(ExtractFailed(req.src), Some(Echo(req))), Staged(req, env, fs))
    ensures Pipeline(req, env, fs).Unpacked? ==>
              Run(req, env, fs) == SetOwnership(req, env, Dest(req, env.cwd).value, Staged(req, env, fs))
  {
  }

  /** Lines 201-231 of the module: look up the owner, then the group, then
      walk the extracted tree if either was given. */
  method ApplyOwnership(disk: Disk, req: Request, env: Env, root: Path) returns (report: Report)
    modifies disk
    ensures report == SetOwnership(req, env, root, old(disk.nodes)).report
    ensures Ends(SetOwnership(req, env, root, old(disk.nodes)), disk.nodes, Uid(req, env), Gid(req, env), env.denied)
  {
    var uid: int, gid: int := -1, -1;
    if Truthy(req.owner) {
      if req.owner.value !in env.users {
        return Fail(OwnerNotFound(req.owner.value), None);
      }
      uid := env.users[req.owner.value];
    }
    if Truthy(req.group) {
      if req.group.value !in env.groups {
        return Fail(GroupNotFound(req.group.value), None);
      }
      gid := env.groups[req.group.value];
    }

    if Truthy(req.owner) || Truthy(req.group) {
      var ok := disk.ChownWalk(root, uid, gid, env.denied);
      if !ok {
        return Fail(ChownDenied(root), None);
      }
    }

    return Exit(true, Echo(req));
  }
}
