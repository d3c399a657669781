/** What a run of the module promises: the check-mode prediction, the no-op
    on an existing destination, idempotence, forced re-extraction, the
    ownership pass, and the order in which failures are reported. */
module Properties {
  import opened Wrappers
  import opened Names
  import opened Paths
  import opened FileSystem
  import opened RpmExtract

  /** Check mode changes nothing on disk and predicts `changed` as "the
      destination is not a directory, or force is set". */
  lemma CheckModeOnlyPredicts(req: Request, env: Env, fs: FS)
    requires ProperPath(env.cwd) && req.checkMode
    ensures Run(req, env, fs).disk == fs
    ensures !ChdirFails(req, env, fs) ==>
              Run(req, env, fs).report == Exit(!Present(req, env, fs) || req.force, Echo(req))
  {
  }

  /** A real run on an existing destination without force reports no change
      and leaves the disk as it was. */
  lemma ExistingDestIsNoop(req: Request, env: Env, fs: FS)
    requires ProperPath(env.cwd) && !req.checkMode && !req.force
    requires !ChdirFails(req, env, fs) && Present(req, env, fs)
    ensures Run(req, env, fs) == Outcome(Exit(false, Echo(req)), fs)
  {
  }

  /** `changed` is false exactly on that no-op; every other completed real
      run reports a change. */
  lemma UnchangedOnlyOnNoop(req: Request, env: Env, fs: FS)
    requires ProperPath(env.cwd) && !req.checkMode
    requires Run(req, env, fs).report.Exit?
    ensures !Run(req, env, fs).report.changed <==> Present(req, env, fs) && !req.force
    ensures Run(req, env, fs).report.fields == Echo(req)
  {
    CompletedRun(req, env, fs);
  }

  /** The two ways a real run completes: the no-op, or an extraction whose
      ownership pass succeeded. */
  lemma CompletedRun(req: Request, env: Env, fs: FS)
    requires ProperPath(env.cwd) && !req.checkMode
    requires Run(req, env, fs).report.Exit?
    ensures !ChdirFails(req, env, fs)
    ensures Present(req, env, fs) && !req.force ==> Run(req, env, fs) == Outcome(Exit(false, Echo(req)), fs)
    ensures !(Present(req, env, fs) && !req.force) ==>
              && Extracts(req, env, fs) && Pipeline(req, env, fs).Unpacked?
              && Run(req, env, fs) == SetOwnership(req, env, Dest(req, env.cwd).value, Staged(req, env, fs))
              && Run(req, env, fs).report == Exit(true, Echo(req))
  {
    assert !ChdirFails(req, env, fs);
    if !(Present(req, env, fs) && !req.force) {
      assert Extracts(req, env, fs);
      assert Pipeline(req, env, fs).Unpacked?;
      var o := SetOwnership(req, env, Dest(req, env.cwd).value, Staged(req, env, fs));
      assert Run(req, env, fs) == o;
    }
  }

  /** Dry-run fidelity: when the real run completes, check mode on the same
      request and disk reports exactly what the real run reports. */
  lemma DryRunFidelity(req: Request, env: Env, fs: FS)
    requires ProperPath(env.cwd)
    requires Run(req.(checkMode := false), env, fs).report.Exit?
    ensures Run(req.(checkMode := true), env, fs).report == Run(req.(checkMode := false), env, fs).report
  {
    var dry, live := req.(checkMode := true), req.(checkMode := false);
    assert Echo(dry) == Echo(live) == Echo(req);
    assert Dest(dry, env.cwd) == Dest(live, env.cwd);
    assert Present(dry, env, fs) == Present(live, env, fs);
    assert !ChdirFails(live, env, fs);
    assert ChdirFails(dry, env, fs) == ChdirFails(live, env, fs);
    UnchangedOnlyOnNoop(live, env, fs);
    CheckModeOnlyPredicts(dry, env, fs);
  }

  /** `after` agrees with `fs` everywhere outside `root`. */
  ghost predicate SameOutside(fs: FS, after: FS, root: Path)
  {
    forall p :: !(root <= p) ==> (p in after <==> p in fs) && (p in fs ==> after[p] == fs[p])
  }

  /** The lookup of `chdir` neither ends at nor passes through the
      destination or anything below it, so removing and re-creating the
      destination leaves that lookup as it was. */
  predicate ChdirAvoids(req: Request, env: Env)
    requires ProperPath(env.cwd)
  {
    Truthy(req.chdir) && Dest(req, env.cwd).Some? ==>
      && !(Dest(req, env.cwd).value <= Workdir(req, env.cwd))
      && forall p | p in TraversedBy(env.cwd, req.chdir.value) :: !(Dest(req, env.cwd).value <= p)
  }

  /** The lookup of a destination that `os.mkdir` creates passes only
      through entries outside it: a lookup that went below the new entry
      would have had to pass through it, and it did not exist yet. */
  lemma DestLookupOutside(req: Request, env: Env, fs: FS)
    requires ProperPath(env.cwd) && Extracts(req, env, fs)
    ensures forall p | p in TraversedBy(Workdir(req, env.cwd), DestName(req)) :: !(Dest(req, env.cwd).value <= p)
  {
    var w, s := Workdir(req, env.cwd), DestName(req);
    var root := Dest(req, env.cwd).value;
    var traversed := TraversedBy(w, s);
    assert root !in traversed by {
      assert Reachable(Cleared(req, env, fs), w, s) && root !in Cleared(req, env, fs);
    }
    assert forall p | p in traversed && root < p :: root in traversed by {
      PassesEndFromBelow(Start(w, s), Split(s));
    }
    forall p | p in traversed ensures !(root <= p) {
      assert p != root;
      assert !(root < p);
    }
  }

  /** A lookup that passes only through entries outside `root` fares the
      same on a disk that differs from the first only at and below `root`. */
  lemma ReachableOutside(fs: FS, after: FS, root: Path, cwd: Path, s: string)
    requires ProperPath(cwd) && Reachable(fs, cwd, s) && SameOutside(fs, after, root)
    requires forall p | p in TraversedBy(cwd, s) :: !(root <= p)
    ensures Reachable(after, cwd, s)
  {
    forall p | p in TraversedBy(cwd, s) ensures IsDir(after, Some(p)) {
      assert IsDir(fs, Some(p)) && !(root <= p);
      assert p in after && after[p] == fs[p];
    }
  }

  /** Creating and filling the destination touches nothing outside it. */
  lemma StagedFrame(req: Request, env: Env, fs: FS)
    requires ProperPath(env.cwd) && Extracts(req, env, fs)
    ensures SameOutside(fs, Staged(req, env, fs), Dest(req, env.cwd).value)
  {
    var root := Dest(req, env.cwd).value;
    var staged := Staged(req, env, fs);
    forall p | !(root <= p)
      ensures (p in staged <==> p in fs) && (p in fs ==> staged[p] == fs[p])
    {
      assert !(root < p);
    }
  }

  /** The disk a real run ends with when it stops before the unpack step:
      the starting disk, or the disk after the forced removal. */
  lemma StopsBeforeUnpack(req: Request, env: Env, fs: FS, after: FS)
    requires ProperPath(env.cwd) && !Extracts(req, env, fs) && Reaches(req, env, fs, after)
    ensures after == fs || after == Cleared(req, env, fs)
  {
  }

  /** The ownership pass leaves the staged disk partly chowned over the
      walk, with every refused path as it was. */
  lemma OwnershipEnds(req: Request, env: Env, root: Path, staged: FS, after: FS)
    requires Ends(SetOwnership(req, env, root, staged), after, Uid(req, env), Gid(req, env), env.denied)
    ensures PartlyChowned(staged, after, Targets(staged, root) - env.denied, Uid(req, env), Gid(req, env))
  {
    var o := SetOwnership(req, env, root, staged);
    var targets := Targets(staged, root);
    if o.disk != staged {
      assert targets !! env.denied;
      assert targets - env.denied == targets;
      ChownedAll(staged, after, targets, Uid(req, env), Gid(req, env));
    }
  }

  /** The disk a run ends with once it has unpacked: the staged disk, or the
      staged disk after (part of) the ownership walk, refused paths left as
      they were. */
  lemma EndsAfterUnpack(req: Request, env: Env, fs: FS, after: FS)
    requires ProperPath(env.cwd) && Extracts(req, env, fs) && Reaches(req, env, fs, after)
    ensures var staged := Staged(req, env, fs);
            var targets := Targets(staged, Dest(req, env.cwd).value);
            PartlyChowned(staged, after, targets - env.denied, Uid(req, env), Gid(req, env))
  {
    var root := Dest(req, env.cwd).value;
    var staged := Staged(req, env, fs);
    if Pipeline(req, env, fs).UnpackFailed? {
      assert Run(req, env, fs) == Outcome(Fail(ExtractFailed(req.src), Some(Echo(req))), staged);
    } else {
      assert Run(req, env, fs) == SetOwnership(req, env, root, staged);
      OwnershipEnds(req, env, root, staged, after);
    }
  }

  /** A run touches nothing outside the destination; with no destination
      path it touches nothing at all. */
  lemma RunFrame(req: Request, env: Env, fs: FS, after: FS)
    requires ProperPath(env.cwd) && Reaches(req, env, fs, after)
    ensures Dest(req, env.cwd).None? ==> after == fs
    ensures Dest(req, env.cwd).Some? ==> SameOutside(fs, after, Dest(req, env.cwd).value)
  {
    if !Extracts(req, env, fs) {
      StopsBeforeUnpack(req, env, fs, after);
    } else {
      var root := Dest(req, env.cwd).value;
      var staged := Staged(req, env, fs);
      StagedFrame(req, env, fs);
      TargetsBelow(staged, root);
      EndsAfterUnpack(req, env, fs, after);
    }
  }

  /** After a completed real run the destination is a directory. */
  lemma CompletedRunLeavesDir(req: Request, env: Env, fs: FS)
    requires ProperPath(env.cwd) && !req.checkMode
    requires Run(req, env, fs).report.Exit?
    ensures Present(req, env, Run(req, env, fs).disk)
  {
    CompletedRun(req, env, fs);
    if !(Present(req, env, fs) && !req.force) {
      var root := Dest(req, env.cwd).value;
      var staged := Staged(req, env, fs);
      assert !(root < root);
      assert root in staged && staged[root].kind == Dir;
      OwnershipScoped(req, env, root, staged);
      var w, disk := Workdir(req, env.cwd), Run(req, env, fs).disk;
      DestLookupOutside(req, env, fs);
      RunFrame(req, env, fs, disk);
      assert Reachable(fs, w, DestName(req)) by {
        var cleared := Cleared(req, env, fs);
        forall p | p in TraversedBy(w, DestName(req)) ensures IsDir(fs, Some(p)) {
          assert IsDir(cleared, Some(p)) && cleared[p] == fs[p];
        }
      }
      ReachableOutside(fs, disk, root, w, DestName(req));
    }
  }

  /** Idempotence: once a real run has completed, a run without force on the
      disk it left reports no change and changes nothing (provided the
      lookup of `chdir` does not reach into the destination). */
  lemma Idempotent(req: Request, env: Env, fs: FS)
    requires ProperPath(env.cwd) && !req.checkMode
    requires Run(req, env, fs).report.Exit?
    requires ChdirAvoids(req, env)
    ensures var disk := Run(req, env, fs).disk;
            Run(req.(force := false), env, disk) == Outcome(Exit(false, Echo(req.(force := false))), disk)
  {
    var disk := Run(req, env, fs).disk;
    var again := req.(force := false);
    CompletedRunLeavesDir(req, env, fs);
    RunFrame(req, env, fs, disk);
    assert Dest(again, env.cwd) == Dest(req, env.cwd);
    assert Workdir(again, env.cwd) == Workdir(req, env.cwd);
    if Truthy(req.chdir) && Dest(req, env.cwd).Some? {
      ReachableOutside(fs, disk, Dest(req, env.cwd).value, env.cwd, req.chdir.value);
    }
    assert !ChdirFails(again, env, disk);
  }

  /** The disk a forced run clears to: the chdir lookup still succeeds, the
      destination is absent, and the run would extract on it exactly when it
      extracts on the original disk. */
  lemma ForceClearsToAbsent(req: Request, env: Env, fs: FS)
    requires ProperPath(env.cwd) && req.force && !ChdirFails(req, env, fs)
    requires Present(req, env, fs) && fs[Dest(req, env.cwd).value].kind == Dir
    requires ChdirAvoids(req, env)
    requires Creatable(DestName(req))
    ensures var cleanDisk := RemoveTree(fs, Dest(req, env.cwd).value);
            && !ChdirFails(req, env, cleanDisk)
            && !Present(req, env, cleanDisk)
            && Cleared(req, env, fs) == cleanDisk == Cleared(req, env, cleanDisk)
            && (Extracts(req, env, fs) <==> Extracts(req, env, cleanDisk))
  {
    var root := Dest(req, env.cwd).value;
    var cleanDisk := RemoveTree(fs, root);
    assert SameOutside(fs, cleanDisk, root) && root !in cleanDisk;
    assert !ChdirFails(req, env, cleanDisk) by {
      if Truthy(req.chdir) {
        var w := Workdir(req, env.cwd);
        ReachableOutside(fs, cleanDisk, root, env.cwd, req.chdir.value);
        assert w in cleanDisk && cleanDisk[w] == fs[w];
      }
    }
    assert !Present(req, env, cleanDisk);
    assert Cleared(req, env, fs) == cleanDisk;
    assert Cleared(req, env, cleanDisk) == cleanDisk;
  }

  /** Force on an existing directory is a fresh extraction: the run is the
      same as on the disk with the old tree already removed, where the
      destination is absent. */
  lemma ForceIsFreshExtract(req: Request, env: Env, fs: FS)
    requires ProperPath(env.cwd) && !req.checkMode && req.force && !ChdirFails(req, env, fs)
    requires Present(req, env, fs) && fs[Dest(req, env.cwd).value].kind == Dir
    requires ChdirAvoids(req, env)
    requires Creatable(DestName(req))
    ensures !Present(req, env, RemoveTree(fs, Dest(req, env.cwd).value))
    ensures Run(req, env, fs) == Run(req, env, RemoveTree(fs, Dest(req, env.cwd).value))
    ensures Run(req, env, fs).report.Exit? ==> Run(req, env, fs).report.changed
  {
    var cleanDisk := RemoveTree(fs, Dest(req, env.cwd).value);
    ForceClearsToAbsent(req, env, fs);
    if Extracts(req, env, fs) {
      assert Created(req, env, fs) == Created(req, env, cleanDisk);
      RunAfterMkdir(req, env, fs);
      RunAfterMkdir(req, env, cleanDisk);
    } else {
      assert Run(req, env, fs) == Outcome(Fail(MkdirFailed(DestName(req)), None), cleanDisk);
      assert Run(req, env, cleanDisk) == Outcome(Fail(MkdirFailed(DestName(req)), None), cleanDisk);
    }
  }

  /** A `dest` ending in "." or ".." (or made only of '/') never extracts.
      A forced run on it empties the directory it names, cannot remove that
      directory, and fails at `os.mkdir`, leaving the emptied directory. */
  lemma UncreatableDestNeverExtracts(req: Request, env: Env, fs: FS)
    requires ProperPath(env.cwd) && !req.checkMode && !Creatable(DestName(req))
    ensures !Extracts(req, env, fs)
    ensures Run(req, env, fs).report.Exit? ==> !Run(req, env, fs).report.changed
    ensures req.force && !ChdirFails(req, env, fs) && Present(req, env, fs) ==>
              var root := Dest(req, env.cwd).value;
              && Run(req, env, fs) == Outcome(Fail(MkdirFailed(DestName(req)), None), RemoveBelow(fs, root))
              && root in Run(req, env, fs).disk && Run(req, env, fs).disk[root] == fs[root]
              && forall p :: p in Run(req, env, fs).disk ==> !(root < p)
  {
  }

  /** No leftovers: below the destination, the extracted disk holds the
      destination itself and exactly the entries the pipeline wrote. */
  lemma ExtractionReplacesContents(req: Request, env: Env, fs: FS)
    requires ProperPath(env.cwd) && WellFormed(fs) && Extracts(req, env, fs)
    ensures var root := Dest(req, env.cwd).value;
            forall p :: root <= p ==>
              (p in Staged(req, env, fs) <==> p == root || p[|root|..] in Entries(Pipeline(req, env, fs)))
  {
    var root := Dest(req, env.cwd).value;
    var cleared := Cleared(req, env, fs);
    if !Present(req, env, fs) {
      NothingBelowAbsent(fs, root);
    }
    assert forall p :: p in cleared ==> !(root <= p);
  }

  /** The extracted tree stays on disk whatever happens after the pipeline
      has run: every later failure and every completed run keeps its entries
      and their kinds. */
  lemma ExtractionIsKept(req: Request, env: Env, fs: FS, after: FS)
    requires ProperPath(env.cwd) && Extracts(req, env, fs) && Reaches(req, env, fs, after)
    ensures after.Keys == Staged(req, env, fs).Keys
    ensures forall p :: p in after ==> after[p].kind == Staged(req, env, fs)[p].kind
  {
    EndsAfterUnpack(req, env, fs, after);
  }

  /** Ownership scoping: the walk sets the owner only when one is given and
      the group only when one is given, on the walked entries only; every
      other id stays as the extraction left it. */
  lemma OwnershipScoping(req: Request, env: Env, fs: FS)
    requires ProperPath(env.cwd) && Extracts(req, env, fs) && Pipeline(req, env, fs).Unpacked?
    requires Run(req, env, fs).report.Exit?
    ensures var staged, disk := Staged(req, env, fs), Run(req, env, fs).disk;
            var targets := Targets(staged, Dest(req, env.cwd).value);
            && disk.Keys == staged.Keys
            && (forall p :: p in staged && p !in targets ==> disk[p] == staged[p])
            && (forall p :: p in staged ==> disk[p].kind == staged[p].kind)
            && (forall p :: p in staged && !Truthy(req.owner) ==> disk[p].uid == staged[p].uid)
            && (forall p :: p in staged && !Truthy(req.group) ==> disk[p].gid == staged[p].gid)
            && targets <= staged.Keys
            && (forall p :: p in targets && p in staged && Truthy(req.owner) ==> disk[p].uid == env.users[req.owner.value])
            && (forall p :: p in targets && p in staged && Truthy(req.group) ==> disk[p].gid == env.groups[req.group.value])
  {
    var root := Dest(req, env.cwd).value;
    TargetsBelow(Staged(req, env, fs), root);
    assert Run(req, env, fs) == SetOwnership(req, env, root, Staged(req, env, fs));
    OwnershipScoped(req, env, root, Staged(req, env, fs));
  }

  /** `OwnershipScoping` for the ownership pass alone. */
  lemma OwnershipScoped(req: Request, env: Env, root: Path, staged: FS)
    requires SetOwnership(req, env, root, staged).report.Exit?
    ensures var disk := SetOwnership(req, env, root, staged).disk;
            var targets := Targets(staged, root);
            && disk.Keys == staged.Keys
            && (forall p :: p in staged && p !in targets ==> disk[p] == staged[p])
            && (forall p :: p in staged ==> disk[p].kind == staged[p].kind)
            && (forall p :: p in staged && !Truthy(req.owner) ==> disk[p].uid == staged[p].uid)
            && (forall p :: p in staged && !Truthy(req.group) ==> disk[p].gid == staged[p].gid)
            && (forall p :: p in targets && p in staged && Truthy(req.owner) ==> disk[p].uid == env.users[req.owner.value])
            && (forall p :: p in targets && p in staged && Truthy(req.group) ==> disk[p].gid == env.groups[req.group.value])
  {
  }

  /** Failure ordering, first step: when the pipeline fails the run stops
      there with the echoed fields and the partial tree kept, so the
      identity databases and chown permissions play no part. */
  lemma UnpackFailureComesFirst(req: Request, env: Env, fs: FS,
                                users: map<string, nat>, groups: map<string, nat>, denied: set<Path>)
    requires ProperPath(env.cwd) && Extracts(req, env, fs) && Pipeline(req, env, fs).UnpackFailed?
    ensures Run(req, env, fs) == Outcome(Fail(ExtractFailed(req.src), Some(Echo(req))), Staged(req, env, fs))
    ensures Run(req, env.(users := users, groups := groups, denied := denied), fs) == Run(req, env, fs)
  {
    var env' := env.(users := users, groups := groups, denied := denied);
    assert ChdirFails(req, env, fs) == ChdirFails(req, env', fs);
    assert Present(req, env, fs) == Present(req, env', fs);
    assert Cleared(req, env, fs) == Cleared(req, env', fs);
    assert Extracts(req, env', fs);
    assert Created(req, env, fs) == Created(req, env', fs);
    assert Pipeline(req, env, fs) == Pipeline(req, env', fs);
    assert Staged(req, env, fs) == Staged(req, env', fs);
  }

  /** An unknown owner is reported before the group is looked up and before
      any chown; the extracted tree stays. */
  lemma OwnerCheckedBeforeGroup(req: Request, env: Env, fs: FS, groups: map<string, nat>, denied: set<Path>)
    requires ProperPath(env.cwd) && Extracts(req, env, fs) && Pipeline(req, env, fs).Unpacked?
    requires Truthy(req.owner) && req.owner.value !in env.users
    ensures Run(req, env, fs) == Outcome(Fail(OwnerNotFound(req.owner.value), None), Staged(req, env, fs))
    ensures Run(req, env.(groups := groups, denied := denied), fs) == Run(req, env, fs)
  {
    var env' := env.(groups := groups, denied := denied);
    assert Extracts(req, env', fs) && Staged(req, env, fs) == Staged(req, env', fs);
  }

  /** An unknown group (with the owner known or not given) is reported
      before any chown; the extracted tree stays. */
  lemma GroupCheckedBeforeWalk(req: Request, env: Env, fs: FS, denied: set<Path>)
    requires ProperPath(env.cwd) && Extracts(req, env, fs) && Pipeline(req, env, fs).Unpacked?
    requires Truthy(req.owner) ==> req.owner.value in env.users
    requires Truthy(req.group) && req.group.value !in env.groups
    ensures Run(req, env, fs) == Outcome(Fail(GroupNotFound(req.group.value), None), Staged(req, env, fs))
    ensures Run(req, env.(denied := denied), fs) == Run(req, env, fs)
  {
    var env' := env.(denied := denied);
    assert Extracts(req, env', fs) && Staged(req, env, fs) == Staged(req, env', fs);
  }

  /** A denied chown anywhere in the walk is reported against the
      destination itself, not the entry that was refused. */
  lemma DeniedWalkReportsRoot(req: Request, env: Env, fs: FS)
    requires ProperPath(env.cwd) && Extracts(req, env, fs) && Pipeline(req, env, fs).Unpacked?
    requires Truthy(req.owner) ==> req.owner.value in env.users
    requires Truthy(req.group) ==> req.group.value in env.groups
    requires Truthy(req.owner) || Truthy(req.group)
    requires !(Targets(Staged(req, env, fs), Dest(req, env.cwd).value) !! env.denied)
    ensures Run(req, env, fs).report == Fail(ChownDenied(Dest(req, env.cwd).value), None)
  {
  }

  /** A real run reports a change exactly when it extracted the package,
      resolved every identity it was given, and (if any) chowned the whole
      walk without a refusal. */
  lemma ChangedExactlyWhen(req: Request, env: Env, fs: FS)
    requires ProperPath(env.cwd) && !req.checkMode
    ensures Run(req, env, fs).report == Exit(true, Echo(req)) <==>
              && Extracts(req, env, fs)
              && Pipeline(req, env, fs).Unpacked?
              && (Truthy(req.owner) ==> req.owner.value in env.users)
              && (Truthy(req.group) ==> req.group.value in env.groups)
              && (Truthy(req.owner) || Truthy(req.group) ==>
                    Targets(Staged(req, env, fs), Dest(req, env.cwd).value) !! env.denied)
  {
  }

  /** rmtree refuses a link to a directory and the module ignores that, so
      a forced run on such a link fails at mkdir without touching the disk.
      This holds when `dest` ends in the link's own name; written with a
      trailing '/' or "/.", `dest` leads rmtree into the link's target. */
  lemma ForcedLinkIsNotReplaced(req: Request, env: Env, fs: FS)
    requires ProperPath(env.cwd) && WellFormed(fs) && EndsInName(DestName(req))
    requires !req.checkMode && req.force && !ChdirFails(req, env, fs)
    requires Dest(req, env.cwd).Some?
    requires Dest(req, env.cwd).value in fs && fs[Dest(req, env.cwd).value].kind == Link(true)
    ensures Run(req, env, fs) == Outcome(Fail(MkdirFailed(DestName(req)), None), fs)
  {
    var root := Dest(req, env.cwd).value;
    OnlyDirsHaveEntriesBelow(fs, root);
    assert RemoveBelow(fs, root) == fs;
  }

  /** A non-directory at the destination counts as absent: check mode
      predicts a change, and the real run then fails at mkdir. */
  lemma NonDirAtDest(req: Request, env: Env, fs: FS)
    requires ProperPath(env.cwd) && !ChdirFails(req, env, fs)
    requires Dest(req, env.cwd).Some?
    requires Dest(req, env.cwd).value in fs && Leaf(fs[Dest(req, env.cwd).value].kind)
    ensures req.checkMode ==> Run(req, env, fs).report == Exit(true, Echo(req))
    ensures !req.checkMode ==> Run(req, env, fs) == Outcome(Fail(MkdirFailed(DestName(req)), None), fs)
  {
  }

  /** A `dest` "name/.." whose `name` is missing is not a directory, although
      it names the working directory once ".." is applied: the lookup fails
      at the missing entry. Check mode predicts a change, and a real run,
      forced or not, fails at `os.mkdir` and leaves the disk as it was. */
  lemma UpFromMissingIsAbsent(req: Request, env: Env, fs: FS, name: string)
    requires ProperPath(env.cwd) && ProperName(name) && !Truthy(req.chdir)
    requires req.dest == Some(name + "/..") && env.cwd + [name] !in fs
    ensures Dest(req, env.cwd) == Some(env.cwd) && !Present(req, env, fs)
    ensures req.checkMode ==> Run(req, env, fs) == Outcome(Exit(true, Echo(req)), fs)
    ensures !req.checkMode ==> Run(req, env, fs) == Outcome(Fail(MkdirFailed(name + "/.."), None), fs)
  {
    UpFromName(env.cwd, name);
    assert DestName(req) == name + "/..";
    assert !Reachable(fs, env.cwd, name + "/..") by {
      assert env.cwd + [name] in TraversedBy(env.cwd, name + "/..");
      assert !IsDir(fs, Some(env.cwd + [name]));
    }
  }

  /** Creating the destination and unpacking a tree into it keeps the disk a tree. */
  lemma StagedKeepsShape(req: Request, env: Env, fs: FS)
    requires ProperPath(env.cwd) && WellFormed(fs) && TreeShaped(Entries(env.unpack))
    requires Extracts(req, env, fs)
    ensures WellFormed(Staged(req, env, fs))
  {
    var root := Dest(req, env.cwd).value;
    var cleared := Cleared(req, env, fs);
    assert WellFormed(cleared) && forall p :: p in cleared ==> !(root <= p) by {
      if Present(req, env, fs) {
        assert cleared == RemoveTree(fs, root);
        RemoveTreeKeepsShape(fs, root);
      } else {
        assert cleared == fs;
        NothingBelowAbsent(fs, root);
      }
    }
    var created := Created(req, env, fs);
    assert WellFormed(created) by {
      assert created == cleared[root := Node(Dir, env.procUid, env.procGid)];
      MkdirKeepsShape(cleared, root, Node(Dir, env.procUid, env.procGid));
    }
    var entries := Entries(Pipeline(req, env, fs));
    assert TreeShaped(entries);
    PlaceKeepsShape(created, root, entries);
  }

  /** The forced removal keeps the disk a tree. */
  lemma ClearedKeepsShape(req: Request, env: Env, fs: FS)
    requires ProperPath(env.cwd) && WellFormed(fs)
    ensures WellFormed(Cleared(req, env, fs))
  {
    if Present(req, env, fs) && req.force {
      var root := Dest(req, env.cwd).value;
      if Creatable(DestName(req)) {
        RemoveTreeKeepsShape(fs, root);
      } else {
        RemoveBelowKeepsShape(fs, root);
      }
    }
  }

  /** A run keeps the disk a tree when the pipeline writes one. */
  lemma RunKeepsShape(req: Request, env: Env, fs: FS, after: FS)
    requires ProperPath(env.cwd) && WellFormed(fs) && TreeShaped(Entries(env.unpack))
    requires Reaches(req, env, fs, after)
    ensures WellFormed(after)
  {
    if !Extracts(req, env, fs) {
      StopsBeforeUnpack(req, env, fs, after);
      ClearedKeepsShape(req, env, fs);
    } else {
      StagedKeepsShape(req, env, fs);
      EndsAfterUnpack(req, env, fs, after);
    }
  }

  /** The walked set of a well-formed extracted tree is everything below the
      destination except links to directories. */
  lemma WalkCoversExtraction(req: Request, env: Env, fs: FS, p: Path)
    requires ProperPath(env.cwd) && WellFormed(fs) && TreeShaped(Entries(env.unpack))
    requires Extracts(req, env, fs)
    requires p in Staged(req, env, fs) && Dest(req, env.cwd).value <= p
    ensures p in Targets(Staged(req, env, fs), Dest(req, env.cwd).value) <==>
              Staged(req, env, fs)[p].kind != Link(true)
  {
    var root := Dest(req, env.cwd).value;
    var staged := Staged(req, env, fs);
    StagedKeepsShape(req, env, fs);
    assert !(root < root);
    WalkCoversTree(staged, root, p);
  }

  /** An example package request: the archive `stem`.rpm in the top-level
      directory `dir`, given by its absolute path (for instance
      "/srv/pkg-2.3.rpm"), and no `dest`. */
  function PackageRequest(dir: string, stem: string): Request
  {
    Request("/" + dir + "/" + stem + RpmSuffix, None, None, None, None, false, false)
  }

  /** An example package request with the archive given by its bare file
      name, the form the module's own examples use. */
  function RelativePackageRequest(stem: string): Request
  {
    Request(stem + RpmSuffix, None, None, None, None, false, false)
  }

  /** A package file name is a proper name of its own. */
  lemma PackageFileName(stem: string)
    requires ProperName(stem)
    ensures ProperName(stem + RpmSuffix)
    ensures stem + RpmSuffix != stem
  {
    assert '/' !in RpmSuffix;
    assert |stem + RpmSuffix| == |stem| + 4;
  }

  /** Both destinations are the folder `stem` inside the working directory. */
  lemma PackageDest(cwd: Path, dir: string, stem: string)
    requires ProperPath(cwd) && ProperName(stem)
    ensures Dest(PackageRequest(dir, stem), cwd) == Some(cwd + [stem])
    ensures Dest(RelativePackageRequest(stem), cwd) == Some(cwd + [stem])
  {
    DefaultDestOfPackageName(stem);
    DefaultDestInDirectory("/" + dir, stem);
    ResolveName(cwd, stem);
  }

  /** Both requests name a destination `os.mkdir` can create. */
  lemma PackageDestName(dir: string, stem: string)
    requires ProperName(stem)
    ensures DestName(PackageRequest(dir, stem)) == stem
    ensures DestName(RelativePackageRequest(stem)) == stem
    ensures Creatable(stem)
  {
    DefaultDestOfPackageName(stem);
    DefaultDestInDirectory("/" + dir, stem);
    CreatableName(stem);
  }

  /** The absolute archive is opened where it is, through the top-level
      directory `dir` only, wherever the module has changed to. */
  lemma PackageArchive(root: Path, dir: string, stem: string)
    requires ProperPath(root) && ProperName(dir) && ProperName(stem)
    ensures Archive(PackageRequest(dir, stem), root) == Some([dir, stem + RpmSuffix])
    ensures TraversedBy(root, PackageRequest(dir, stem).src) == {[dir]}
  {
    PackageFileName(stem);
    assert "/" + dir + "/" + stem + RpmSuffix == "/" + dir + "/" + (stem + RpmSuffix);
    ResolveTopLevel(root, dir, stem + RpmSuffix);
    TraversedTopLevel(root, dir, stem + RpmSuffix);
  }

  /** An example package: with the archive present and no folder `stem` in
      the working directory, the run creates that folder and reports a
      change; running it again reports none. */
  lemma PackageScenario(dir: string, stem: string, env: Env, fs: FS)
    requires ProperName(dir) && ProperName(stem)
    requires ProperPath(env.cwd) && WellFormed(fs) && env.cwd in fs && fs[env.cwd].kind == Dir
    requires env.cwd + [stem] !in fs
    requires [dir, stem + RpmSuffix] in fs && fs[[dir, stem + RpmSuffix]].kind == File
    requires env.unpack.Unpacked?
    ensures var req := PackageRequest(dir, stem);
            && Run(req, env, fs).report == Exit(true, Echo(req))
            && Present(req, env, Run(req, env, fs).disk)
            && Run(req, env, Run(req, env, fs).disk).report == Exit(false, Echo(req))
  {
    var req := PackageRequest(dir, stem);
    PackageFirstRun(dir, stem, env, fs);
    assert Run(req, env, fs).report.Exit?;
    CompletedRunLeavesDir(req, env, fs);
    Idempotent(req, env, fs);
    assert req.(force := false) == req;
  }

  /** The first run of an example package gets through the pipeline, which
      opens the archive. */
  lemma PackageFirstRun(dir: string, stem: string, env: Env, fs: FS)
    requires ProperName(dir) && ProperName(stem)
    requires ProperPath(env.cwd) && WellFormed(fs) && env.cwd in fs && fs[env.cwd].kind == Dir
    requires env.cwd + [stem] !in fs
    requires [dir, stem + RpmSuffix] in fs && fs[[dir, stem + RpmSuffix]].kind == File
    requires env.unpack.Unpacked?
    ensures Extracts(PackageRequest(dir, stem), env, fs)
    ensures Pipeline(PackageRequest(dir, stem), env, fs) == env.unpack
    ensures Run(PackageRequest(dir, stem), env, fs) ==
              SetOwnership(PackageRequest(dir, stem), env, env.cwd + [stem], Staged(PackageRequest(dir, stem), env, fs))
  {
    var req := PackageRequest(dir, stem);
    var root := env.cwd + [stem];
    PackageExtracts(dir, stem, env, fs);
    var created := Created(req, env, fs);
    assert Pipeline(req, env, fs) == env.unpack by {
      PackageArchive(root, dir, stem);
      PackageFileName(stem);
      assert root[|root| - 1] != stem + RpmSuffix;
      assert Readable(created, Archive(req, root));
      assert Parent([dir, stem + RpmSuffix]) == [dir];
      assert Reachable(created, root, req.src);
    }
    RunAfterMkdir(req, env, fs);
  }

  /** An example package gets as far as creating the folder `stem` in an
      otherwise unchanged disk. */
  lemma PackageExtracts(dir: string, stem: string, env: Env, fs: FS)
    requires ProperName(stem)
    requires ProperPath(env.cwd) && env.cwd in fs && fs[env.cwd].kind == Dir
    requires env.cwd + [stem] !in fs
    ensures Dest(PackageRequest(dir, stem), env.cwd) == Some(env.cwd + [stem])
    ensures Extracts(PackageRequest(dir, stem), env, fs) && !Present(PackageRequest(dir, stem), env, fs)
    ensures Created(PackageRequest(dir, stem), env, fs) ==
              fs[env.cwd + [stem] := Node(Dir, env.procUid, env.procGid)]
  {
    PackageDest(env.cwd, dir, stem);
    PackageDestName(dir, stem);
    NameDestExtracts(PackageRequest(dir, stem), env, fs);
  }

  /** A real run without `chdir` whose destination is a plain name missing
      from the working directory gets as far as creating it. */
  lemma NameDestExtracts(req: Request, env: Env, fs: FS)
    requires ProperPath(env.cwd) && env.cwd in fs && fs[env.cwd].kind == Dir
    requires !req.checkMode && !Truthy(req.chdir) && ProperName(DestName(req))
    requires env.cwd + [DestName(req)] !in fs
    ensures Dest(req, env.cwd) == Some(env.cwd + [DestName(req)])
    ensures Extracts(req, env, fs) && !Present(req, env, fs)
    ensures Created(req, env, fs) == fs[env.cwd + [DestName(req)] := Node(Dir, env.procUid, env.procGid)]
  {
    var name := DestName(req);
    var root := env.cwd + [name];
    assert Workdir(req, env.cwd) == env.cwd;
    assert Dest(req, env.cwd) == Some(root) by {
      ResolveName(env.cwd, name);
    }
    assert Reachable(fs, env.cwd, name) by {
      TraversedName(env.cwd, name);
    }
    assert Creatable(name) by {
      CreatableName(name);
    }
    assert !Present(req, env, fs);
    assert Cleared(req, env, fs) == fs;
    assert CanMkdir(fs, root) by {
      assert Parent(root) == env.cwd;
    }
  }

  /** The module changes into the freshly created destination before it runs
      the pipeline, so a relative `src` without ".." is looked up inside that
      empty directory: it is never found, nothing is extracted, and the run
      fails leaving the empty destination behind. */
  lemma RelativeSrcNeverExtracts(req: Request, env: Env, fs: FS)
    requires ProperPath(env.cwd) && WellFormed(fs) && Extracts(req, env, fs)
    requires |req.src| > 0 && req.src[0] != '/'
    requires forall i :: 0 <= i < |Split(req.src)| ==> Split(req.src)[i] != ".."
    ensures Pipeline(req, env, fs) == UnpackFailed(map[])
    ensures Run(req, env, fs) == Outcome(Fail(ExtractFailed(req.src), Some(Echo(req))), Created(req, env, fs))
  {
    var root := Dest(req, env.cwd).value;
    var cleared := Cleared(req, env, fs);
    var created := Created(req, env, fs);
    if Present(req, env, fs) {
      RemoveTreeKeepsShape(fs, root);
    }
    assert WellFormed(cleared) && root !in cleared;
    NothingBelowAbsent(cleared, root);
    ResolveRelativeBelow(root, req.src);
    var a := Resolve(root, req.src);
    assert Archive(req, root) == Some(a);
    if a == root {
      assert created[a].kind == Dir;
    } else {
      assert a !in cleared && a !in created;
    }
    assert !Readable(created, Archive(req, root));
    PlaceNothing(created, root);
    RunAfterMkdir(req, env, fs);
  }

  /** After that failed run, a run without force finds the destination and
      reports no change (provided the lookup of `chdir` does not reach into
      the destination, which a forced first run would have removed). */
  lemma RelativeSrcSecondRun(req: Request, env: Env, fs: FS)
    requires ProperPath(env.cwd) && WellFormed(fs) && Extracts(req, env, fs)
    requires |req.src| > 0 && req.src[0] != '/'
    requires forall i :: 0 <= i < |Split(req.src)| ==> Split(req.src)[i] != ".."
    requires ChdirAvoids(req, env)
    ensures var disk := Run(req, env, fs).disk;
            Run(req.(force := false), env, disk) == Outcome(Exit(false, Echo(req.(force := false))), disk)
  {
    var again := req.(force := false);
    RelativeSrcNeverExtracts(req, env, fs);
    var disk := Created(req, env, fs);
    CreatedIsPresent(req, env, fs);
    assert Dest(again, env.cwd) == Dest(req, env.cwd);
    assert Workdir(again, env.cwd) == Workdir(req, env.cwd);
    assert Present(again, env, disk) && !ChdirFails(again, env, disk);
    ExistingDestIsNoop(again, env, disk);
  }

  /** Right after `os.mkdir` the destination is a directory, and the
      lookup of `chdir` still succeeds unless it reached into the destination. */
  lemma CreatedIsPresent(req: Request, env: Env, fs: FS)
    requires ProperPath(env.cwd) && Extracts(req, env, fs)
    requires ChdirAvoids(req, env)
    ensures Present(req, env, Created(req, env, fs))
    ensures !ChdirFails(req, env, Created(req, env, fs))
  {
    var root := Dest(req, env.cwd).value;
    var cleared, created := Cleared(req, env, fs), Created(req, env, fs);
    assert SameOutside(cleared, created, root);
    DestLookupOutside(req, env, fs);
    ReachableOutside(cleared, created, root, Workdir(req, env.cwd), DestName(req));
    if Truthy(req.chdir) {
      var w := Workdir(req, env.cwd);
      assert w != root && !(root <= w);
      assert w in cleared && cleared[w] == fs[w];
      assert Reachable(cleared, env.cwd, req.chdir.value) by {
        forall p | p in TraversedBy(env.cwd, req.chdir.value) ensures IsDir(cleared, Some(p)) {
          assert IsDir(fs, Some(p)) && !(root <= p);
        }
      }
      ReachableOutside(cleared, created, root, env.cwd, req.chdir.value);
    }
  }

  /** An example package as the module's own examples write it: the bare
      file name `stem`.rpm is looked up inside the new folder `stem`, so the
      run fails with the empty folder left behind, and the next run reports
      no change. */
  lemma RelativePackageScenario(stem: string, env: Env, fs: FS)
    requires ProperName(stem)
    requires ProperPath(env.cwd) && WellFormed(fs) && env.cwd in fs && fs[env.cwd].kind == Dir
    requires env.cwd + [stem] !in fs
    ensures var req := RelativePackageRequest(stem);
            var disk := Run(req, env, fs).disk;
            && Run(req, env, fs).report == Fail(ExtractFailed(stem + RpmSuffix), Some(Echo(req)))
            && disk == fs[env.cwd + [stem] := Node(Dir, env.procUid, env.procGid)]
            && Run(req, env, disk) == Outcome(Exit(false, Echo(req)), disk)
  {
    var req := RelativePackageRequest(stem);
    RelativePackageFirstRun(stem, env, fs);
    var disk := Run(req, env, fs).disk;
    RelativePackageLeftDir(stem, env, fs);
    ExistingDestIsNoop(req, env, disk);
  }

  /** The folder `stem` left behind in the working directory is found by
      `os.path.isdir` on the next run of the request "stem.rpm". */
  lemma RelativePackageLeftDir(stem: string, env: Env, fs: FS)
    requires ProperName(stem)
    requires ProperPath(env.cwd) && env.cwd in fs && fs[env.cwd].kind == Dir
    requires env.cwd + [stem] !in fs
    ensures Present(RelativePackageRequest(stem), env, fs[env.cwd + [stem] := Node(Dir, env.procUid, env.procGid)])
  {
    var req := RelativePackageRequest(stem);
    var root := env.cwd + [stem];
    var disk := fs[root := Node(Dir, env.procUid, env.procGid)];
    assert Workdir(req, env.cwd) == env.cwd;
    assert DestName(req) == stem by {
      DefaultDestOfPackageName(stem);
    }
    assert Dest(req, env.cwd) == Some(root) by {
      ResolveName(env.cwd, stem);
    }
    assert IsDir(disk, Dest(req, env.cwd)) by {
      assert root in disk && disk[root].kind == Dir;
    }
    assert Reachable(disk, env.cwd, stem) by {
      TraversedName(env.cwd, stem);
      assert env.cwd in disk && disk[env.cwd] == fs[env.cwd];
    }
  }

  /** The first run of an example package given by its bare file name. */
  lemma RelativePackageFirstRun(stem: string, env: Env, fs: FS)
    requires ProperName(stem)
    requires ProperPath(env.cwd) && WellFormed(fs) && env.cwd in fs && fs[env.cwd].kind == Dir
    requires env.cwd + [stem] !in fs
    ensures Dest(RelativePackageRequest(stem), env.cwd) == Some(env.cwd + [stem])
    ensures Run(RelativePackageRequest(stem), env, fs) ==
              Outcome(Fail(ExtractFailed(stem + RpmSuffix), Some(Echo(RelativePackageRequest(stem)))),
                      fs[env.cwd + [stem] := Node(Dir, env.procUid, env.procGid)])
  {
    var req := RelativePackageRequest(stem);
    RelativePackageExtracts(stem, env, fs);
    PackageFileName(stem);
    BareNameNeverExtracts(req, env, fs);
  }

  /** An example package given by its bare file name gets as far as
      creating the folder `stem` in an otherwise unchanged disk. */
  lemma RelativePackageExtracts(stem: string, env: Env, fs: FS)
    requires ProperName(stem)
    requires ProperPath(env.cwd) && env.cwd in fs && fs[env.cwd].kind == Dir
    requires env.cwd + [stem] !in fs
    ensures Dest(RelativePackageRequest(stem), env.cwd) == Some(env.cwd + [stem])
    ensures Extracts(RelativePackageRequest(stem), env, fs)
    ensures Created(RelativePackageRequest(stem), env, fs) ==
              fs[env.cwd + [stem] := Node(Dir, env.procUid, env.procGid)]
  {
    PackageDest(env.cwd, "", stem);
    PackageDestName("", stem);
    NameDestExtracts(RelativePackageRequest(stem), env, fs);
  }

  /** An archive given by its bare file name is looked up inside the new
      destination, and so never extracts. */
  lemma BareNameNeverExtracts(req: Request, env: Env, fs: FS)
    requires ProperPath(env.cwd) && WellFormed(fs) && Extracts(req, env, fs)
    requires ProperName(req.src)
    ensures Run(req, env, fs) == Outcome(Fail(ExtractFailed(req.src), Some(Echo(req))), Created(req, env, fs))
  {
    SplitName(req.src);
    RelativeSrcNeverExtracts(req, env, fs);
  }
}
