/** The imperative core of chroot_lib.py: the command runners, `setup`,
    the `Chroot` class and `enter`, each proved to change the calling
    process exactly as the functions of `Sequencing` and `Lifecycle` say,
    so every guarantee proved about those functions holds for them. */
module ChrootLib {
  import opened Wrappers
  import opened Commands
  import opened Sequencing
  import Lifecycle
  import opened Host

  /** `run_till_success`: runs the commands one by one and returns the
      first failing result, or the last result when none fails. */
  method RunTillSuccess(h: Process, cmds: seq<Command>) returns (r: ProcResult)
    requires h.Valid() && h.Running() && |cmds| > 0
    modifies h
    ensures h.Valid() && h.Running()
    ensures (h.Snapshot(), r) == TillSuccess(h.oracle, old(h.Snapshot()), cmds)
  {
    ghost var p0 := h.Snapshot();
    ghost var n0 := |p0.trace|;
    var i := 0;
    var failed := false;
    r := ProcResult(0, "", "");
    while i < |cmds| && !failed
      invariant 0 <= i <= |cmds|
      invariant h.Valid() && h.Running()
      invariant h.Snapshot() == p0.(trace := p0.trace + cmds[..i])
      invariant !failed ==> i <= FirstFailure(h.oracle, n0, cmds)
      invariant failed ==> 0 < i && i - 1 == FirstFailure(h.oracle, n0, cmds)
      invariant 0 < i ==> r == h.oracle(n0 + i - 1, cmds[i - 1]) && (failed <==> r.Failed())
    {
      r := h.Spawn(cmds[i]);
      if r.Failed() {
        failed := true;
        if i < FirstFailure(h.oracle, n0, cmds) {
          SucceedsBeforeFirstFailure(h.oracle, n0, cmds, i);
        }
      }
      assert cmds[..i + 1] == cmds[..i] + [cmds[i]];
      i := i + 1;
    }
    if failed {
      TillSuccessFails(h.oracle, p0, cmds);
    } else {
      assert cmds[..i] == cmds;
      TillSuccessSucceeds(h.oracle, p0, cmds);
    }
  }

  /** `run_anyway`: runs every command and ignores every result. */
  method RunAnyway(h: Process, cmds: seq<Command>)
    requires h.Valid() && h.Running()
    modifies h
    ensures h.Valid() && h.Running()
    ensures h.Snapshot() == Anyway(h.oracle, old(h.Snapshot()), cmds)
  {
    ghost var p0 := h.Snapshot();
    var i := 0;
    while i < |cmds|
      invariant 0 <= i <= |cmds|
      invariant h.Valid() && h.Running()
      invariant h.Snapshot() == p0.(trace := p0.trace + cmds[..i])
    {
      var _ := h.Spawn(cmds[i]);
      assert cmds[..i + 1] == cmds[..i] + [cmds[i]];
      i := i + 1;
    }
    assert cmds[..i] == cmds;
  }

  /** `setup`: runs the four setup commands inside the chroot and dies on
      the first failure. */
  method Setup(h: Process, chroot: string)
    requires h.Valid() && h.Running()
    modifies h
    ensures h.Valid()
    ensures h.Snapshot() == Lifecycle.Setup(h.oracle, old(h.Snapshot()), chroot)
  {
    RunDyingOnFailure(h, Lifecycle.SetupCommands(chroot));
  }

  /** The loop of `setup`: each result is checked as it arrives, and the
      first failure kills the process, so nothing after it is spawned. */
  method RunDyingOnFailure(h: Process, cmds: seq<Command>)
    requires h.Valid() && h.Running() && |cmds| > 0
    modifies h
    ensures h.Valid()
    ensures var run := TillSuccess(h.oracle, old(h.Snapshot()), cmds);
            h.Snapshot() == if run.1.Failed() then Die(run.0, run.1) else run.0
  {
    ghost var p0 := h.Snapshot();
    ghost var n0 := |p0.trace|;
    var i := 0;
    ghost var last := ProcResult(0, "", "");
    while i < |cmds| && h.Running()
      invariant 0 <= i <= |cmds|
      invariant h.Valid()
      invariant h.Running() ==> h.Snapshot() == p0.(trace := p0.trace + cmds[..i])
      invariant h.Running() ==> i <= FirstFailure(h.oracle, n0, cmds)
      invariant !h.Running() ==> 0 < i && i - 1 == FirstFailure(h.oracle, n0, cmds)
      invariant !h.Running() ==>
        last == h.oracle(n0 + i - 1, cmds[i - 1])
        && h.Snapshot() == Die(p0.(trace := p0.trace + cmds[..i]), last)
    {
      var result := h.Spawn(cmds[i]);
      assert cmds[..i + 1] == cmds[..i] + [cmds[i]];
      if result.Failed() {
        if i < FirstFailure(h.oracle, n0, cmds) {
          SucceedsBeforeFirstFailure(h.oracle, n0, cmds, i);
        }
        last := result;
        h.Die(result);
      }
      i := i + 1;
    }
    if h.Running() {
      assert cmds[..i] == cmds;
      TillSuccessSucceeds(h.oracle, p0, cmds);
    } else {
      TillSuccessFails(h.oracle, p0, cmds);
    }
  }

  /** A chroot directory and the commands that mount and unmount the host
      file systems it needs. */
  class Chroot {
    const root: string
    const preparationCommands: seq<Command>
    const teardownCommands: seq<Command>

    /** The fields as a value, for the specifications. */
    function Layout(): Lifecycle.Layout {
      Lifecycle.Layout(root, preparationCommands, teardownCommands)
    }

    /** The fields hold exactly what the constructor builds. */
    ghost predicate Valid() {
      Layout() == Lifecycle.LayoutOf(root)
    }

    /** `Chroot.__init__`: the four mounts and the removal of /etc/mtab,
        and the four unmounts in the reverse order. */
    constructor (root: string)
      ensures this.root == root && Valid()
      ensures Lifecycle.WellFormed(Layout())
    {
      var procPath := Lifecycle.ProcPath(root);
      var sysPath := Lifecycle.SysPath(root);
      var devPath := Lifecycle.DevPath(root);
      var devPtsPath := Lifecycle.DevPtsPath(root);
      this.root := root;
      preparationCommands := [
        Command(["mount", "-t", "proc", "proc", procPath], None),
        Command(["mount", "-t", "sysfs", "sys", sysPath], None),
        Command(["mount", "-o", "bind", "/dev", devPath], None),
        Command(["mount", "-o", "bind", "/dev/pts", devPtsPath], None),
        InChroot(Command(["rm", "-f", "/etc/mtab"], None), root)
      ];
      teardownCommands := [
        Lifecycle.Umount(devPtsPath),
        Lifecycle.Umount(devPath),
        Lifecycle.Umount(sysPath),
        Lifecycle.Umount(procPath)
      ];
    }

    /** `Chroot.prepare`. */
    method Prepare(h: Process)
      requires Valid() && h.Valid() && h.Running()
      modifies h
      ensures h.Valid()
      ensures h.Snapshot() == Lifecycle.Prepare(h.oracle, old(h.Snapshot()), Layout())
    {
      var result := RunTillSuccess(h, preparationCommands);
      if result.Failed() {
        Teardown(h);
        h.Die(result);
      }
    }

    /** `Chroot.teardown`. */
    method Teardown(h: Process)
      requires h.Valid() && h.Running()
      modifies h
      ensures h.Valid() && h.Running()
      ensures h.Snapshot() == Lifecycle.Teardown(h.oracle, old(h.Snapshot()), Layout())
    {
      RunAnyway(h, teardownCommands);
    }

    /** `Chroot._to_internal_commands`: each argument list becomes a
        command run inside this chroot, in the same order. */
    method ToInternalCommands(argList: seq<seq<string>>) returns (commands: seq<Command>)
      ensures |commands| == |argList|
      ensures forall i :: 0 <= i < |argList| ==>
                commands[i].args == ["chroot", root] + argList[i] && commands[i].stdin == None
      ensures commands == Lifecycle.Internal(root, argList)
    {
      commands := [];
      var i := 0;
      while i < |argList|
        invariant 0 <= i <= |argList|
        invariant commands == Lifecycle.Internal(root, argList[..i])
      {
        InternalAppend(root, argList[..i], argList[i]);
        assert argList[..i + 1] == argList[..i] + [argList[i]];
        commands := commands + [InChroot(Command(argList[i], None), root)];
        i := i + 1;
      }
      assert argList[..i] == argList;
    }

    /** `Chroot.stop`: the stop hooks of the configuration (none when the
        key is missing), whatever their results, then the teardown. */
    method Stop(h: Process, cfg: Config)
      requires h.Valid() && h.Running()
      modifies h
      ensures h.Valid() && h.Running()
      ensures h.Snapshot()
           == Lifecycle.Stop(h.oracle, old(h.Snapshot()), Layout(), Lifecycle.Internal(root, HookList(cfg.stop)))
    {
      var stopCommands := ToInternalCommands(HookList(cfg.stop));
      RunAnyway(h, stopCommands);
      Teardown(h);
    }

    /** `Chroot.start`: prepare, then the start hooks fail-fast; a failing
        hook stops the chroot and kills the process. The configuration is
        read once for the start hooks and read again by `stop`, so the stop
        hooks come from `cfgAtStop`. */
    method Start(h: Process, cfg: Config, cfgAtStop: Config)
      requires Valid() && h.Valid() && h.Running()
      modifies h
      ensures h.Valid()
      ensures h.Snapshot()
           == Lifecycle.Start(h.oracle, old(h.Snapshot()), Layout(),
                              Lifecycle.Internal(root, HookList(cfg.start)),
                              Lifecycle.Internal(root, HookList(cfgAtStop.stop)))
    {
      var startCommands := ToInternalCommands(HookList(cfg.start));
      Prepare(h);
      if !h.Running() {
        return;
      }
      if startCommands == [] {
        h.Crash();
        return;
      }
      var startResult := RunTillSuccess(h, startCommands);
      if startResult.Failed() {
        Stop(h, cfgAtStop);
        h.Die(startResult);
      }
    }
  }

  /** `enter`: prepare the chroot, run the interactive command inside it
      (whatever it returns), then tear the chroot down. */
  method Enter(h: Process, chroot: string, args: seq<string>)
    requires h.Valid() && h.Running()
    modifies h
    ensures h.Valid()
    ensures h.Snapshot() == Lifecycle.Enter(h.oracle, old(h.Snapshot()), Lifecycle.LayoutOf(chroot), args)
  {
    var root := new Chroot(chroot);
    root.Prepare(h);
    if !h.Running() {
      return;
    }
    var _ := h.Spawn(Command(["chroot", chroot] + args, None));
    root.Teardown(h);
  }

  lemma InternalAppend(root: string, argLists: seq<seq<string>>, args: seq<string>)
    ensures Lifecycle.Internal(root, argLists + [args])
         == Lifecycle.Internal(root, argLists) + [InChroot(Command(args, None), root)]
  {
    var l := Lifecycle.Internal(root, argLists + [args]);
    var r := Lifecycle.Internal(root, argLists) + [InChroot(Command(args, None), root)];
    assert |l| == |r|;
    forall i | 0 <= i < |l| ensures l[i] == r[i] {
      if i < |argLists| {
        assert (argLists + [args])[i] == argLists[i];
      }
    }
  }
}
