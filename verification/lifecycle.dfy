/** The meaning of the chroot lifecycle operations of chroot_lib.py
    (`Chroot.prepare`, `teardown`, `start`, `stop`, `enter` and `setup`) as
    functions on the state of the calling process, and what they guarantee:
    the order of the spawned commands, nothing after a failure, teardown on
    every failure path, and exit status 1 whenever the process dies. */
module Lifecycle {
  import opened Wrappers
  import opened Commands
  import opened Sequencing
  import Paths

  // ---------------------------------------------------------------------
  // The fixed command lists of a chroot

  function ProcPath(root: string): string { Paths.Join(root, "proc") }
  function SysPath(root: string): string { Paths.Join(root, "sys") }
  function DevPath(root: string): string { Paths.Join(root, "dev") }
  function DevPtsPath(root: string): string { Paths.Join(Paths.Join(root, "dev"), "pts") }

  /** The four mount points, in mounting order. */
  function MountTargets(root: string): seq<string> {
    [ProcPath(root), SysPath(root), DevPath(root), DevPtsPath(root)]
  }

  function Umount(target: string): Command {
    Command(["umount", target], None)
  }

  /** A `mount` invocation; its mount point is its last argument. */
  predicate IsMount(c: Command) {
    |c.args| >= 2 && c.args[0] == "mount"
  }

  function Target(c: Command): string
    requires |c.args| > 0
  {
    c.args[|c.args| - 1]
  }

  predicate IsUnmount(c: Command) {
    |c.args| > 0 && c.args[0] == "umount"
  }

  /** `Chroot.preparation_commands`: mount proc, mount sysfs, bind /dev,
      bind /dev/pts, then remove the stale /etc/mtab inside the chroot. */
  function PreparationCommands(root: string): seq<Command> {
    [ Command(["mount", "-t", "proc", "proc", ProcPath(root)], None),
      Command(["mount", "-t", "sysfs", "sys", SysPath(root)], None),
      Command(["mount", "-o", "bind", "/dev", DevPath(root)], None),
      Command(["mount", "-o", "bind", "/dev/pts", DevPtsPath(root)], None),
      InChroot(Command(["rm", "-f", "/etc/mtab"], None), root) ]
  }

  /** `Chroot.teardown_commands`: one unmount per mount point. */
  function TeardownCommands(root: string): seq<Command> {
    [Umount(DevPtsPath(root)), Umount(DevPath(root)), Umount(SysPath(root)), Umount(ProcPath(root))]
  }

  /** The state a `Chroot` object holds: its root and the two command
      lists its constructor builds once. */
  datatype Layout = Layout(root: string, preparation: seq<Command>, teardown: seq<Command>)

  /** The shape every operation relies on: five preparation commands, the
      first four mounting the four mount points in order and the fifth
      neither mounting nor unmounting, and four unmounts of the same mount
      points in the reverse order. */
  ghost predicate WellFormed(c: Layout) {
    && |c.preparation| == 5
    && |c.teardown| == 4
    && (forall i :: 0 <= i < 4 ==>
          IsMount(c.preparation[i]) && !IsUnmount(c.preparation[i])
          && Target(c.preparation[i]) == MountTargets(c.root)[i])
    && !IsMount(c.preparation[4]) && !IsUnmount(c.preparation[4])
    && (forall i :: 0 <= i < 4 ==> c.teardown[i] == Umount(MountTargets(c.root)[3 - i]))
  }

  /** `Chroot.__init__`: the lists are exactly the preparation and teardown
      commands of the root, and they have the shape above; in particular
      the unmounts undo the mounts in reverse order. */
  function LayoutOf(root: string): (c: Layout)
    ensures c.root == root
    ensures c.preparation == PreparationCommands(root) && c.teardown == TeardownCommands(root)
    ensures WellFormed(c)
    ensures c.preparation[4] == InChroot(Command(["rm", "-f", "/etc/mtab"], None), root)
  {
    LayoutShape(root);
    Layout(root, PreparationCommands(root), TeardownCommands(root))
  }

  lemma LayoutShape(root: string)
    ensures WellFormed(Layout(root, PreparationCommands(root), TeardownCommands(root)))
  {
    var prep := PreparationCommands(root);
    var tear := TeardownCommands(root);
    var targets := MountTargets(root);
    forall i | 0 <= i < 4
      ensures IsMount(prep[i]) && !IsUnmount(prep[i]) && Target(prep[i]) == targets[i]
    {
      MountShape(root, i);
    }
    forall i | 0 <= i < 4 ensures tear[i] == Umount(targets[3 - i]) {
    }
    assert prep[4].args[0] == "chroot";
  }

  lemma MountShape(root: string, i: nat)
    requires i < 4
    ensures var m := PreparationCommands(root)[i];
            IsMount(m) && !IsUnmount(m) && Target(m) == MountTargets(root)[i]
  {
    assert "mount" != "umount";
    if i == 0 {
    } else if i == 1 {
    } else if i == 2 {
    } else {
    }
  }

  /** The content `setup` writes to /usr/sbin/policy-rc.d (the dedented
      triple-quoted literal, which starts with a newline). */
  const PolicyScript: string := "\n#!/bin/sh\nexit 101\n"

  /** The four commands of `setup`, each run inside the chroot. */
  function SetupCommands(root: string): seq<Command> {
    [ InChroot(Command(["dd", "of=/usr/sbin/policy-rc.d"], Some(PolicyScript)), root),
      InChroot(Command(["chmod", "a+x", "/usr/sbin/policy-rc.d"], None), root),
      InChroot(Command(["dpkg-divert", "--divert", "/usr/bin/ischroot.debianutils",
                        "--rename", "/usr/bin/ischroot"], None), root),
      InChroot(Command(["ln", "-s", "/bin/true", "/usr/bin/ischroot"], None), root) ]
  }

  /** `Chroot._to_internal_commands`: every argument list rebound into the
      chroot, in order, without stdin. */
  function Internal(root: string, argLists: seq<seq<string>>): (r: seq<Command>)
    ensures |r| == |argLists|
    ensures forall i :: 0 <= i < |r| ==> r[i] == InChroot(Command(argLists[i], None), root)
  {
    if argLists == [] then []
    else [InChroot(Command(argLists[0], None), root)] + Internal(root, argLists[1..])
  }

  /** The interactive command of `enter`: `chroot root` plus the arguments. */
  function Interactive(root: string, args: seq<string>): Command {
    InChroot(Command(args, None), root)
  }

  // ---------------------------------------------------------------------
  // The operations

  /** `Chroot.teardown`: every unmount, whatever their results. The oracle
      is unused (no result is read) and kept to match `Prepare` and `Start`. */
  function Teardown(o: Oracle, p: Proc, c: Layout): Proc {
    Anyway(o, p, c.teardown)
  }

  /** `Chroot.prepare`: the preparation commands, fail-fast; on a failure
      the whole teardown runs and the process dies. */
  function Prepare(o: Oracle, p: Proc, c: Layout): Proc
    requires p.Running() && |c.preparation| > 0
  {
    var run := TillSuccess(o, p, c.preparation);
    if run.1.Failed() then Die(Teardown(o, run.0, c), run.1) else run.0
  }

  /** `Chroot.stop`: every stop hook (already rebound into the chroot),
      whatever their results, then the teardown. The oracle is unused and
      kept to match `Prepare` and `Start`. */
  function Stop(o: Oracle, p: Proc, c: Layout, stops: seq<Command>): Proc {
    Teardown(o, Anyway(o, p, stops), c)
  }

  /** `Chroot.start`: prepare, then the start hooks inside the chroot. */
  function Start(o: Oracle, p: Proc, c: Layout, hooks: seq<Command>, stops: seq<Command>): Proc
    requires p.Running() && |c.preparation| > 0
  {
    var prepared := Prepare(o, p, c);
    if !prepared.Running() then prepared else StartHooks(o, prepared, c, hooks, stops)
  }

  /** The second half of `Chroot.start`: the start hooks, fail-fast; a
      failing hook triggers `stop` and the process dies. With no start hooks
      `run_till_success([])` raises, which ends the process. */
  function StartHooks(o: Oracle, p: Proc, c: Layout, hooks: seq<Command>, stops: seq<Command>): Proc
    requires p.Running()
  {
    if hooks == [] then Crash(p)
    else
      var run := TillSuccess(o, p, hooks);
      if run.1.Failed() then Die(Stop(o, run.0, c, stops), run.1) else run.0
  }

  /** `Chroot.start` as evidently intended: with no start hooks there is
      nothing to fail, so the prepared chroot stays up, as it does after
      hooks that all succeed. */
  function StartCorrected(o: Oracle, p: Proc, c: Layout, hooks: seq<Command>, stops: seq<Command>): Proc
    requires p.Running() && |c.preparation| > 0
  {
    var prepared := Prepare(o, p, c);
    if !prepared.Running() || hooks == [] then prepared else StartHooks(o, prepared, c, hooks, stops)
  }

  /** `enter`: prepare, the interactive command (its result is ignored),
      then the teardown. */
  function Enter(o: Oracle, p: Proc, c: Layout, args: seq<string>): Proc
    requires p.Running() && |c.preparation| > 0
  {
    var prepared := Prepare(o, p, c);
    if !prepared.Running() then prepared
    else Teardown(o, RunOne(o, prepared, Interactive(c.root, args)).0, c)
  }

  /** `setup`: the four setup commands inside the chroot; the first failure
      kills the process, so no later command runs. */
  function Setup(o: Oracle, p: Proc, root: string): Proc
    requires p.Running()
  {
    var run := TillSuccess(o, p, SetupCommands(root));
    if run.1.Failed() then Die(run.0, run.1) else run.0
  }
}
