/** What the lifecycle operations guarantee about the commands they spawn,
    stated for every behaviour of the spawned processes (every oracle). */
module LifecycleProperties {
  import opened Wrappers
  import opened Commands
  import opened Sequencing
  import opened Lifecycle
  import Paths

  /** The commands spawned between two states of the process. */
  function Ran(p: Proc, q: Proc): seq<Command>
    requires |p.trace| <= |q.trace|
  {
    q.trace[|p.trace|..]
  }

  /** The teardown runs once, as the very last thing: the commands end with
      the four unmounts and nothing before them unmounts. */
  ghost predicate EndsWithSingleTeardown(ran: seq<Command>, c: Layout) {
    && |ran| >= 4
    && ran[|ran| - 4..] == c.teardown
    && forall i :: 0 <= i < |ran| - 4 ==> !IsUnmount(ran[i])
  }

  ghost predicate NoUnmount(ran: seq<Command>) {
    forall i :: 0 <= i < |ran| ==> !IsUnmount(ran[i])
  }

  /** Every `mount` command is followed later by an unmount of the same mount
      point; whether that unmount succeeds is not part of the trace. What a
      command run inside the chroot mounts is not seen. */
  ghost predicate Released(ran: seq<Command>) {
    forall i :: 0 <= i < |ran| && IsMount(ran[i]) ==>
      exists j :: i < j < |ran| && ran[j] == Umount(Target(ran[i]))
  }

  /** Every mount is of one of the chroot's four mount points. */
  ghost predicate MountsAmong(ran: seq<Command>, root: string) {
    forall i :: 0 <= i < |ran| && IsMount(ran[i]) ==> Target(ran[i]) in MountTargets(root)
  }

  /** The process is still running, or it exited with status 1. */
  predicate ExitsWithOne(q: Proc) {
    q.exit == None || q.exit == Some(1)
  }

  // ---------------------------------------------------------------------
  // The fixed command lists

  /** The four mount points are distinct, so the teardown unmounts each of
      them exactly once. */
  lemma MountTargetsDistinct(root: string)
    ensures forall i, j :: 0 <= i < j < 4 ==> MountTargets(root)[i] != MountTargets(root)[j]
  {
    var d := Paths.Dir(root);
    assert ProcPath(root) == d + "proc" && SysPath(root) == d + "sys" && DevPath(root) == d + "dev";
    assert |DevPtsPath(root)| == |d| + 7;
    assert SysPath(root)[|d| + 2] == 's' && DevPath(root)[|d| + 2] == 'v';
  }

  /** Commands that are not themselves `mount` or `umount` commands. A
      rebound hook is one even when what it runs inside the chroot mounts
      something; such mounts are outside this model. */
  ghost predicate Confined(cmds: seq<Command>) {
    forall i :: 0 <= i < |cmds| ==> !IsMount(cmds[i]) && !IsUnmount(cmds[i])
  }

  /** Commands rebound into the chroot start with `chroot`, so they are
      never themselves `mount` or `umount` commands. */
  lemma InternalConfined(root: string, argLists: seq<seq<string>>)
    ensures Confined(Internal(root, argLists))
  {
  }

  lemma ConfinedNeitherUnmountsNorMounts(cmds: seq<Command>, root: string)
    requires Confined(cmds)
    ensures NoUnmount(cmds) && MountsAmong(cmds, root)
  {
  }

  lemma ConfinedAppend(a: seq<Command>, b: seq<Command>)
    requires Confined(a) && Confined(b)
    ensures Confined(a + b)
  {
    forall i | 0 <= i < |a + b| ensures !IsMount((a + b)[i]) && !IsUnmount((a + b)[i]) {
      if i >= |a| { assert (a + b)[i] == b[i - |a|]; }
    }
  }

  lemma MountsAmongAppend(a: seq<Command>, b: seq<Command>, root: string)
    requires MountsAmong(a, root) && MountsAmong(b, root)
    ensures MountsAmong(a + b, root)
  {
    forall i | 0 <= i < |a + b| && IsMount((a + b)[i])
      ensures Target((a + b)[i]) in MountTargets(root)
    {
      if i >= |a| { assert (a + b)[i] == b[i - |a|]; }
    }
  }

  lemma PreparationMountsAmong(c: Layout, n: nat)
    requires WellFormed(c) && n <= 5
    ensures MountsAmong(c.preparation[..n], c.root)
  {
    var prep := c.preparation;
    forall i | 0 <= i < n && IsMount(prep[..n][i])
      ensures Target(prep[..n][i]) in MountTargets(c.root)
    {
      assert prep[..n][i] == prep[i];
      assert i < 4;
      assert Target(prep[i]) == MountTargets(c.root)[i];
    }
  }

  /** Whatever was spawned before the teardown, if its mounts are of the
      chroot's mount points then the teardown spawns an unmount of each. */
  lemma {:induction false} ReleasedByTeardown(a: seq<Command>, c: Layout)
    requires WellFormed(c) && MountsAmong(a, c.root)
    ensures Released(a + c.teardown)
  {
    var root := c.root;
    var tear := c.teardown;
    var ran := a + tear;
    forall i | 0 <= i < |ran| && IsMount(ran[i])
      ensures exists j :: i < j < |ran| && ran[j] == Umount(Target(ran[i]))
    {
      if i < |a| {
        assert ran[i] == a[i];
        var targets := MountTargets(root);
        var m :| 0 <= m < 4 && targets[m] == Target(a[i]);
        var j := |a| + 3 - m;
        assert ran[j] == tear[3 - m] == Umount(targets[m]);
      } else {
        assert false;
      }
    }
  }

  /** The teardown, appended to commands that do not unmount, is the single
      teardown at the end. */
  lemma SingleTeardown(a: seq<Command>, c: Layout)
    requires WellFormed(c) && NoUnmount(a)
    ensures EndsWithSingleTeardown(a + c.teardown, c)
  {
    var ran := a + c.teardown;
    assert ran[|ran| - 4..] == c.teardown;
    forall i | 0 <= i < |ran| - 4 ensures !IsUnmount(ran[i]) {
      assert ran[i] == a[i];
    }
  }

  lemma PreparationNoUnmount(c: Layout, n: nat)
    requires WellFormed(c) && n <= 5
    ensures NoUnmount(c.preparation[..n])
  {
    var prep := c.preparation;
    forall i | 0 <= i < n ensures !IsUnmount(prep[..n][i]) {
      assert prep[..n][i] == prep[i];
    }
  }

  lemma NoUnmountAppend(a: seq<Command>, b: seq<Command>)
    requires NoUnmount(a) && NoUnmount(b)
    ensures NoUnmount(a + b)
  {
    forall i | 0 <= i < |a + b| ensures !IsUnmount((a + b)[i]) {
      if i >= |a| { assert (a + b)[i] == b[i - |a|]; }
    }
  }

  // ---------------------------------------------------------------------
  // What each operation spawns

  /** `prepare`: the preparation commands up to the first failure; on a
      failure the teardown follows and the process dies with the failing
      command's output, otherwise nothing else happens. */
  lemma PrepareOutcome(o: Oracle, p: Proc, c: Layout)
    requires p.Running() && WellFormed(c)
    ensures var prep := c.preparation;
            var k := FirstFailure(o, |p.trace|, prep);
            var q := Prepare(o, p, c);
            && (k < 5 ==> q == Die(p.(trace := p.trace + prep[..k + 1] + c.teardown),
                                   o(|p.trace| + k, prep[k])))
            && (k == 5 ==> q == p.(trace := p.trace + prep))
  {
    if FirstFailure(o, |p.trace|, c.preparation) < 5 {
      PrepareFails(o, p, c);
    } else {
      PrepareSucceeds(o, p, c);
    }
  }

  lemma PrepareFails(o: Oracle, p: Proc, c: Layout)
    requires p.Running() && |c.preparation| == 5 && FirstFailure(o, |p.trace|, c.preparation) < 5
    ensures var k := FirstFailure(o, |p.trace|, c.preparation);
            Prepare(o, p, c) == Die(p.(trace := p.trace + c.preparation[..k + 1] + c.teardown),
                                    o(|p.trace| + k, c.preparation[k]))
  {
    TillSuccessFails(o, p, c.preparation);
  }

  lemma PrepareSucceeds(o: Oracle, p: Proc, c: Layout)
    requires p.Running() && |c.preparation| == 5 && FirstFailure(o, |p.trace|, c.preparation) == 5
    ensures Prepare(o, p, c) == p.(trace := p.trace + c.preparation)
  {
    TillSuccessSucceeds(o, p, c.preparation);
  }

  /** The hooks of `start`. With none the process ends without a
      teardown. Otherwise they run up to the first failure; a failure runs
      every stop hook and the teardown, and the process dies with the
      failing hook's output. */
  lemma StartHooksOutcome(o: Oracle, p: Proc, c: Layout, hooks: seq<Command>, stops: seq<Command>)
    requires p.Running()
    ensures var j := FirstFailure(o, |p.trace|, hooks);
            var q := StartHooks(o, p, c, hooks, stops);
            && (hooks == [] ==> q == p.(exit := Some(1)))
            && (j < |hooks| ==>
                  q == Die(p.(trace := p.trace + hooks[..j + 1] + stops + c.teardown),
                           o(|p.trace| + j, hooks[j])))
            && (hooks != [] && j == |hooks| ==> q == p.(trace := p.trace + hooks))
  {
    if hooks != [] {
      var j := FirstFailure(o, |p.trace|, hooks);
      if j < |hooks| {
        HookFailureOutcome(o, p, c, hooks, stops);
      } else {
        HooksSucceedOutcome(o, p, c, hooks, stops);
      }
    }
  }

  lemma HookFailureOutcome(o: Oracle, p: Proc, c: Layout, hooks: seq<Command>, stops: seq<Command>)
    requires p.Running() && FirstFailure(o, |p.trace|, hooks) < |hooks|
    ensures var j := FirstFailure(o, |p.trace|, hooks);
            StartHooks(o, p, c, hooks, stops)
              == Die(p.(trace := p.trace + hooks[..j + 1] + stops + c.teardown), o(|p.trace| + j, hooks[j]))
  {
    TillSuccessFails(o, p, hooks);
  }

  lemma HooksSucceedOutcome(o: Oracle, p: Proc, c: Layout, hooks: seq<Command>, stops: seq<Command>)
    requires p.Running() && hooks != [] && FirstFailure(o, |p.trace|, hooks) == |hooks|
    ensures StartHooks(o, p, c, hooks, stops) == p.(trace := p.trace + hooks)
  {
    TillSuccessSucceeds(o, p, hooks);
  }

  /** `start`. If preparing fails, no hook runs; otherwise the hooks run
      as above, after the whole preparation. */
  lemma StartOutcome(o: Oracle, p: Proc, c: Layout, hooks: seq<Command>, stops: seq<Command>)
    requires p.Running() && WellFormed(c)
    ensures var k := FirstFailure(o, |p.trace|, c.preparation);
            var q := Start(o, p, c, hooks, stops);
            && (k < 5 ==> q == Prepare(o, p, c) && !q.Running())
            && (k == 5 ==> q == StartHooks(o, p.(trace := p.trace + c.preparation), c, hooks, stops))
  {
    if FirstFailure(o, |p.trace|, c.preparation) < 5 {
      PrepareFails(o, p, c);
    } else {
      PrepareSucceeds(o, p, c);
    }
  }

  /** `enter`. If preparing fails the interactive command never runs;
      otherwise it runs between the preparation and the teardown. */
  lemma EnterOutcome(o: Oracle, p: Proc, c: Layout, args: seq<string>)
    requires p.Running() && WellFormed(c)
    ensures var k := FirstFailure(o, |p.trace|, c.preparation);
            var q := Enter(o, p, c, args);
            && (k < 5 ==> q == Prepare(o, p, c))
            && (k == 5 ==> q == p.(trace := p.trace + c.preparation + [Interactive(c.root, args)] + c.teardown))
  {
    if FirstFailure(o, |p.trace|, c.preparation) < 5 {
      PrepareFails(o, p, c);
    } else {
      PrepareSucceeds(o, p, c);
    }
  }

  /** `setup`: its commands in order up to the first failure, which kills
      the process; none runs after it. */
  lemma SetupOutcome(o: Oracle, p: Proc, root: string)
    requires p.Running()
    ensures var cmds := SetupCommands(root);
            var k := FirstFailure(o, |p.trace|, cmds);
            var q := Setup(o, p, root);
            && (k < 4 ==> q == Die(p.(trace := p.trace + cmds[..k + 1]), o(|p.trace| + k, cmds[k])))
            && (k == 4 ==> q == p.(trace := p.trace + cmds))
  {
    var cmds := SetupCommands(root);
    if FirstFailure(o, |p.trace|, cmds) < 4 {
      TillSuccessFails(o, p, cmds);
    } else {
      TillSuccessSucceeds(o, p, cmds);
    }
  }

  // ---------------------------------------------------------------------
  // Guarantees

  /** "die" is the only way these operations end the process apart from
      the unbound result of `start` without hooks, and both mean exit
      status 1; `stop` never ends it. */
  lemma ExitStatusIsOne(o: Oracle, p: Proc, c: Layout, hooks: seq<Command>, stops: seq<Command>,
                        args: seq<string>)
    requires p.Running() && WellFormed(c)
    ensures ExitsWithOne(Prepare(o, p, c))
    ensures ExitsWithOne(Start(o, p, c, hooks, stops))
    ensures Stop(o, p, c, stops).exit == None
    ensures ExitsWithOne(Enter(o, p, c, args))
    ensures ExitsWithOne(Setup(o, p, c.root))
  {
    PrepareExitStatus(o, p, c);
    StartExitStatus(o, p, c, hooks, stops);
    EnterExitStatus(o, p, c, args);
    SetupOutcome(o, p, c.root);
  }

  lemma PrepareExitStatus(o: Oracle, p: Proc, c: Layout)
    requires p.Running() && WellFormed(c)
    ensures ExitsWithOne(Prepare(o, p, c))
  {
    PrepareOutcome(o, p, c);
  }

  lemma StartExitStatus(o: Oracle, p: Proc, c: Layout, hooks: seq<Command>, stops: seq<Command>)
    requires p.Running() && WellFormed(c)
    ensures ExitsWithOne(Start(o, p, c, hooks, stops))
  {
    StartOutcome(o, p, c, hooks, stops);
    PrepareExitStatus(o, p, c);
    StartHooksOutcome(o, p.(trace := p.trace + c.preparation), c, hooks, stops);
  }

  lemma EnterExitStatus(o: Oracle, p: Proc, c: Layout, args: seq<string>)
    requires p.Running() && WellFormed(c)
    ensures ExitsWithOne(Enter(o, p, c, args))
  {
    EnterOutcome(o, p, c, args);
    PrepareOutcome(o, p, c);
  }

  /** `prepare` tears down exactly when it fails: then the single teardown
      is the last thing it spawns and every mount it made is followed by
      its unmount. */
  lemma PrepareTearsDownOnlyOnFailure(o: Oracle, p: Proc, c: Layout)
    requires p.Running() && WellFormed(c)
    ensures var q := Prepare(o, p, c);
            && |p.trace| <= |q.trace|
            && (!q.Running() ==> EndsWithSingleTeardown(Ran(p, q), c) && Released(Ran(p, q)))
            && (q.Running() ==> NoUnmount(Ran(p, q)))
  {
    if FirstFailure(o, |p.trace|, c.preparation) < 5 {
      PrepareFailureTearsDown(o, p, c);
    } else {
      PrepareSuccessKeepsMounts(o, p, c);
    }
  }

  lemma PrepareFailureTearsDown(o: Oracle, p: Proc, c: Layout)
    requires p.Running() && WellFormed(c) && FirstFailure(o, |p.trace|, c.preparation) < 5
    ensures var q := Prepare(o, p, c);
            && |p.trace| <= |q.trace| && !q.Running()
            && EndsWithSingleTeardown(Ran(p, q), c) && Released(Ran(p, q))
  {
    PrepareFails(o, p, c);
    FailedPreparationRan(p, Prepare(o, p, c), c, FirstFailure(o, |p.trace|, c.preparation) + 1);
  }

  lemma FailedPreparationRan(p: Proc, q: Proc, c: Layout, n: nat)
    requires WellFormed(c) && n <= 5 && q.trace == p.trace + c.preparation[..n] + c.teardown
    ensures |p.trace| <= |q.trace| && EndsWithSingleTeardown(Ran(p, q), c) && Released(Ran(p, q))
  {
    assert Ran(p, q) == c.preparation[..n] + c.teardown;
    PreparationFailureSpawns(c, n);
  }

  /** What a failed preparation leaves spawned: the preparation commands
      up to the failing one, then the teardown. */
  lemma PreparationFailureSpawns(c: Layout, n: nat)
    requires WellFormed(c) && n <= 5
    ensures var ran := c.preparation[..n] + c.teardown;
            EndsWithSingleTeardown(ran, c) && Released(ran)
  {
    assert c.preparation[..n] + [] + c.teardown == c.preparation[..n] + c.teardown;
    PreparedThenTornDown(c, n, []);
  }

  lemma PrepareSuccessKeepsMounts(o: Oracle, p: Proc, c: Layout)
    requires p.Running() && WellFormed(c) && FirstFailure(o, |p.trace|, c.preparation) == 5
    ensures var q := Prepare(o, p, c);
            && |p.trace| <= |q.trace| && q.Running() && NoUnmount(Ran(p, q))
  {
    var q := Prepare(o, p, c);
    PrepareSucceeds(o, p, c);
    assert Ran(p, q) == c.preparation[..5];
    PreparationNoUnmount(c, 5);
  }

  /** `stop` runs every stop hook, whatever their results, and then the
      teardown exactly once, changing nothing else. */
  lemma StopTearsDownOnce(o: Oracle, p: Proc, c: Layout, stops: seq<Command>)
    requires WellFormed(c) && Confined(stops)
    ensures var q := Stop(o, p, c, stops);
            && q.trace == p.trace + stops + c.teardown
            && q.exit == p.exit && q.stdout == p.stdout && q.stderr == p.stderr
            && EndsWithSingleTeardown(Ran(p, q), c)
  {
    var q := Stop(o, p, c, stops);
    assert Ran(p, q) == stops + c.teardown;
    SingleTeardown(stops, c);
  }

  /** A missing `stop` key means no stop hooks: `stop` is the bare teardown. */
  lemma StopWithoutHooks(o: Oracle, p: Proc, c: Layout, cfg: Config)
    requires cfg.stop.None?
    ensures var q := Stop(o, p, c, Internal(c.root, HookList(cfg.stop)));
            |p.trace| <= |q.trace| && Ran(p, q) == c.teardown
  {
    var q := Stop(o, p, c, Internal(c.root, HookList(cfg.stop)));
    assert q.trace == p.trace + c.teardown;
  }

  /** Preparation, then commands that neither mount nor unmount, then the
      teardown: the teardown is single and last, and follows every mount with its
      unmount. */
  lemma PreparedThenTornDown(c: Layout, n: nat, middle: seq<Command>)
    requires WellFormed(c) && n <= 5 && Confined(middle)
    ensures var ran := c.preparation[..n] + middle + c.teardown;
            EndsWithSingleTeardown(ran, c) && Released(ran)
  {
    var a := c.preparation[..n] + middle;
    ConfinedNeitherUnmountsNorMounts(middle, c.root);
    PreparationNoUnmount(c, n);
    PreparationMountsAmong(c, n);
    NoUnmountAppend(c.preparation[..n], middle);
    MountsAmongAppend(c.preparation[..n], middle, c.root);
    SingleTeardown(a, c);
    ReleasedByTeardown(a, c);
  }

  /** `start` tears down on the failure paths of preparing and of the
      hooks, once and last, following every mount with its unmount; when
      it succeeds it unmounts nothing and leaves the chroot mounted. */
  lemma StartTearsDownOnFailure(o: Oracle, p: Proc, c: Layout, hooks: seq<Command>, stops: seq<Command>)
    requires p.Running() && WellFormed(c) && Confined(hooks) && Confined(stops)
    ensures var q := Start(o, p, c, hooks, stops);
            && |p.trace| <= |q.trace|
            && (!q.Running() && hooks != [] ==>
                  EndsWithSingleTeardown(Ran(p, q), c) && Released(Ran(p, q)))
            && (q.Running() ==> NoUnmount(Ran(p, q)))
  {
    var k := FirstFailure(o, |p.trace|, c.preparation);
    StartOutcome(o, p, c, hooks, stops);
    if k < 5 {
      PrepareTearsDownOnlyOnFailure(o, p, c);
    } else {
      StartHooksTearDown(o, p, c, hooks, stops);
    }
  }

  /** The case of `StartTearsDownOnFailure` where preparing succeeded. */
  lemma StartHooksTearDown(o: Oracle, p: Proc, c: Layout, hooks: seq<Command>, stops: seq<Command>)
    requires p.Running() && WellFormed(c) && Confined(hooks) && Confined(stops)
    ensures var q := StartHooks(o, p.(trace := p.trace + c.preparation), c, hooks, stops);
            && |p.trace| <= |q.trace|
            && (!q.Running() && hooks != [] ==>
                  EndsWithSingleTeardown(Ran(p, q), c) && Released(Ran(p, q)))
            && (q.Running() ==> NoUnmount(Ran(p, q)))
  {
    var prepared := p.(trace := p.trace + c.preparation);
    if hooks != [] {
      if FirstFailure(o, |prepared.trace|, hooks) < |hooks| {
        HookFailureTearsDown(o, p, c, hooks, stops);
      } else {
        HooksSucceedKeepMounts(o, p, c, hooks, stops);
      }
    }
  }

  lemma HookFailureTearsDown(o: Oracle, p: Proc, c: Layout, hooks: seq<Command>, stops: seq<Command>)
    requires p.Running() && WellFormed(c) && Confined(hooks) && Confined(stops)
    requires FirstFailure(o, |p.trace| + |c.preparation|, hooks) < |hooks|
    ensures var q := StartHooks(o, p.(trace := p.trace + c.preparation), c, hooks, stops);
            && |p.trace| <= |q.trace| && !q.Running()
            && EndsWithSingleTeardown(Ran(p, q), c) && Released(Ran(p, q))
  {
    var prepared := p.(trace := p.trace + c.preparation);
    var j := FirstFailure(o, |prepared.trace|, hooks);
    var q := StartHooks(o, prepared, c, hooks, stops);
    HookFailureOutcome(o, prepared, c, hooks, stops);
    assert Ran(p, q) == c.preparation + hooks[..j + 1] + stops + c.teardown;
    HookFailureSpawns(c, hooks, stops, j);
  }

  /** What a failing hook leaves spawned: the preparation, the hooks up to
      the failing one, the stop hooks and the teardown. */
  lemma HookFailureSpawns(c: Layout, hooks: seq<Command>, stops: seq<Command>, j: nat)
    requires WellFormed(c) && Confined(hooks) && Confined(stops) && j < |hooks|
    ensures var ran := c.preparation + hooks[..j + 1] + stops + c.teardown;
            EndsWithSingleTeardown(ran, c) && Released(ran)
  {
    var head := hooks[..j + 1];
    assert Confined(head) by {
      forall i | 0 <= i < |head| ensures head[i] == hooks[i] { }
    }
    ConfinedAppend(head, stops);
    assert c.preparation[..5] == c.preparation;
    assert c.preparation + head + stops + c.teardown == c.preparation[..5] + (head + stops) + c.teardown;
    PreparedThenTornDown(c, 5, head + stops);
  }

  lemma HooksSucceedKeepMounts(o: Oracle, p: Proc, c: Layout, hooks: seq<Command>, stops: seq<Command>)
    requires p.Running() && WellFormed(c) && Confined(hooks) && hooks != []
    requires FirstFailure(o, |p.trace| + |c.preparation|, hooks) == |hooks|
    ensures var q := StartHooks(o, p.(trace := p.trace + c.preparation), c, hooks, stops);
            && |p.trace| <= |q.trace| && q.Running() && NoUnmount(Ran(p, q))
  {
    var prep := c.preparation;
    var prepared := p.(trace := p.trace + prep);
    var q := StartHooks(o, prepared, c, hooks, stops);
    HooksSucceedOutcome(o, prepared, c, hooks, stops);
    assert Ran(p, q) == prep + hooks;
    ConfinedNeitherUnmountsNorMounts(hooks, c.root);
    PreparationNoUnmount(c, 5);
    assert prep[..5] == prep;
    NoUnmountAppend(prep, hooks);
  }

  /** A successful `start` followed by `stop` spawns an unmount after every
      mount that `start` made, and the teardown runs once, at the end. */
  lemma StartThenStopReleasesMounts(o: Oracle, p: Proc, c: Layout, hooks: seq<Command>, stops: seq<Command>)
    requires p.Running() && WellFormed(c) && Confined(hooks) && Confined(stops)
    ensures var q := Start(o, p, c, hooks, stops);
            var s := Stop(o, q, c, stops);
            && |p.trace| <= |s.trace|
            && (q.Running() ==> Released(Ran(p, s)) && EndsWithSingleTeardown(Ran(p, s), c))
  {
    var k := FirstFailure(o, |p.trace|, c.preparation);
    var q := Start(o, p, c, hooks, stops);
    StartOutcome(o, p, c, hooks, stops);
    StopTearsDownOnce(o, q, c, stops);
    if k < 5 {
      PrepareTearsDownOnlyOnFailure(o, p, c);
    } else {
      StartHooksThenStop(o, p, c, hooks, stops);
    }
  }

  /** The case of `StartThenStopReleasesMounts` where preparing succeeded. */
  lemma StartHooksThenStop(o: Oracle, p: Proc, c: Layout, hooks: seq<Command>, stops: seq<Command>)
    requires p.Running() && WellFormed(c) && Confined(hooks) && Confined(stops)
    ensures var q := StartHooks(o, p.(trace := p.trace + c.preparation), c, hooks, stops);
            var s := Stop(o, q, c, stops);
            && |p.trace| <= |s.trace|
            && (q.Running() ==> Released(Ran(p, s)) && EndsWithSingleTeardown(Ran(p, s), c))
  {
    var prep := c.preparation;
    var prepared := p.(trace := p.trace + prep);
    var q := StartHooks(o, prepared, c, hooks, stops);
    var s := Stop(o, q, c, stops);
    StartHooksOutcome(o, prepared, c, hooks, stops);
    StopTearsDownOnce(o, q, c, stops);
    if q.Running() {
      assert q.trace == p.trace + prep + hooks;
      assert prep[..5] == prep;
      assert Ran(p, s) == prep[..5] + (hooks + stops) + c.teardown;
      ConfinedAppend(hooks, stops);
      PreparedThenTornDown(c, 5, hooks + stops);
    }
  }

  /** `enter` always ends with the single teardown, whether preparing
      failed or the interactive command returned, and every mount it made
      is followed by its unmount; the interactive command runs, right after the whole
      preparation, exactly when preparing succeeded. */
  lemma EnterAlwaysTearsDown(o: Oracle, p: Proc, c: Layout, args: seq<string>)
    requires p.Running() && WellFormed(c)
    ensures var q := Enter(o, p, c, args);
            && |p.trace| <= |q.trace|
            && EndsWithSingleTeardown(Ran(p, q), c)
            && Released(Ran(p, q))
            && (q.Running() <==> Ran(p, q) == c.preparation + [Interactive(c.root, args)] + c.teardown)
  {
    if FirstFailure(o, |p.trace|, c.preparation) < 5 {
      EnterFailsTearsDown(o, p, c, args);
    } else {
      EnterSucceedsTearsDown(o, p, c, args);
    }
  }

  /** When preparing fails, `enter` spawns only the preparation up to the
      failing command and the teardown. The interactive command is not
      among them, although it cannot be told apart by its value alone:
      `enter` with the arguments `rm -f /etc/mtab` spawns the same command
      as the fifth preparation step. What tells the two outcomes apart is
      the length: fewer than the ten commands of a successful `enter`. */
  lemma EnterFailsTearsDown(o: Oracle, p: Proc, c: Layout, args: seq<string>)
    requires p.Running() && WellFormed(c) && FirstFailure(o, |p.trace|, c.preparation) < 5
    ensures var q := Enter(o, p, c, args);
            var k := FirstFailure(o, |p.trace|, c.preparation);
            && |p.trace| <= |q.trace| && !q.Running()
            && Ran(p, q) == c.preparation[..k + 1] + c.teardown
            && EndsWithSingleTeardown(Ran(p, q), c) && Released(Ran(p, q))
            && |Ran(p, q)| < |c.preparation + [Interactive(c.root, args)] + c.teardown|
  {
    var k := FirstFailure(o, |p.trace|, c.preparation);
    PrepareFails(o, p, c);
    var q := Enter(o, p, c, args);
    assert q == Prepare(o, p, c);
    FailedPreparationRan(p, q, c, k + 1);
  }

  lemma EnterSucceedsTearsDown(o: Oracle, p: Proc, c: Layout, args: seq<string>)
    requires p.Running() && WellFormed(c) && FirstFailure(o, |p.trace|, c.preparation) == 5
    ensures var q := Enter(o, p, c, args);
            && |p.trace| <= |q.trace| && q.Running()
            && Ran(p, q) == c.preparation + [Interactive(c.root, args)] + c.teardown
            && EndsWithSingleTeardown(Ran(p, q), c) && Released(Ran(p, q))
  {
    var prep := c.preparation;
    var shell := Interactive(c.root, args);
    PrepareSucceeds(o, p, c);
    var q := Enter(o, p, c, args);
    assert q.trace == p.trace + prep + [shell] + c.teardown;
    assert prep == prep[..5];
    assert Ran(p, q) == prep[..5] + [shell] + c.teardown;
    assert shell.args[0] == "chroot";
    assert Confined([shell]);
    PreparedThenTornDown(c, 5, [shell]);
  }

  // ---------------------------------------------------------------------
  // `start` without start hooks

  /** With no start hooks (which includes a chroot without a configuration
      file, whose configuration is empty), a successful preparation is
      followed by the error of `run_till_success([])`: the process ends
      with status 1 while all four mounts are still in place. */
  lemma StartWithoutHooksLeavesMounts(o: Oracle, p: Proc, root: string)
    requires p.Running()
    requires FirstFailure(o, |p.trace|, LayoutOf(root).preparation) == 5
    ensures var c := LayoutOf(root);
            var q := Start(o, p, c, Internal(root, HookList(Config(None, None).start)), []);
            && q.exit == Some(1)
            && |p.trace| <= |q.trace|
            && Ran(p, q) == c.preparation
            && IsMount(Ran(p, q)[0])
            && !Released(Ran(p, q))
  {
    var c := LayoutOf(root);
    PrepareSucceeds(o, p, c);
    var q := Start(o, p, c, [], []);
    assert q == p.(trace := p.trace + c.preparation).(exit := Some(1));
    PreparationNoUnmount(c, 5);
    assert c.preparation[..5] == c.preparation;
    NotReleased(c.preparation);
  }

  /** Commands that mount but never unmount leave a mount without a later
      unmount. */
  lemma NotReleased(ran: seq<Command>)
    requires |ran| > 0 && IsMount(ran[0]) && NoUnmount(ran)
    ensures !Released(ran)
  {
    assert IsUnmount(Umount(Target(ran[0])));
  }

  /** The corrected `start` ends the process only after the single final
      teardown, which follows every mount with its unmount, whatever the hooks; when it
      keeps running it has unmounted nothing. */
  lemma StartCorrectedTearsDownOnFailure(o: Oracle, p: Proc, c: Layout, hooks: seq<Command>,
                                         stops: seq<Command>)
    requires p.Running() && WellFormed(c) && Confined(hooks) && Confined(stops)
    ensures var q := StartCorrected(o, p, c, hooks, stops);
            && |p.trace| <= |q.trace|
            && (!q.Running() ==> EndsWithSingleTeardown(Ran(p, q), c) && Released(Ran(p, q)))
            && (q.Running() ==> NoUnmount(Ran(p, q)))
  {
    if hooks == [] {
      PrepareTearsDownOnlyOnFailure(o, p, c);
    } else {
      StartTearsDownOnFailure(o, p, c, hooks, stops);
    }
  }

  /** A corrected `start` that keeps running, followed by `stop`, follows
      every mount with its unmount, with the teardown once and last. */
  lemma StartCorrectedThenStop(o: Oracle, p: Proc, c: Layout, hooks: seq<Command>, stops: seq<Command>)
    requires p.Running() && WellFormed(c) && Confined(hooks) && Confined(stops)
    ensures var q := StartCorrected(o, p, c, hooks, stops);
            var s := Stop(o, q, c, stops);
            && |p.trace| <= |s.trace|
            && (q.Running() ==> Released(Ran(p, s)) && EndsWithSingleTeardown(Ran(p, s), c))
  {
    if hooks == [] {
      var q := StartCorrected(o, p, c, hooks, stops);
      if FirstFailure(o, |p.trace|, c.preparation) == 5 {
        PrepareSucceeds(o, p, c);
        var s := Stop(o, q, c, stops);
        assert c.preparation[..5] == c.preparation;
        assert Ran(p, s) == c.preparation[..5] + stops + c.teardown;
        PreparedThenTornDown(c, 5, stops);
      } else {
        PrepareFails(o, p, c);
      }
    } else {
      StartThenStopReleasesMounts(o, p, c, hooks, stops);
    }
  }
}
