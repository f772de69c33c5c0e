# chroot-scripts: the chroot lifecycle and the backup retention, in Dafny

chroot-scripts manages Debian chroots used as light containers. Before
anything runs inside a chroot, `chroot_lib.py` mounts `/proc`, `/sys`,
`/dev` and `/dev/pts` into it. Afterwards it unmounts them. Its `Chroot`
class runs external commands with two policies:

- **fail-fast** (`run_till_success`): stop at the first failing command;
- **run-everything** (`run_anyway`): run every command whatever the results.

On top of these, `prepare`, `teardown`, `start`, `stop` and `enter` tear
the chroot down on fixed paths. `setup` runs its commands fail-fast and
dies at the first failure without any cleanup. `chroot-backup.py` snapshots
a chroot into numbered directories and prunes old snapshots.

The model has two halves.

**Command sequencing and the mount lifecycle** (`chroot_lib.py`).
- The operating system is an oracle. It gives the result of the `n`-th
  spawned command as a function of `n` and of the command, so it can script
  any behaviour of the spawned processes.
- The calling Python process is a `Host.Process` object. It holds the
  number of commands spawned so far, a ghost trace of them, its exit status
  and what it wrote to stdout and stderr.
- The meaning of each operation is a function from one process state to the
  next: `Sequencing` and `Lifecycle`.
- The imperative methods of `ChrootLib` (the runner loops, the `Chroot`
  class with its fields, `setup` and `enter`) are proved to change the
  process exactly as those functions say.
- `LifecycleProperties` proves what the operations guarantee, for every
  oracle:
  - the order of the spawned commands;
  - nothing is spawned after the first failure;
  - the teardown runs once and last in `stop`, in `enter`, and on every
    failure path of `prepare` and of the start hooks, so an unmount of every
    mount point the preparation mounted is spawned after that mount (whether
    the unmount succeeds, and mounts that hooks perform inside the chroot,
    are not tracked, see "## Left out");
  - one exit path leaves the mounts in place: `start` without start hooks
    (see "## Findings");
  - dying means exit status 1.

**Backup index and retention** (`chroot-backup.py`).
- `IntLiteral` models Python 2 `int()` on directory names and `str()` on
  indexes, and proves `int(str(n)) == n`.
- `Backup` plans a run:
  - the `backups_to_keep >= 1` check;
  - reading the indexes;
  - the new index (`max + 1`, or 0);
  - the predecessor for hard links;
  - the descending retention slice.
- `Pruning` is the backup folder as an object whose set of entries the copy
  step grows and the `rmtree` loop shrinks.

Modules: `Wrappers`, `Paths`, `Commands`, `Sequencing`, `Host`, `Lifecycle`,
`LifecycleProperties`, `ChrootLib`, `IntLiteral`, `Backup`, `Pruning`.

`backups_to_keep` counts the new backup. With backups 0 to 5 and
`backups_to_keep` 3, the script creates backup 6 and then removes 3, 2, 1
and 0 in that order, so 4, 5 and 6 remain (`Backup.RetentionExample`).

## Model

| member | source | states |
|---|---|---|
| Commands.InChroot | chroot_lib.py:30-31 | the rebound command's arguments are `chroot`, the root, then the original arguments; stdin is unchanged |
| Commands.InChrootInjective | chroot_lib.py:30-31 | two rebound commands are equal exactly when their original commands and roots are equal, so rebinding loses nothing |
| Commands.HookList | chroot_lib.py:139 | `config.get(key, [])` for the `start` and `stop` keys: a missing key gives no hooks (also at chroot_lib.py:145); `LifecycleProperties.StopWithoutHooks` states what this means for `stop` |
| Commands.ProcResult.Failed | chroot_lib.py:14-15 | the definition of failure: a return code other than 0. `Sequencing.FirstFailure` and the fail-fast lemmas are stated in terms of it |
| Paths.Join | chroot_lib.py:94-97 | `os.path.join` on POSIX: an absolute component replaces the path, otherwise it is appended after a single '/'. `Paths.JoinRelative` states its properties |
| Paths.JoinRelative | chroot_lib.py:94-97 | joining a relative component keeps the root as a prefix and ends with the component. At most one character sits between them, and it is '/' when the root is not empty |
| Sequencing.FirstFailure | chroot_lib.py:59-64 | the first failing position is within the list; when it is not past the end, the command there fails |
| Sequencing.SucceedsBeforeFirstFailure | chroot_lib.py:59-64 | every command before the first failing position succeeds, so it is the least one |
| Sequencing.TillSuccessFails | chroot_lib.py:49-64 | with a failure, the fail-fast run spawns exactly the commands up to and including the first failing one. It returns that command's failed result and changes nothing else |
| Sequencing.TillSuccessSucceeds | chroot_lib.py:49-64 | without a failure, the fail-fast run spawns every command in order and returns the last, successful result |
| Sequencing.RunOne | chroot_lib.py:49-56 | one step of the lazy `run_commands` generator: the command is spawned and its result is observed |
| Sequencing.TillSuccess | chroot_lib.py:59-64 | the definition of `run_till_success`: stop at the first failed result, otherwise return the last one. `TillSuccessFails` and `TillSuccessSucceeds` give its exact result against `FirstFailure` |
| Sequencing.Anyway | chroot_lib.py:67-69 | the definition of `run_anyway`: every command is spawned in order and the results are discarded |
| Sequencing.Die | chroot_lib.py:17-22 | dying sets exit status 1 and spawns nothing. It appends the captured stderr and stdout to the process's own |
| Sequencing.Crash | chroot_lib.py:59-64 | the uncaught `UnboundLocalError` of `run_till_success([])`: exit status 1, nothing else changes |
| Host.Process.Spawn | chroot_lib.py:49-56 | one step of `run_commands` appends the command to the trace and returns the oracle's answer for it |
| Host.Process.Die | chroot_lib.py:17-22 | `ProcResult.die` changes the process exactly as `Sequencing.Die` says |
| Host.Process.Crash | chroot_lib.py:59-64 | the unbound `result` of an empty fail-fast run ends the process with status 1 and spawns nothing |
| Lifecycle.LayoutOf | chroot_lib.py:92-111 | the preparation list is exactly the four mounts and the in-chroot `rm -f /etc/mtab`. The teardown is the four unmounts of the same mount points in reverse order. Only the first four preparation commands mount |
| Lifecycle.Internal | chroot_lib.py:131-135 | one command per argument list, in order, each rebound into the chroot without stdin |
| Lifecycle.Interactive | chroot_lib.py:160 | the interactive command of `enter`: `chroot`, the root, then the arguments, with the terminal as its streams; `LifecycleProperties.EnterOutcome` places it between the preparation and the teardown |
| Lifecycle.SetupCommands | chroot_lib.py:73-84 | the four commands of `setup` (the policy file written through `dd` with the dedented script on stdin, `chmod`, `dpkg-divert`, `ln -s`), each rebound into the chroot |
| Lifecycle.Teardown | chroot_lib.py:119-120 | the definition of `teardown`: the four unmounts, whatever their results |
| Lifecycle.Prepare | chroot_lib.py:113-117 | the definition of `prepare`; `LifecycleProperties.PrepareOutcome` gives its exact result |
| Lifecycle.Stop | chroot_lib.py:137-141 | the definition of `stop` over the rebound stop hooks; `LifecycleProperties.StopTearsDownOnce` gives its exact result |
| Lifecycle.Start | chroot_lib.py:143-152 | the definition of `start`: prepare, then `StartHooks`; `LifecycleProperties.StartOutcome` gives its exact result |
| Lifecycle.StartHooks | chroot_lib.py:149-152 | the definition of the hook half of `start`, including the crash on an empty hook list; `LifecycleProperties.StartHooksOutcome` gives its exact result |
| Lifecycle.Enter | chroot_lib.py:155-163 | the definition of `enter`; `LifecycleProperties.EnterOutcome` gives its exact result |
| Lifecycle.Setup | chroot_lib.py:72-88 | the definition of `setup`; `LifecycleProperties.SetupOutcome` gives its exact result |
| Lifecycle.StartCorrected | chroot_lib.py:143-152 | `start` as evidently intended: with no start hooks the prepared chroot stays up (see "## Findings") |
| ChrootLib.RunTillSuccess | chroot_lib.py:59-64 | the loop spawns and returns exactly what `Sequencing.TillSuccess` says: nothing after the first failure, which it returns, or else the last result |
| ChrootLib.RunAnyway | chroot_lib.py:67-69 | every command is spawned in order, whatever the results, and the process keeps running |
| ChrootLib.Setup | chroot_lib.py:72-88 | `setup` changes the process exactly as `Lifecycle.Setup` says |
| ChrootLib.RunDyingOnFailure | chroot_lib.py:86-88 | the checking loop of `setup` spawns up to the first failure and dies with that result; otherwise it spawns everything |
| ChrootLib.Chroot.constructor | chroot_lib.py:92-111 | the fields hold exactly the preparation and teardown lists of the root, with the shape above |
| ChrootLib.Chroot.Prepare | chroot_lib.py:113-117 | `prepare` changes the process exactly as `Lifecycle.Prepare` says |
| ChrootLib.Chroot.Teardown | chroot_lib.py:119-120 | `teardown` spawns the four unmounts whatever their results |
| ChrootLib.Chroot.ToInternalCommands | chroot_lib.py:131-135 | the loop yields one rebound command per argument list, in order, with `chroot root` prepended and no stdin |
| ChrootLib.Chroot.Stop | chroot_lib.py:137-141 | `stop` spawns the rebound stop hooks (none when the key is missing), then the teardown, and never ends the process |
| ChrootLib.Chroot.Start | chroot_lib.py:143-152 | `start` changes the process exactly as `Lifecycle.Start` says. The start hooks come from the configuration as first read; the stop hooks come from the configuration that `stop` reads again |
| ChrootLib.Enter | chroot_lib.py:155-163 | `enter` changes the process exactly as `Lifecycle.Enter` says for a freshly built `Chroot` |
| LifecycleProperties.MountTargetsDistinct | chroot_lib.py:94-97 | the four mount points are pairwise distinct |
| LifecycleProperties.InternalConfined | chroot_lib.py:131-135 | rebound hooks are never themselves `mount` or `umount` commands: each starts with `chroot` |
| LifecycleProperties.ReleasedByTeardown | chroot_lib.py:99-111 | in any command list whose `mount` commands are all of the chroot's mount points, an unmount of each of them is spawned after it once the teardown follows |
| LifecycleProperties.PrepareOutcome | chroot_lib.py:113-117 | on a failure, `prepare` spawns the preparation up to the failing command, then the whole teardown, and dies with that command's output. Otherwise it spawns exactly the preparation |
| LifecycleProperties.PrepareFails | chroot_lib.py:113-117 | the failure case of `prepare`: the exact trace and the death with the failing result |
| LifecycleProperties.PrepareSucceeds | chroot_lib.py:113-117 | the success case of `prepare`: exactly the five preparation commands, still running |
| LifecycleProperties.StartHooksOutcome | chroot_lib.py:149-152 | with no hooks, the process ends with no teardown. A failing hook is followed by the stop hooks and the teardown, then death with the hook's output. When every hook succeeds, nothing else is spawned |
| LifecycleProperties.HookFailureOutcome | chroot_lib.py:149-152 | the exact trace and death after a failing start hook |
| LifecycleProperties.HooksSucceedOutcome | chroot_lib.py:149-152 | when every hook succeeds, `start` spawns exactly the hooks after the preparation and tears nothing down |
| LifecycleProperties.StartOutcome | chroot_lib.py:143-152 | when preparing fails, no hook runs and the process has ended. Otherwise the hooks run after the whole preparation |
| LifecycleProperties.EnterOutcome | chroot_lib.py:155-163 | when preparing fails, the interactive command never runs. Otherwise exactly the preparation, the interactive command and the teardown are spawned |
| LifecycleProperties.SetupOutcome | chroot_lib.py:72-88 | `setup` spawns its commands in order up to the first failure and dies with it; no later command runs |
| LifecycleProperties.ExitStatusIsOne | chroot_lib.py:17-22 | `prepare`, `start`, `enter` and `setup` either leave the process running or end it with status 1; `stop` never ends it |
| LifecycleProperties.PrepareExitStatus | chroot_lib.py:113-117 | `prepare` leaves the process running or ends it with status 1 |
| LifecycleProperties.StartExitStatus | chroot_lib.py:143-152 | `start` leaves the process running or ends it with status 1 |
| LifecycleProperties.EnterExitStatus | chroot_lib.py:155-163 | `enter` leaves the process running or ends it with status 1 |
| LifecycleProperties.PrepareTearsDownOnlyOnFailure | chroot_lib.py:113-120 | `prepare` ends the process only after a single teardown, as the last thing spawned, after which an unmount of every mount point the preparation mounted is spawned after it. When it succeeds it unmounts nothing |
| LifecycleProperties.PrepareFailureTearsDown | chroot_lib.py:113-120 | a failed `prepare` ends with the single teardown, and an unmount of every mount point the preparation mounted is spawned after it |
| LifecycleProperties.PrepareSuccessKeepsMounts | chroot_lib.py:113-117 | a successful `prepare` spawns no `umount` command |
| LifecycleProperties.PreparationFailureSpawns | chroot_lib.py:99-117 | any prefix of the preparation followed by the teardown has a single final teardown, and an unmount of every mount point the preparation mounted is spawned after it |
| LifecycleProperties.StopTearsDownOnce | chroot_lib.py:137-141 | `stop` spawns the stop hooks, then the teardown once and last, and changes nothing else about the process |
| LifecycleProperties.StopWithoutHooks | chroot_lib.py:137-141 | a configuration without a `stop` key makes `stop` the bare teardown |
| LifecycleProperties.PreparedThenTornDown | chroot_lib.py:99-111 | a preparation prefix, then commands that are not themselves `mount` or `umount`, then the teardown: the teardown is single and last, and an unmount of every mount point the preparation mounted is spawned after it |
| LifecycleProperties.StartTearsDownOnFailure | chroot_lib.py:143-152 | when `start` ends the process after hooks were configured, the single final teardown was spawned, and an unmount of every mount point the preparation mounted is spawned after it. A running `start` unmounts nothing |
| LifecycleProperties.StartHooksTearDown | chroot_lib.py:149-152 | the same, after a successful preparation |
| LifecycleProperties.HookFailureTearsDown | chroot_lib.py:149-152 | a failing start hook leads to the single final teardown, and an unmount of every mount point the preparation mounted is spawned after it |
| LifecycleProperties.HookFailureSpawns | chroot_lib.py:143-152 | the preparation, hooks up to the failing one, the stop hooks and the teardown: the teardown is single and last, and an unmount of every mount point the preparation mounted is spawned after it |
| LifecycleProperties.HooksSucceedKeepMounts | chroot_lib.py:149-152 | a successful `start` spawns no `umount` command |
| LifecycleProperties.StartThenStopReleasesMounts | chroot_lib.py:137-152 | a successful `start` followed by `stop` spawns the teardown once and last, and an unmount of every mount point the preparation mounted is spawned after it |
| LifecycleProperties.StartHooksThenStop | chroot_lib.py:137-152 | the same, after a successful preparation |
| LifecycleProperties.EnterAlwaysTearsDown | chroot_lib.py:155-163 | `enter` always ends with the single teardown, and an unmount of every mount point the preparation mounted is spawned after it. The process keeps running exactly when it spawned the preparation, the interactive command and the teardown |
| LifecycleProperties.EnterFailsTearsDown | chroot_lib.py:155-158 | when preparing fails, `enter` spawns exactly the preparation up to the failing command and the teardown, and has ended. It spawns fewer commands than a successful `enter`, which tells the two apart even when the interactive command equals the fifth preparation step |
| LifecycleProperties.EnterSucceedsTearsDown | chroot_lib.py:155-163 | when preparing succeeds, `enter` spawns the preparation, the interactive command and the teardown, and keeps running |
| LifecycleProperties.StartWithoutHooksLeavesMounts | chroot_lib.py:143-152 | with no start hooks (also when the chroot has no configuration file) and a successful preparation, the process exits with status 1 having spawned only the preparation: no unmount of the four mounts is ever spawned |
| LifecycleProperties.NotReleased | chroot_lib.py:99-105 | commands that mount and never unmount leave a mount without a later unmount |
| LifecycleProperties.StartCorrectedTearsDownOnFailure | chroot_lib.py:143-152 | the corrected `start` ends the process only after the single final teardown, after which an unmount of every mount point the preparation mounted is spawned after it, for every list of hooks; a running one has unmounted nothing |
| LifecycleProperties.StartCorrectedThenStop | chroot_lib.py:137-152 | a corrected `start` that keeps running, followed by `stop`, spawns the teardown once and last, and an unmount of every mount point the preparation mounted is spawned after it, for every list of hooks |
| IntLiteral.ParseStr | chroot-backup.py:54-58 | `int(str(n)) == n` for every integer, so the directory the script names for an index reads back as that index |
| IntLiteral.ParseInt | chroot-backup.py:54-55 | Python 2 `int()` in base 10 (also used at chroot-backup.py:34): white space, an optional sign that white space may follow, at least one ASCII digit, white space. `ParseStr`, `ParseDigits` and `NoDigitNoInt` state its properties |
| IntLiteral.Str | chroot-backup.py:57-58 | `str()` of an index; it is never empty, and `ParseStr` proves that `int()` reads it back |
| IntLiteral.StrInjective | chroot-backup.py:57-58 | two indexes have the same directory name exactly when they are equal |
| IntLiteral.ParseDigits | chroot-backup.py:54-55 | a plain run of decimal digits reads as its value |
| IntLiteral.NoDigitNoInt | chroot-backup.py:54-55 | a name without a digit, such as `lost+found`, makes `int()` raise |
| IntLiteral.NatStr | chroot-backup.py:57-58 | `str()` of a natural number is a non-empty run of digits |
| Backup.CheckKeep | chroot-backup.py:34-37 | the count is accepted exactly when it is an integer literal of value at least 1; a non-integer is the `int()` error |
| Backup.ParseNames | chroot-backup.py:54-55 | on success, one index per name with `int(name)` equal to it; on failure, a listed name that is not an integer literal (the first one, by `ParseNamesFirstInvalid`) |
| Backup.ParseNamesSucceeds | chroot-backup.py:54-55 | the listing is read exactly when every name is an integer literal |
| Backup.ParseNamesFirstInvalid | chroot-backup.py:54-55 | the name that stops the script is the first one in listing order that is not an integer literal; every name before it reads |
| Backup.Max | chroot-backup.py:62 | the maximum is one of the indexes and at least every index |
| Backup.ToPath | chroot-backup.py:57-58 | `to_path(idx)`: the backup folder joined with `str(idx)`; `PreviousIsNewest` and `PlanBackupCorrect` state the new directory and the predecessor through it |
| Backup.NextIndex | chroot-backup.py:61-65 | the new index: `max + 1`, or 0 without backups; `NextIndexFresh` proves it is above every existing index |
| Backup.Previous | chroot-backup.py:61-66 | `prev_backup`: the path of the new index minus 1, or none without backups; `PreviousIsNewest` proves it is the newest backup |
| Backup.SortDesc | chroot-backup.py:74-75 | `sorted(..., reverse=True)` as an insertion sort; `SortDescCorrect` proves it non-increasing and a permutation |
| Backup.ToRemove | chroot-backup.py:74-75 | the slice `[backups_to_keep - 1:]` of the descending sort; `RetentionPartition` states what it keeps and removes |
| Backup.Kept | chroot-backup.py:74-75 | the old backups the slice skips, the complement of `ToRemove` in the descending sort |
| Backup.PlanBackup | chroot-backup.py:34-75 | `main` up to the removals, with the errors of `check_args` and of `int(dirname)`; `PlanBackupCorrect` states what a plan holds |
| Backup.NextIndexFresh | chroot-backup.py:61-66 | the new index is above every existing index, hence not one of them |
| Backup.PreviousIsNewest | chroot-backup.py:61-66 | there is no predecessor exactly when there are no backups; otherwise it is the path of the newest one |
| Backup.SortDescCorrect | chroot-backup.py:74-75 | the descending sort is non-increasing and a permutation of the indexes |
| Backup.RetentionPartition | chroot-backup.py:74-75 | kept and removed indexes partition the existing ones. The kept ones are the `keep - 1` largest, with the sizes stated, and removals come in non-increasing order |
| Backup.KeepOneRemovesAllOld | chroot-backup.py:74-75 | with `backups_to_keep` 1, every old backup is removed |
| Backup.NewBackupNeverRemoved | chroot-backup.py:61-75 | the new backup is never removed, and every removed index is below it |
| Backup.RemovalsStrictlyDecreasing | chroot-backup.py:74-80 | with distinct indexes, removals are in strictly descending order, so each index is removed once |
| Backup.CanonicalNamesDistinct | chroot-backup.py:54-58 | distinct canonical directory names give distinct indexes |
| Backup.PlanBackupCorrect | chroot-backup.py:34-75 | a plan fails exactly when the count check or a name fails. Otherwise the new directory's index is above every existing one and is not removed, the predecessor is the newest backup, and kept and removed indexes partition the existing ones |
| Backup.RetentionExample | chroot-backup.py:74-75 | backups 0 to 5 with `backups_to_keep` 3: the new index is 6, the removals are 3, 2, 1, 0 in that order, and 5 and 4 stay |
| Pruning.BackupFolder.Create | chroot-backup.py:68-70 | the copy step adds the new backup directory to the folder |
| Pruning.BackupFolder.RemoveTree | chroot-backup.py:80 | `rmtree` succeeds exactly when the directory is there; afterwards it is gone |
| Pruning.BackupFolder.RemoveBackups | chroot-backup.py:77-80 | the removal loop succeeds exactly when every directory is there and none is listed twice, and then removes exactly those directories. When an `rmtree` raises, exactly the removals before the failing one have happened. It never adds a directory |
| Pruning.CanonicalListingPrunes | chroot-backup.py:54-80 | when the folder holds only canonical index names, each once, the listing is read, every removal succeeds, and the new backup and the kept ones stay |
| Pruning.PlanKeepsNewAndKept | chroot-backup.py:61-80 | with distinct indexes all present, the planned removals succeed and spare the new backup and the kept ones |
| Pruning.KeptNotRemoved | chroot-backup.py:74-75 | with distinct indexes, a kept index is not also removed |
| Pruning.NewBackupStays | chroot-backup.py:68-80 | removing directories of old indexes never removes the directory of an index outside them, such as the new backup |
| Pruning.RunBackup | chroot-backup.py:54-80 | one run on a folder whose listing is its entries, each once: the plan is computed; on an error the folder is untouched. Otherwise the new directory is created and stays. Pruning succeeds exactly when the planned removals are possible, and always when every name is the canonical name of its index; it then leaves exactly the others. When a removal raises, exactly the removals before it have happened |

## Findings

| source | as written | input that shows it | evidently intended | confidence | as-written member | corrected member |
|---|---|---|---|---|---|---|
| chroot_lib.py:143-152 | `start` calls `prepare` and then `run_till_success` on the start hooks. With no hooks, `result` is unbound at chroot_lib.py:64 and the script exits with status 1, leaving `/proc`, `/sys`, `/dev` and `/dev/pts` mounted in the chroot | a chroot without `<root>.json` (its configuration is `{}`, chroot_lib.py:125-129) and mount commands that all succeed | with no start hooks, `start` prepares the chroot and leaves it up, as after hooks that all succeed (`Lifecycle.StartCorrected`); then every exit ends with the single teardown, and a later `stop` spawns, after every mount of the preparation, an unmount of its mount point | high (not executed) | LifecycleProperties.StartWithoutHooksLeavesMounts | LifecycleProperties.StartCorrectedTearsDownOnFailure |

`ChrootLib.Chroot.Start` implements `start` as written, so its crash is part
of the model. The guarantees about the corrected definition are proved by
`LifecycleProperties.StartCorrectedTearsDownOnFailure` and
`LifecycleProperties.StartCorrectedThenStop`.

## Left out

- Mounts and unmounts that hooks perform inside the chroot: a hook such as `mount -t tmpfs none /tmp` runs as `chroot <root> mount ...` and changes the host's mount table, but `Released` and `EndsWithSingleTeardown` only look at commands whose own first argument is `mount` or `umount`, so the unmount guarantees cover the four mounts of the preparation only.
- The results of the teardown's unmounts: `run_anyway` (chroot_lib.py:67-69) discards them, so a failing `umount` (a busy `/dev/pts`, say) leaves its mount in place and nothing reports it; `Released` says only that the unmount was spawned.

- Spawning processes, piping their stdin, stdout and stderr, and waiting for them (`subprocess.Popen`, `communicate`). The oracle gives each command's result, and the ghost trace records what was spawned.
- Exceptions raised by `Popen` itself, for example when a program is missing. The oracle always answers.
- Reading `<root>.json` (chroot_lib.py:122-129). The configuration is a parameter with optional `start` and `stop` lists. `start` reads it and `stop` reads it again, so `ChrootLib.Chroot.Start` takes both readings. Malformed JSON is not modelled.
- `debootstrap` and `dump` (chroot_lib.py:34-40, 166-173) are single external tools and not part of this model. `run_commands_in` appears only through its use in `setup`, where the commands are rebound into the chroot.
- In `enter`, the interactive command's terminal and its result. Only its position in the trace is modelled. Signals that interrupt `enter` are not modelled.
- The traceback printed for the unbound `result` of `start` without hooks. Only the exit status 1 is modelled.
- Argument parsing, `assert_existing_dir`, `normalized`, the rsync flags and `print` in chroot-backup.py.
- The order of `os.listdir`. The listing is a parameter in any order.
- `Chroot.sync_to` (chroot-backup.py:70) is not defined in chroot_lib.py, so it is not part of this model; as written, line 70 raises `AttributeError` before anything is created or removed. The model assumes a `sync_to` that returns and creates the directory: `Pruning.BackupFolder.Create` stands for that effect, and the retention example above describes that flow.
- `shutil.rmtree` on an entry that is a file rather than a directory. Folder entries are plain names.
- IntLiteral.ParseInt: does not model Python 2's acceptance of a trailing `l` or `L` on literals outside the 64-bit range, or the error on an embedded NUL. It accepts exactly ASCII white space, an optional sign, and ASCII digits.
- Host.Process.Spawn: the oracle's result depends only on the command and its position, not on what earlier commands did to the file system. A scripted oracle can still reproduce any such dependence.
