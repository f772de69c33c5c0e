/** The meaning of running commands, as functions on the state of the
    calling process (`run_commands`, `run_till_success`, `run_anyway` and
    `ProcResult.die` of chroot_lib.py).

    The operating system is an oracle: the result of a command depends on
    the command and on how many commands ran before it, which is enough to
    script any behaviour of the spawned processes. */
module Sequencing {
  import opened Wrappers
  import opened Commands

  /** The result of the command that runs as the `step`-th spawned process. */
  type Oracle = (nat, Command) -> ProcResult

  /** The calling process as the model sees it: every command it spawned,
      in order, whether it has exited (and with which status), and what it
      wrote to its own stdout and stderr. */
  datatype Proc = Proc(trace: seq<Command>, exit: Option<int>, stdout: string, stderr: string) {
    predicate Running() {
      exit == None
    }
  }

  /** Independent description of a fail-fast run: the position of the first
      command that fails when `cmds` are run from `step` on, or `|cmds|`
      when none does. */
  function FirstFailure(o: Oracle, step: nat, cmds: seq<Command>): (k: nat)
    ensures k <= |cmds|
    ensures k < |cmds| ==> o(step + k, cmds[k]).Failed()
    decreases |cmds|
  {
    if cmds == [] then 0
    else if o(step, cmds[0]).Failed() then 0
    else 1 + FirstFailure(o, step + 1, cmds[1..])
  }

  /** Every command before the first failure succeeds, so `FirstFailure`
      is the least failing position. */
  lemma {:induction false} SucceedsBeforeFirstFailure(o: Oracle, step: nat, cmds: seq<Command>, i: nat)
    requires i < FirstFailure(o, step, cmds)
    ensures !o(step + i, cmds[i]).Failed()
    decreases i
  {
    if i > 0 {
      SucceedsBeforeFirstFailure(o, step + 1, cmds[1..], i - 1);
    }
  }

  /** Spawns one command and observes its result. */
  function RunOne(o: Oracle, p: Proc, c: Command): (Proc, ProcResult) {
    (p.(trace := p.trace + [c]), o(|p.trace|, c))
  }

  /** `run_till_success`: consumes the lazy stream of results and stops at
      the first failure, so no later command is spawned; with no failure the
      last result is returned. An empty list leaves `result` unbound in the
      source, so it is excluded here. */
  function TillSuccess(o: Oracle, p: Proc, cmds: seq<Command>): (Proc, ProcResult)
    requires |cmds| > 0
    decreases |cmds|
  {
    var first := RunOne(o, p, cmds[0]);
    if first.1.Failed() || |cmds| == 1 then first
    else TillSuccess(o, first.0, cmds[1..])
  }

  /** A fail-fast run with a failure spawns the commands up to and
      including the first failing one, leaves the rest of the process
      untouched, and returns that command's (failed) result. */
  lemma {:induction false} TillSuccessFails(o: Oracle, p: Proc, cmds: seq<Command>)
    requires FirstFailure(o, |p.trace|, cmds) < |cmds|
    ensures var j := FirstFailure(o, |p.trace|, cmds);
            && TillSuccess(o, p, cmds) == (p.(trace := p.trace + cmds[..j + 1]), o(|p.trace| + j, cmds[j]))
            && TillSuccess(o, p, cmds).1.Failed()
    decreases |cmds|
  {
    var j := FirstFailure(o, |p.trace|, cmds);
    if j == 0 {
      assert cmds[..1] == [cmds[0]];
    } else {
      var q := RunOne(o, p, cmds[0]).0;
      assert FirstFailure(o, |q.trace|, cmds[1..]) == j - 1;
      TillSuccessFails(o, q, cmds[1..]);
      assert cmds[1..][..j] == cmds[1..j + 1];
      assert p.trace + cmds[..j + 1] == q.trace + cmds[1..][..j];
      assert cmds[1..][j - 1] == cmds[j];
    }
  }

  /** A fail-fast run without a failure spawns every command, leaves the
      rest of the process untouched, and returns the successful result of
      the last one. */
  lemma {:induction false} TillSuccessSucceeds(o: Oracle, p: Proc, cmds: seq<Command>)
    requires |cmds| > 0 && FirstFailure(o, |p.trace|, cmds) == |cmds|
    ensures var r := TillSuccess(o, p, cmds);
            && r == (p.(trace := p.trace + cmds), o(|p.trace| + |cmds| - 1, cmds[|cmds| - 1]))
            && !r.1.Failed()
    decreases |cmds|
  {
    if |cmds| == 1 {
      assert cmds == [cmds[0]];
    } else {
      var q := RunOne(o, p, cmds[0]).0;
      assert !o(|p.trace|, cmds[0]).Failed();
      assert FirstFailure(o, |q.trace|, cmds[1..]) == |cmds| - 1;
      TillSuccessSucceeds(o, q, cmds[1..]);
      assert p.trace + cmds == q.trace + cmds[1..];
    }
  }

  /** `run_anyway`: every command is spawned, in order, and every result is
      discarded. The oracle is never consulted; it is a parameter only so
      that every runner has the same signature. */
  function Anyway(o: Oracle, p: Proc, cmds: seq<Command>): Proc {
    p.(trace := p.trace + cmds)
  }

  /** `ProcResult.die`: writes the captured stderr, then the captured
      stdout, when they are not empty, and exits with status 1. */
  function Die(p: Proc, r: ProcResult): (q: Proc)
    ensures q.exit == Some(1) && q.trace == p.trace
    ensures q.stderr == p.stderr + r.err && q.stdout == p.stdout + r.out
  {
    var withErr := if r.err != "" then p.stderr + r.err else p.stderr;
    var withOut := if r.out != "" then p.stdout + r.out else p.stdout;
    Proc(p.trace, Some(1), withOut, withErr)
  }

  /** An exception nobody catches: the interpreter exits with status 1. The
      traceback it prints is not modelled. */
  function Crash(p: Proc): Proc {
    p.(exit := Some(1))
  }
}
