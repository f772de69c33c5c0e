/** The calling Python process as a mutable object: the commands it spawns,
    the status it exits with, and what it writes to its own stdout and
    stderr. Each method is proved to change the process exactly as the
    corresponding function of `Sequencing` says. */
module Host {
  import opened Wrappers
  import opened Commands
  import opened Sequencing

  class Process {
    /** How the operating system answers each spawned command. */
    const oracle: Oracle
    /** How many commands this process has spawned. */
    var steps: nat
    /** The commands spawned so far, in order; only the proofs look at it. */
    ghost var trace: seq<Command>
    var exit: Option<int>
    var stdout: string
    var stderr: string

    ghost predicate Valid()
      reads this
    {
      |trace| == steps
    }

    /** The state of the process as a value, for the specifications. */
    ghost function Snapshot(): Proc
      reads this
    {
      Proc(trace, exit, stdout, stderr)
    }

    predicate Running()
      reads this
    {
      exit == None
    }

    /** A freshly started process that has not spawned anything yet. */
    constructor (o: Oracle)
      ensures Valid() && Running() && oracle == o
      ensures Snapshot() == Proc([], None, "", "")
    {
      oracle := o;
      steps := 0;
      trace := [];
      exit := None;
      stdout := "";
      stderr := "";
    }

    /** One iteration of `run_commands`: spawn the command with piped
        streams, feed it its stdin, wait for it and capture its status and
        output. */
    method Spawn(c: Command) returns (r: ProcResult)
      requires Valid() && Running()
      modifies this
      ensures Valid() && Running()
      ensures (Snapshot(), r) == RunOne(oracle, old(Snapshot()), c)
    {
      r := oracle(steps, c);
      steps := steps + 1;
      trace := trace + [c];
    }

    /** `ProcResult.die`: copy the captured stderr and stdout, when not
        empty, and exit with status 1. */
    method Die(r: ProcResult)
      requires Valid() && Running()
      modifies this
      ensures Valid() && !Running()
      ensures Snapshot() == Sequencing.Die(old(Snapshot()), r)
    {
      if r.err != "" {
        stderr := stderr + r.err;
      }
      if r.out != "" {
        stdout := stdout + r.out;
      }
      exit := Some(1);
    }

    /** An uncaught exception: the interpreter exits with status 1. */
    method Crash()
      requires Valid() && Running()
      modifies this
      ensures Valid() && !Running()
      ensures Snapshot() == Sequencing.Crash(old(Snapshot()))
    {
      exit := Some(1);
    }
  }
}
