/** Commands, their results and the per-chroot hook configuration
    (`ProcResult`, `Command` and the `<root>.json` object of chroot_lib.py). */
module Commands {
  import opened Wrappers

  /** An argument vector plus the optional bytes fed to the process's stdin. */
  datatype Command = Command(args: seq<string>, stdin: Option<string>)

  /** What running one command to completion yields. */
  datatype ProcResult = ProcResult(returncode: int, out: string, err: string) {
    /** A result is a failure exactly when the exit code is not 0. */
    predicate Failed() {
      returncode != 0
    }
  }

  /** Rebinds a command to run inside `root`: a new command with
      `chroot root` in front of the arguments and the same stdin. */
  function InChroot(c: Command, root: string): (r: Command)
    ensures |r.args| == |c.args| + 2
    ensures r.args[0] == "chroot" && r.args[1] == root && r.args[2..] == c.args
    ensures r.stdin == c.stdin
  {
    Command(["chroot", root] + c.args, c.stdin)
  }

  /** Rebinding loses nothing: the original command and root can be told
      apart from the rebound one. */
  lemma InChrootInjective(c1: Command, root1: string, c2: Command, root2: string)
    ensures InChroot(c1, root1) == InChroot(c2, root2) <==> c1 == c2 && root1 == root2
  {
    if InChroot(c1, root1) == InChroot(c2, root2) {
      assert c1.args == InChroot(c1, root1).args[2..];
      assert c2.args == InChroot(c2, root2).args[2..];
    }
  }

  /** The sidecar configuration: optional `start` and `stop` keys, each a
      list of argument lists. */
  datatype Config = Config(start: Option<seq<seq<string>>>, stop: Option<seq<seq<string>>>)

  /** `config.get(key, [])`: a missing key means no hooks. */
  function HookList(entry: Option<seq<seq<string>>>): seq<seq<string>> {
    match entry
    case None => []
    case Some(hooks) => hooks
  }
}
