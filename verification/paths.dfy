/** The one piece of POSIX path handling the scripts rely on: `os.path.join`. */
module Paths {

  /** `a` ready to have a relative component appended: unchanged when it
      is empty or already ends with '/', otherwise followed by '/'. */
  function Dir(a: string): string {
    if a == "" || a[|a| - 1] == '/' then a else a + "/"
  }

  /** `os.path.join(a, b)`: an absolute `b` replaces `a`; otherwise `b` is
      appended to `a`, with a '/' in between unless `a` is empty or already
      ends with one. */
  function Join(a: string, b: string): string {
    if |b| > 0 && b[0] == '/' then b else Dir(a) + b
  }

  /** Joining a relative component keeps `a` as a prefix, ends with the
      component, adds at most one character between them, and that
      character is the separator whenever `a` is not empty. */
  lemma JoinRelative(a: string, b: string)
    requires !(|b| > 0 && b[0] == '/')
    ensures var r := Join(a, b);
            && a <= r && |a| + |b| <= |r| <= |a| + |b| + 1
            && r[|r| - |b|..] == b
            && (|a| > 0 ==> |r| > |b| && r[|r| - |b| - 1] == '/')
  {
  }
}
