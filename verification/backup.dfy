/** The planning part of chroot-backup.py: the `backups_to_keep` check,
    reading the existing backup indexes from the directory names, the index
    and predecessor of the new backup, and which old backups are removed. */
module Backup {
  import opened Wrappers
  import opened IntLiteral
  import Paths

  /** Why the script stops before creating a backup. */
  datatype BackupError =
    | InvalidKeep(arg: string)    // `int(args.backups_to_keep)` raises
    | KeepBelowOne(keep: int)     // "backups_to_keep is less than 1"
    | InvalidName(name: string)   // `int(dirname)` raises

  /** The `backups_to_keep` part of `check_args`. */
  function CheckKeep(arg: string): (r: Result<int, BackupError>)
    ensures r.Ok? <==> ParseInt(arg).Some? && ParseInt(arg).value >= 1
    ensures r.Ok? ==> Some(r.value) == ParseInt(arg)
    ensures r == Err(InvalidKeep(arg)) <==> ParseInt(arg).None?
  {
    match ParseInt(arg)
    case None => Err(InvalidKeep(arg))
    case Some(keep) => if keep < 1 then Err(KeepBelowOne(keep)) else Ok(keep)
  }

  /** `[int(dirname) for dirname in os.listdir(...)]`: the first name that
      is not an integer literal stops the script. */
  function ParseNames(names: seq<string>): (r: Result<seq<int>, BackupError>)
    ensures r.Ok? ==> |r.value| == |names|
    ensures r.Ok? ==> forall i :: 0 <= i < |names| ==> ParseInt(names[i]) == Some(r.value[i])
    ensures r.Err? ==> r.error.InvalidName? && r.error.name in names && ParseInt(r.error.name).None?
  {
    if names == [] then Ok([])
    else match ParseInt(names[0])
      case None => Err(InvalidName(names[0]))
      case Some(n) =>
        match ParseNames(names[1..])
        case Err(e) => Err(e)
        case Ok(rest) => Ok([n] + rest)
  }

  /** The name that stops the script is the first one, in listing order,
      that is not an integer literal: every name before it reads. */
  lemma {:induction false} ParseNamesFirstInvalid(names: seq<string>)
    requires ParseNames(names).Err?
    ensures exists i :: 0 <= i < |names| && names[i] == ParseNames(names).error.name
                        && ParseInt(names[i]).None?
                        && forall j :: 0 <= j < i ==> ParseInt(names[j]).Some?
  {
    if ParseInt(names[0]).Some? {
      var rest := names[1..];
      ParseNamesFirstInvalid(rest);
      var i :| 0 <= i < |rest| && rest[i] == ParseNames(rest).error.name
               && ParseInt(rest[i]).None?
               && forall j :: 0 <= j < i ==> ParseInt(rest[j]).Some?;
      assert names[i + 1] == rest[i];
      assert forall j :: 1 <= j < i + 1 ==> names[j] == rest[j - 1];
    } else {
      assert names[0] == ParseNames(names).error.name;
    }
  }

  /** The listing is read exactly when every name is an integer literal. */
  lemma {:induction false} ParseNamesSucceeds(names: seq<string>)
    ensures ParseNames(names).Ok? <==> forall i :: 0 <= i < |names| ==> ParseInt(names[i]).Some?
  {
    if names != [] && ParseInt(names[0]).Some? {
      ParseNamesSucceeds(names[1..]);
      assert forall i :: 1 <= i < |names| ==> names[i] == names[1..][i - 1];
    }
  }

  /** `max(existing_backups)`. */
  function Max(xs: seq<int>): (m: int)
    requires |xs| > 0
    ensures m in xs
    ensures forall x :: x in xs ==> x <= m
  {
    if |xs| == 1 then xs[0]
    else
      var rest := Max(xs[1..]);
      assert xs == [xs[0]] + xs[1..];
      if xs[0] >= rest then xs[0] else rest
  }

  /** The index of the new backup: one above the newest, or 0. */
  function NextIndex(xs: seq<int>): int {
    if xs == [] then 0 else Max(xs) + 1
  }

  /** `to_path(idx)`: the backup directory of an index. */
  function ToPath(folder: string, index: int): string {
    Paths.Join(folder, Str(index))
  }

  /** `prev_backup`: the directory of the index just below the new one, or
      none when there are no backups. */
  function Previous(folder: string, xs: seq<int>): Option<string> {
    if xs == [] then None else Some(ToPath(folder, NextIndex(xs) - 1))
  }

  predicate NonIncreasing(s: seq<int>) {
    forall i, j :: 0 <= i < j < |s| ==> s[i] >= s[j]
  }

  predicate StrictlyDecreasing(s: seq<int>) {
    forall i, j :: 0 <= i < j < |s| ==> s[i] > s[j]
  }

  predicate Distinct(s: seq<int>) {
    forall i, j :: 0 <= i < j < |s| ==> s[i] != s[j]
  }

  function Insert(x: int, s: seq<int>): seq<int> {
    if s == [] || x >= s[0] then [x] + s else [s[0]] + Insert(x, s[1..])
  }

  /** `sorted(xs, reverse=True)`. */
  function SortDesc(xs: seq<int>): seq<int> {
    if xs == [] then [] else Insert(xs[0], SortDesc(xs[1..]))
  }

  /** `indexes_to_remove`: the sorted indexes after the first `keep - 1`
      (none when there are fewer). */
  function ToRemove(xs: seq<int>, keep: int): seq<int>
    requires keep >= 1
  {
    var sorted := SortDesc(xs);
    if keep - 1 <= |sorted| then sorted[keep - 1..] else []
  }

  /** The old backups that stay: the first `keep - 1` sorted indexes. */
  function Kept(xs: seq<int>, keep: int): seq<int>
    requires keep >= 1
  {
    var sorted := SortDesc(xs);
    if keep - 1 <= |sorted| then sorted[..keep - 1] else sorted
  }

  /** What one run of the script does, once its arguments are checked. */
  datatype Plan = Plan(index: int, backupDir: string, previous: Option<string>, toRemove: seq<int>)

  /** `main` up to the removals: check `backups_to_keep`, read the indexes,
      choose the new index, its directory and predecessor, and the indexes
      to remove. */
  function PlanBackup(folder: string, listing: seq<string>, keepArg: string): Result<Plan, BackupError> {
    match CheckKeep(keepArg)
    case Err(e) => Err(e)
    case Ok(keep) =>
      match ParseNames(listing)
      case Err(e) => Err(e)
      case Ok(xs) =>
        var index := NextIndex(xs);
        Ok(Plan(index, ToPath(folder, index), Previous(folder, xs), ToRemove(xs, keep)))
  }

  // ---------------------------------------------------------------------
  // Sorting

  lemma {:induction false} InsertPermutes(x: int, s: seq<int>)
    ensures multiset(Insert(x, s)) == multiset(s) + multiset{x}
    decreases |s|
  {
    if s != [] && x < s[0] {
      InsertPermutes(x, s[1..]);
      assert s == [s[0]] + s[1..];
    }
  }

  lemma {:induction false} InsertSorted(x: int, s: seq<int>)
    requires NonIncreasing(s)
    ensures NonIncreasing(Insert(x, s))
    decreases |s|
  {
    if s != [] && x < s[0] {
      var rest := Insert(x, s[1..]);
      InsertSorted(x, s[1..]);
      InsertPermutes(x, s[1..]);
      var r := [s[0]] + rest;
      forall i, j | 0 <= i < j < |r| ensures r[i] >= r[j] {
        if i == 0 {
          assert r[j] in multiset(rest);
          assert r[j] in multiset(s[1..]) + multiset{x};
          if r[j] != x {
            assert r[j] in s[1..];
            var k :| 0 <= k < |s[1..]| && s[1..][k] == r[j];
            assert s[0] >= s[k + 1];
          }
        }
      }
    }
  }

  /** `sorted(xs, reverse=True)` is a permutation of `xs` in non-increasing
      order. */
  lemma {:induction false} SortDescCorrect(xs: seq<int>)
    ensures NonIncreasing(SortDesc(xs))
    ensures multiset(SortDesc(xs)) == multiset(xs)
    ensures |SortDesc(xs)| == |xs|
  {
    if xs != [] {
      SortDescCorrect(xs[1..]);
      InsertSorted(xs[0], SortDesc(xs[1..]));
      InsertPermutes(xs[0], SortDesc(xs[1..]));
      assert xs == [xs[0]] + xs[1..];
    }
  }

  // ---------------------------------------------------------------------
  // Properties of the plan

  /** The new index is above every existing one, so it is not one of them. */
  lemma NextIndexFresh(xs: seq<int>)
    ensures forall x :: x in xs ==> x < NextIndex(xs)
    ensures NextIndex(xs) !in xs
  {
  }

  /** The predecessor handed to the copy is the newest existing backup. */
  lemma PreviousIsNewest(folder: string, xs: seq<int>)
    ensures xs == [] <==> Previous(folder, xs) == None
    ensures xs != [] ==> Previous(folder, xs) == Some(ToPath(folder, Max(xs)))
  {
  }

  /** Kept and removed indexes split the existing ones; the kept ones are
      the `keep - 1` largest (every kept index is at least every removed
      one), and the removals come in non-increasing order. */
  lemma RetentionPartition(xs: seq<int>, keep: int)
    requires keep >= 1
    ensures multiset(Kept(xs, keep)) + multiset(ToRemove(xs, keep)) == multiset(xs)
    ensures |Kept(xs, keep)| == if keep - 1 <= |xs| then keep - 1 else |xs|
    ensures |ToRemove(xs, keep)| == if keep - 1 <= |xs| then |xs| - (keep - 1) else 0
    ensures forall a, b :: a in Kept(xs, keep) && b in ToRemove(xs, keep) ==> a >= b
    ensures NonIncreasing(ToRemove(xs, keep))
  {
    var sorted := SortDesc(xs);
    SortDescCorrect(xs);
    var k := if keep - 1 <= |sorted| then keep - 1 else |sorted|;
    assert sorted == sorted[..k] + sorted[k..];
    assert Kept(xs, keep) == sorted[..k];
    assert ToRemove(xs, keep) == sorted[k..];
    forall a, b | a in sorted[..k] && b in sorted[k..] ensures a >= b {
      var i :| 0 <= i < k && sorted[..k][i] == a;
      var j :| 0 <= j < |sorted| - k && sorted[k..][j] == b;
      assert sorted[i] == a && sorted[k + j] == b && i < k + j;
    }
  }

  /** With `backups_to_keep` of 1 every old backup is removed. */
  lemma KeepOneRemovesAllOld(xs: seq<int>)
    ensures multiset(ToRemove(xs, 1)) == multiset(xs)
  {
    RetentionPartition(xs, 1);
  }

  /** The backup just made is never among the removed ones. */
  lemma NewBackupNeverRemoved(xs: seq<int>, keep: int)
    requires keep >= 1
    ensures NextIndex(xs) !in ToRemove(xs, keep)
    ensures forall b :: b in ToRemove(xs, keep) ==> b < NextIndex(xs)
  {
    RetentionPartition(xs, keep);
    forall b | b in ToRemove(xs, keep) ensures b < NextIndex(xs) {
      assert b in multiset(ToRemove(xs, keep));
      assert multiset(xs)[b] >= multiset(ToRemove(xs, keep))[b];
      assert b in xs;
      assert xs != [] && b <= Max(xs);
    }
  }

  lemma {:induction false} DistinctCounts(s: seq<int>)
    requires Distinct(s)
    ensures forall v :: multiset(s)[v] <= 1
  {
    if s != [] {
      var rest := s[1..];
      assert Distinct(rest) by {
        forall i, j | 0 <= i < j < |rest| ensures rest[i] != rest[j] {
          assert rest[i] == s[i + 1] && rest[j] == s[j + 1];
        }
      }
      DistinctCounts(rest);
      assert s == [s[0]] + rest;
      assert s[0] !in rest;
    }
  }

  /** No value occurs twice in a sequence whose every count is at most one. */
  lemma CountsDistinct(s: seq<int>)
    requires forall v :: multiset(s)[v] <= 1
    ensures Distinct(s)
  {
    forall i, j | 0 <= i < j < |s| ensures s[i] != s[j] {
      assert s == s[..i] + [s[i]] + s[i + 1..j] + [s[j]] + s[j + 1..];
      assert multiset(s)[s[i]] >= 1 + multiset([s[j]])[s[i]];
    }
  }

  /** When no index occurs twice, the removals come in strictly decreasing
      order, so each directory is removed exactly once. */
  lemma RemovalsStrictlyDecreasing(xs: seq<int>, keep: int)
    requires keep >= 1 && Distinct(xs)
    ensures StrictlyDecreasing(ToRemove(xs, keep))
  {
    var sorted := SortDesc(xs);
    SortedDistinctStrictly(xs);
    var k := if keep - 1 <= |sorted| then keep - 1 else |sorted|;
    assert ToRemove(xs, keep) == sorted[k..];
    var r := sorted[k..];
    forall i, j | 0 <= i < j < |r| ensures r[i] > r[j] {
      assert r[i] == sorted[k + i] && r[j] == sorted[k + j];
    }
  }

  /** Sorting distinct indexes gives a strictly decreasing list. */
  lemma SortedDistinctStrictly(xs: seq<int>)
    requires Distinct(xs)
    ensures StrictlyDecreasing(SortDesc(xs))
  {
    var sorted := SortDesc(xs);
    SortDescCorrect(xs);
    DistinctCounts(xs);
    CountsDistinct(sorted);
    forall i, j | 0 <= i < j < |sorted| ensures sorted[i] > sorted[j] {
      assert sorted[i] >= sorted[j] && sorted[i] != sorted[j];
    }
  }

  /** Directory names are distinct; when each is the canonical name of its
      index, the indexes are distinct too. */
  lemma CanonicalNamesDistinct(names: seq<string>, xs: seq<int>)
    requires |names| == |xs|
    requires forall i, j :: 0 <= i < j < |names| ==> names[i] != names[j]
    requires forall i :: 0 <= i < |names| ==> names[i] == Str(xs[i])
    ensures Distinct(xs)
  {
    forall i, j | 0 <= i < j < |xs| ensures xs[i] != xs[j] {
      StrInjective(xs[i], xs[j]);
    }
  }

  /** A successful plan: the new directory is the path of an index above
      every existing one, the predecessor is the newest existing backup,
      and what is removed is exactly the old backups beyond the newest
      `keep - 1`. */
  lemma PlanBackupCorrect(folder: string, listing: seq<string>, keepArg: string)
    ensures var r := PlanBackup(folder, listing, keepArg);
            && (r.Err? <==> CheckKeep(keepArg).Err? || ParseNames(listing).Err?)
            && (r.Ok? ==>
                  var keep := CheckKeep(keepArg).value;
                  var xs := ParseNames(listing).value;
                  && keep >= 1
                  && r.value.backupDir == ToPath(folder, r.value.index)
                  && (forall x :: x in xs ==> x < r.value.index)
                  && r.value.index !in r.value.toRemove
                  && (xs == [] ==> r.value.index == 0 && r.value.previous == None)
                  && (xs != [] ==> r.value.previous == Some(ToPath(folder, Max(xs))))
                  && multiset(Kept(xs, keep)) + multiset(r.value.toRemove) == multiset(xs))
  {
    if PlanBackup(folder, listing, keepArg).Ok? {
      var keep := CheckKeep(keepArg).value;
      var xs := ParseNames(listing).value;
      NewBackupNeverRemoved(xs, keep);
      RetentionPartition(xs, keep);
    }
  }

  /** Backups 0 to 5 with `backups_to_keep` 3: 3, 2, 1 and 0 are removed,
      in that order, and 5 and 4 stay beside the new backup 6. */
  lemma RetentionExample()
    ensures NextIndex([0, 1, 2, 3, 4, 5]) == 6
    ensures ToRemove([0, 1, 2, 3, 4, 5], 3) == [3, 2, 1, 0]
    ensures Kept([0, 1, 2, 3, 4, 5], 3) == [5, 4]
  {
    var xs := [0, 1, 2, 3, 4, 5];
    SortExample();
    assert Max(xs) == 5 by {
      assert 5 in xs;
    }
  }

  lemma SortExample()
    ensures SortDesc([0, 1, 2, 3, 4, 5]) == [5, 4, 3, 2, 1, 0]
  {
    SortExample1();
    SortBelow(0, [1, 2, 3, 4, 5], [5, 4, 3, 2, 1]);
    assert [0] + [1, 2, 3, 4, 5] == [0, 1, 2, 3, 4, 5];
  }

  lemma SortExample1()
    ensures SortDesc([1, 2, 3, 4, 5]) == [5, 4, 3, 2, 1]
  {
    SortExample2();
    SortBelow(1, [2, 3, 4, 5], [5, 4, 3, 2]);
    assert [1] + [2, 3, 4, 5] == [1, 2, 3, 4, 5];
  }

  lemma SortExample2()
    ensures SortDesc([2, 3, 4, 5]) == [5, 4, 3, 2]
  {
    SortExample3();
    SortBelow(2, [3, 4, 5], [5, 4, 3]);
    assert [2] + [3, 4, 5] == [2, 3, 4, 5];
  }

  lemma SortExample3()
    ensures SortDesc([3, 4, 5]) == [5, 4, 3]
  {
    SortBelow(5, [], []);
    assert [5] + [] == [5];
    SortBelow(4, [5], [5]);
    assert [4] + [5] == [4, 5];
    SortBelow(3, [4, 5], [5, 4]);
    assert [3] + [4, 5] == [3, 4, 5];
  }

  /** Sorting a list headed by a value below everything else puts that
      value last. */
  lemma SortBelow(x: int, xs: seq<int>, sorted: seq<int>)
    requires SortDesc(xs) == sorted
    requires forall i :: 0 <= i < |sorted| ==> x < sorted[i]
    ensures SortDesc([x] + xs) == sorted + [x]
  {
    assert ([x] + xs)[1..] == xs;
    InsertBelow(x, sorted);
  }

  /** Inserting a value below every element appends it. */
  lemma {:induction false} InsertBelow(x: int, s: seq<int>)
    requires forall i :: 0 <= i < |s| ==> x < s[i]
    ensures Insert(x, s) == s + [x]
  {
    if s != [] {
      InsertBelow(x, s[1..]);
      assert s == [s[0]] + s[1..];
    }
  }
}
