/** The end of chroot-backup.py's `main`: the new backup directory appears
    in the backup folder, then the old backups chosen by the plan are
    removed one by one with `shutil.rmtree`. */
module Pruning {
  import opened Wrappers
  import opened IntLiteral
  import opened Backup

  /** The directory names of some indexes. */
  function Names(xs: seq<int>): set<string> {
    set i | 0 <= i < |xs| :: Str(xs[i])
  }

  /** Every index can be removed in turn: its directory is there, and no
      earlier removal in the list already deleted it. */
  ghost predicate Removable(entries: set<string>, xs: seq<int>) {
    (forall i :: 0 <= i < |xs| ==> Str(xs[i]) in entries) && Distinct(xs)
  }

  /** The `i`-th removal is the first to raise: its directory is not
      there once the earlier ones are gone. */
  ghost predicate FailsAt(entries: set<string>, xs: seq<int>, i: int)
    requires 0 <= i < |xs|
  {
    Str(xs[i]) !in entries - Names(xs[..i])
  }

  /** Every name of the listing is the canonical `str()` of its index. */
  ghost predicate Canonical(listing: seq<string>) {
    forall i :: 0 <= i < |listing| ==> ParseInt(listing[i]).Some? && listing[i] == Str(ParseInt(listing[i]).value)
  }

  /** The backup folder: the names of the entries in it. */
  class BackupFolder {
    var entries: set<string>

    constructor (entries: set<string>)
      ensures this.entries == entries
    {
      this.entries := entries;
    }

    /** The copy of the chroot (`sync_to`) creates the new backup
        directory. */
    method Create(name: string)
      modifies this
      ensures entries == old(entries) + {name}
    {
      entries := entries + {name};
    }

    /** `shutil.rmtree`: removes the directory, or raises when it is not
        there. */
    method RemoveTree(name: string) returns (ok: bool)
      modifies this
      ensures ok <==> name in old(entries)
      ensures entries == old(entries) - {name}
    {
      ok := name in entries;
      entries := entries - {name};
    }

    /** The removal loop: each index's directory in turn; the first
        `rmtree` that raises ends the script, so `ok` is false and later
        directories stay. Every removal succeeds exactly when the list is
        `Removable`, and then exactly those directories are gone; otherwise
        exactly the directories before the failing one are gone. */
    method RemoveBackups(toRemove: seq<int>) returns (ok: bool)
      modifies this
      ensures ok <==> Removable(old(entries), toRemove)
      ensures ok ==> entries == old(entries) - Names(toRemove)
      ensures !ok ==> exists i :: 0 <= i < |toRemove| && FailsAt(old(entries), toRemove, i)
                                  && Removable(old(entries), toRemove[..i])
                                  && entries == old(entries) - Names(toRemove[..i])
      ensures entries <= old(entries) && old(entries) - entries <= Names(toRemove)
    {
      ghost var before := entries;
      ghost var failedAt := 0;
      ok := true;
      var i := 0;
      while i < |toRemove| && ok
        invariant 0 <= i <= |toRemove|
        invariant ok ==> entries == before - Names(toRemove[..i]) && Removable(before, toRemove[..i])
        invariant !ok ==> !Removable(before, toRemove)
        invariant !ok ==> failedAt < |toRemove| && FailsAt(before, toRemove, failedAt)
                          && Removable(before, toRemove[..failedAt])
                          && entries == before - Names(toRemove[..failedAt])
        invariant entries <= before && before - entries <= Names(toRemove)
      {
        var name := Str(toRemove[i]);
        assert toRemove[..i + 1] == toRemove[..i] + [toRemove[i]];
        assert Names(toRemove[..i + 1]) == Names(toRemove[..i]) + {name} by {
          NamesAppend(toRemove[..i], toRemove[i]);
        }
        var removed := RemoveTree(name);
        if removed {
          RemovableStep(before, toRemove[..i], toRemove[i]);
        } else {
          ok := false;
          failedAt := i;
          NotRemovable(before, toRemove, i);
        }
        i := i + 1;
      }
      if ok {
        assert toRemove[..i] == toRemove;
      }
    }
  }

  lemma NamesAppend(xs: seq<int>, x: int)
    ensures Names(xs + [x]) == Names(xs) + {Str(x)}
  {
    var l := xs + [x];
    forall n | n in Names(l) ensures n in Names(xs) + {Str(x)} {
      var i :| 0 <= i < |l| && Str(l[i]) == n;
      if i < |xs| { assert l[i] == xs[i]; }
    }
    forall n | n in Names(xs) ensures n in Names(l) {
      var i :| 0 <= i < |xs| && Str(xs[i]) == n;
      assert l[i] == xs[i];
    }
    assert l[|xs|] == x;
  }

  /** A name among `Names(xs)` is the name of exactly one of its indexes. */
  lemma NameOf(xs: seq<int>, x: int)
    requires Str(x) in Names(xs)
    ensures x in xs
  {
    var i :| 0 <= i < |xs| && Str(xs[i]) == Str(x);
    StrInjective(xs[i], x);
  }

  lemma RemovableStep(entries: set<string>, xs: seq<int>, x: int)
    requires Removable(entries, xs)
    requires Str(x) in entries - Names(xs)
    ensures Removable(entries, xs + [x])
  {
    var l := xs + [x];
    forall i, j | 0 <= i < j < |l| ensures l[i] != l[j] {
      if j == |xs| {
        assert l[i] == xs[i];
        assert Str(xs[i]) in Names(xs);
      } else {
        assert l[i] == xs[i] && l[j] == xs[j];
      }
    }
    forall i | 0 <= i < |l| ensures Str(l[i]) in entries {
      if i < |xs| { assert l[i] == xs[i]; }
    }
  }

  /** When the directory of the `i`-th index is gone before its turn, the
      whole list is not removable. */
  lemma NotRemovable(entries: set<string>, xs: seq<int>, i: nat)
    requires i < |xs|
    requires Str(xs[i]) !in entries - Names(xs[..i])
    ensures !Removable(entries, xs)
  {
    if Str(xs[i]) in entries {
      NameOf(xs[..i], xs[i]);
      var j :| 0 <= j < i && xs[..i][j] == xs[i];
      assert xs[j] == xs[i];
    }
  }

  /** When every name in the folder is the canonical name of its index,
      every removal of the plan succeeds, and the new backup and the kept
      old ones all stay. */
  lemma CanonicalListingPrunes(listing: seq<string>, entries: set<string>, keep: int)
    requires keep >= 1
    requires Canonical(listing) && entries == set n | n in listing
    requires forall i, j :: 0 <= i < j < |listing| ==> listing[i] != listing[j]
    ensures ParseNames(listing).Ok?
    ensures var xs := ParseNames(listing).value;
            var after := entries + {Str(NextIndex(xs))};
            && Removable(after, ToRemove(xs, keep))
            && Str(NextIndex(xs)) !in Names(ToRemove(xs, keep))
            && (forall k :: k in Kept(xs, keep) ==> Str(k) in after - Names(ToRemove(xs, keep)))
  {
    ParseNamesSucceeds(listing);
    var xs := ParseNames(listing).value;
    assert forall i :: 0 <= i < |listing| ==> listing[i] == Str(xs[i]);
    CanonicalNamesDistinct(listing, xs);
    IndexNamesPresent(listing, xs, entries);
    PlanKeepsNewAndKept(xs, entries + {Str(NextIndex(xs))}, keep);
  }

  /** The name of every index read from a canonical listing is an entry. */
  lemma IndexNamesPresent(listing: seq<string>, xs: seq<int>, entries: set<string>)
    requires |listing| == |xs| && entries == set n | n in listing
    requires forall i :: 0 <= i < |listing| ==> listing[i] == Str(xs[i])
    ensures forall x :: x in xs ==> Str(x) in entries
  {
    forall x | x in xs ensures Str(x) in entries {
      var k :| 0 <= k < |xs| && xs[k] == x;
      assert listing[k] in listing;
    }
  }

  lemma PlanKeepsNewAndKept(xs: seq<int>, after: set<string>, keep: int)
    requires keep >= 1 && Distinct(xs)
    requires forall x :: x in xs ==> Str(x) in after
    requires Str(NextIndex(xs)) in after
    ensures Removable(after, ToRemove(xs, keep))
    ensures Str(NextIndex(xs)) !in Names(ToRemove(xs, keep))
    ensures forall k :: k in Kept(xs, keep) ==> Str(k) in after - Names(ToRemove(xs, keep))
  {
    var removed := ToRemove(xs, keep);
    RemovalsStrictlyDecreasing(xs, keep);
    RetentionPartition(xs, keep);
    NewBackupNeverRemoved(xs, keep);
    forall i | 0 <= i < |removed| ensures Str(removed[i]) in after {
      assert removed[i] in multiset(removed);
      assert multiset(xs)[removed[i]] >= multiset(removed)[removed[i]];
      assert removed[i] in xs;
    }
    if Str(NextIndex(xs)) in Names(removed) {
      NameOf(removed, NextIndex(xs));
    }
    forall k | k in Kept(xs, keep) ensures Str(k) in after - Names(removed) {
      assert k in multiset(Kept(xs, keep));
      assert multiset(xs)[k] >= multiset(Kept(xs, keep))[k];
      assert k in xs;
      if Str(k) in Names(removed) {
        NameOf(removed, k);
        KeptNotRemoved(xs, keep, k);
      }
    }
  }

  /** With distinct indexes, a kept index is not also removed. */
  lemma KeptNotRemoved(xs: seq<int>, keep: int, k: int)
    requires keep >= 1 && Distinct(xs)
    requires k in Kept(xs, keep)
    ensures k !in ToRemove(xs, keep)
  {
    RetentionPartition(xs, keep);
    DistinctCounts(xs);
    assert multiset(Kept(xs, keep))[k] >= 1;
    assert multiset(xs)[k] <= 1;
  }

  /** One run of chroot-backup.py on a backup folder, whose listing holds
      each of its entries once: plan, copy, prune. A folder of canonical
      index names always prunes without error.
      `pruned` is false when the plan fails or a removal raises; in the
      latter case the new backup exists and exactly the removals before
      the failing one happened. The new backup is never removed. */
  method RunBackup(f: BackupFolder, folder: string, listing: seq<string>, keepArg: string)
    returns (plan: Result<Plan, BackupError>, pruned: bool)
    requires (set n | n in listing) == f.entries
    requires forall i, j :: 0 <= i < j < |listing| ==> listing[i] != listing[j]
    modifies f
    ensures plan.Ok? && Canonical(listing) ==> pruned
    ensures plan == PlanBackup(folder, listing, keepArg)
    ensures plan.Err? ==> f.entries == old(f.entries) && !pruned
    ensures plan.Ok? ==>
              var created := old(f.entries) + {Str(plan.value.index)};
              var toRemove := plan.value.toRemove;
              && Str(plan.value.index) in f.entries
              && f.entries <= created
              && (pruned <==> Removable(created, toRemove))
              && (pruned ==> f.entries == created - Names(toRemove))
              && (!pruned ==> exists i :: 0 <= i < |toRemove| && FailsAt(created, toRemove, i)
                                         && Removable(created, toRemove[..i])
                                         && f.entries == created - Names(toRemove[..i]))
  {
    plan := PlanBackup(folder, listing, keepArg);
    if plan.Err? {
      pruned := false;
      return;
    }
    var name := Str(plan.value.index);
    f.Create(name);
    pruned := f.RemoveBackups(plan.value.toRemove);
    PlanBackupCorrect(folder, listing, keepArg);
    if Canonical(listing) {
      CanonicalListingPrunes(listing, old(f.entries), CheckKeep(keepArg).value);
    }
    NewBackupStays(plan.value.index, plan.value.toRemove, old(f.entries) + {name}, f.entries);
  }

  /** Removing some of the directories of `xs` never removes the directory
      of an index outside `xs`. */
  lemma NewBackupStays(index: int, xs: seq<int>, created: set<string>, after: set<string>)
    requires index !in xs && Str(index) in created
    requires created - after <= Names(xs)
    ensures Str(index) in after
  {
    if Str(index) !in after {
      NameOf(xs, index);
    }
  }
}
