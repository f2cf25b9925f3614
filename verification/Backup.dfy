/** Backup pruning (infra/backup.py): the newest files, and some Sundays beyond them. */
module Backup {
  import opened Prelude

  /** A backup file; `mtime` in seconds since the epoch, local time. */
  datatype File = File(name: string, mtime: int)

  /** 1970-01-01 was a Thursday (weekday 3); 6 is Sunday. */
  predicate IsSunday(f: File) {
    (f.mtime / 86400 + 3) % 7 == 6
  }

  /** The Sundays are 4 January 1970, day 3 of the epoch, and every seventh day before and after it. */
  lemma SundaysAreWeekly(f: File, day: int)
    requires 0 <= f.mtime - 86400 * day < 86400
    ensures IsSunday(f) <==> exists week: int :: day == 3 + 7 * week
  {
    assert f.mtime / 86400 == day;
    if IsSunday(f) {
      assert day == 3 + 7 * ((day - 3) / 7);
    }
  }

  /** The first `n` Sunday files. */
  function FirstSundays(files: seq<File>, n: nat): seq<File> {
    if files == [] || n == 0 then []
    else if IsSunday(files[0]) then [files[0]] + FirstSundays(files[1..], n - 1)
    else FirstSundays(files[1..], n)
  }

  /** What pruning keeps of a directory listed newest first. */
  function Prune(files: seq<File>, daily: nat, weekly: nat): seq<File> {
    if |files| <= daily then files else files[..daily] + FirstSundays(files[daily..], weekly)
  }

  /** A file is among the first Sundays when it is a Sunday with fewer than `n` Sundays before it. */
  lemma {:induction false} FirstSundaysIsExact(files: seq<File>, n: nat, k: nat)
    requires Distinct(files) && k < |files|
    ensures |FirstSundays(files, n)| == Min(n, Sundays(files))
    ensures files[k] in FirstSundays(files, n) <==> IsSunday(files[k]) && Sundays(files[..k]) < n
  {
    if files != [] && n > 0 {
      FirstSundaysAreFromFiles(files[1..], n);
      FirstSundaysAreFromFiles(files[1..], n - 1);
      assert forall i :: 0 <= i < |files[1..]| ==> files[1..][i] != files[0];
      if k > 0 {
        FirstSundaysIsExact(files[1..], if IsSunday(files[0]) then n - 1 else n, k - 1);
        assert files[..k][1..] == files[1..][..k - 1];
      } else if |files| > 1 {
        FirstSundaysIsExact(files[1..], if IsSunday(files[0]) then n - 1 else n, 0);
      }
    }
  }

  /** How many of the files fall on a Sunday. */
  function Sundays(files: seq<File>): nat {
    if files == [] then 0 else (if IsSunday(files[0]) then 1 else 0) + Sundays(files[1..])
  }

  lemma {:induction false} FirstSundaysAreFromFiles(files: seq<File>, n: nat)
    ensures forall f | f in FirstSundays(files, n) :: f in files && IsSunday(f)
  {
    if files != [] && n > 0 {
      FirstSundaysAreFromFiles(files[1..], if IsSunday(files[0]) then n - 1 else n);
    }
  }

  // ---------------------------------------------------------------- pruning again and again

  /** The kept files are the `daily` newest and, of the rest, the newest Sundays, at most `weekly`. */
  lemma PruneIsExact(files: seq<File>, daily: nat, weekly: nat, k: nat)
    requires Distinct(files) && k < |files|
    ensures files[k] in Prune(files, daily, weekly)
            <==> k < daily || (IsSunday(files[k]) && Sundays(files[daily..k]) < weekly)
  {
    if |files| > daily {
      var older := files[daily..];
      FirstSundaysAreFromFiles(older, weekly);
      if k < daily {
        assert files[..daily][k] == files[k];
      } else {
        FirstSundaysIsExact(older, weekly, k - daily);
        assert older[..k - daily] == files[daily..k];
      }
    }
  }

  /** Pruning the tail first makes no difference to the first Sundays. */
  lemma {:induction false} FirstSundaysAbsorb(a: seq<File>, b: seq<File>, n: nat, m: nat)
    requires n <= m
    ensures FirstSundays(a + FirstSundays(b, m), n) == FirstSundays(a + b, n)
  {
    if a != [] {
      assert (a + b)[1..] == a[1..] + b;
      assert (a + FirstSundays(b, m))[1..] == a[1..] + FirstSundays(b, m);
      if n > 0 {
        FirstSundaysAbsorb(a[1..], b, if IsSunday(a[0]) then n - 1 else n, m);
      }
    } else {
      assert a + b == b && a + FirstSundays(b, m) == FirstSundays(b, m);
      FirstSundaysTwice(b, n, m);
    }
  }

  lemma {:induction false} FirstSundaysTwice(b: seq<File>, n: nat, m: nat)
    requires n <= m
    ensures FirstSundays(FirstSundays(b, m), n) == FirstSundays(b, n)
  {
    if b != [] && n > 0 {
      if IsSunday(b[0]) {
        FirstSundaysTwice(b[1..], n - 1, m - 1);
        assert FirstSundays(b, m)[1..] == FirstSundays(b[1..], m - 1);
      } else {
        FirstSundaysTwice(b[1..], n, m);
      }
    }
  }

  /** Pruning yesterday's directory before adding new files, or not, gives the same directory today. */
  lemma PruneComposes(added: seq<File>, history: seq<File>, daily: nat, weekly: nat)
    ensures Prune(added + Prune(history, daily, weekly), daily, weekly) == Prune(added + history, daily, weekly)
  {
    if |history| > daily {
      var kept, older := history[..daily], history[daily..];
      var front := added + kept;
      assert added + Prune(history, daily, weekly) == front + FirstSundays(older, weekly);
      assert added + history == front + older;
      PruneFront(front, FirstSundays(older, weekly), daily, weekly);
      PruneFront(front, older, daily, weekly);
      FirstSundaysAbsorb(front[daily..], older, weekly, weekly);
    }
  }

  /** Pruning a listing that starts with enough files: the newest of them, and Sundays from the rest. */
  lemma PruneFront(front: seq<File>, rest: seq<File>, daily: nat, weekly: nat)
    requires |front| >= daily
    ensures Prune(front + rest, daily, weekly) == front[..daily] + FirstSundays(front[daily..] + rest, weekly)
  {
    var all := front + rest;
    assert all[..daily] == front[..daily] && all[daily..] == front[daily..] + rest;
    if |all| == daily {
      assert front[daily..] + rest == [] && all == front[..daily];
    }
  }

  /** The directory after a run of days, each adding its files (newest first) and pruning. */
  function Directory(days: seq<seq<File>>, daily: nat, weekly: nat): seq<File> {
    if days == [] then []
    else Prune(days[|days| - 1] + Directory(days[..|days| - 1], daily, weekly), daily, weekly)
  }

  /** Every file ever created, newest first. */
  function Created(days: seq<seq<File>>): seq<File> {
    if days == [] then [] else days[|days| - 1] + Created(days[..|days| - 1])
  }

  /** However often it runs, the job leaves what pruning the whole history once would leave. */
  lemma {:induction false} DailyPruningIsOnePruning(days: seq<seq<File>>, daily: nat, weekly: nat)
    ensures Directory(days, daily, weekly) == Prune(Created(days), daily, weekly)
  {
    if days != [] {
      var n := |days| - 1;
      DailyPruningIsOnePruning(days[..n], daily, weekly);
      PruneComposes(days[n], Created(days[..n]), daily, weekly);
    }
  }

  lemma PruneIsIdempotent(files: seq<File>, daily: nat, weekly: nat)
    ensures Prune(Prune(files, daily, weekly), daily, weekly) == Prune(files, daily, weekly)
  {
    PruneComposes([], files, daily, weekly);
    assert [] + files == files && [] + Prune(files, daily, weekly) == Prune(files, daily, weekly);
  }

  // ---------------------------------------------------------------- the job

  /** `files` without those that are neither kept nor protected by a failing unlink. */
  function Remaining(files: seq<File>, kept: set<File>, stuck: set<File>): seq<File> {
    if files == [] then []
    else (if files[0] in kept || files[0] in stuck then [files[0]] else []) + Remaining(files[1..], kept, stuck)
  }

  lemma {:induction false} RemainingSplits(a: seq<File>, b: seq<File>, kept: set<File>, stuck: set<File>)
    ensures Remaining(a + b, kept, stuck) == Remaining(a, kept, stuck) + Remaining(b, kept, stuck)
  {
    if a == [] {
      assert a + b == b;
    } else {
      var rest := a[1..];
      RemainingSplits(rest, b, kept, stuck);
      assert a == [a[0]] + rest && a + b == [a[0]] + (rest + b);
    }
  }

  lemma {:induction false} RemainingAll(a: seq<File>, kept: set<File>, stuck: set<File>)
    requires forall i :: 0 <= i < |a| ==> a[i] in kept
    ensures Remaining(a, kept, stuck) == a
  {
    if a != [] {
      RemainingAll(a[1..], kept, stuck);
    }
  }

  lemma {:induction false} RemainingSundays(b: seq<File>, n: nat, kept: set<File>)
    requires Distinct(b)
    requires forall i :: 0 <= i < |b| ==> (b[i] in kept <==> b[i] in FirstSundays(b, n))
    ensures Remaining(b, kept, {}) == FirstSundays(b, n)
  {
    if b != [] {
      FirstSundaysAreFromFiles(b[1..], n);
      var m := if n > 0 && IsSunday(b[0]) then n - 1 else n;
      FirstSundaysAreFromFiles(b[1..], m);
      assert b[0] !in b[1..];
      forall i | 0 <= i < |b[1..]| ensures b[1..][i] in kept <==> b[1..][i] in FirstSundays(b[1..], m) {
        assert b[1..][i] == b[i + 1] && b[i + 1] != b[0];
      }
      RemainingSundays(b[1..], m, kept);
      if n == 0 {
        assert FirstSundays(b[1..], 0) == [];
      }
    }
  }

  function Daily(files: seq<File>, keepDaily: nat): seq<File> {
    if |files| <= keepDaily then files else files[..keepDaily]
  }

  function Older(files: seq<File>, keepDaily: nat): seq<File> {
    if |files| <= keepDaily then [] else files[keepDaily..]
  }

  /** The first loop: the newest `keepDaily` files, or all if there are fewer. */
  method KeepDaily(files: seq<File>, keepDaily: nat) returns (kept: set<File>)
    ensures kept == set i | 0 <= i < |files| && i < keepDaily :: files[i]
    ensures kept == Elements(Daily(files, keepDaily))
  {
    var newest := Daily(files, keepDaily);
    kept := {};
    for i := 0 to |newest|
      invariant kept == Elements(newest[..i])
    {
      assert newest[..i + 1] == newest[..i] + [newest[i]];
      kept := kept + {newest[i]};
    }
    assert newest[..|newest|] == newest;
    assert forall i :: 0 <= i < |newest| ==> newest[i] == files[i];
  }

  /** The second loop: the newest Sundays among the rest. */
  method KeepWeekly(older: seq<File>, keepWeekly: nat) returns (sundays: set<File>)
    ensures sundays == Elements(FirstSundays(older, keepWeekly))
  {
    sundays := {};
    var weeklyKept := 0;
    ghost var all := Elements(FirstSundays(older, keepWeekly));
    assert older[0..] == older;
    var i := 0;
    while i < |older| && weeklyKept < keepWeekly
      invariant 0 <= i <= |older| && weeklyKept <= keepWeekly
      invariant sundays + Elements(FirstSundays(older[i..], keepWeekly - weeklyKept)) == all
    {
      if IsSunday(older[i]) {
        sundays := sundays + {older[i]};
        weeklyKept := weeklyKept + 1;
      }
      i := i + 1;
    }
    assert FirstSundays(older[i..], keepWeekly - weeklyKept) == [];
  }

  /** The deletion loop; `stuck` are the files whose unlink fails: they stay and are not counted. */
  method DeleteOthers(files: seq<File>, kept: set<File>, stuck: set<File>) returns (left: seq<File>, deletedCount: nat)
    ensures |left| + deletedCount == |files|
    ensures left == Remaining(files, kept, stuck)
  {
    left, deletedCount := [], 0;
    for j := 0 to |files|
      invariant left == Remaining(files[..j], kept, stuck)
      invariant |left| + deletedCount == j
    {
      assert files[..j + 1] == files[..j] + [files[j]];
      RemainingSplits(files[..j], [files[j]], kept, stuck);
      if files[j] !in kept && files[j] !in stuck {
        deletedCount := deletedCount + 1;
      } else {
        left := left + [files[j]];
      }
    }
    assert files[..|files|] == files;
  }

  /** `cleanup_old_backups` over the sorted listing. */
  method CleanupOldBackups(files: seq<File>, keepDaily: nat, keepWeekly: nat, stuck: set<File>)
    returns (left: seq<File>, deletedCount: nat)
    requires Distinct(files)
    ensures |left| + deletedCount == |files|
    ensures forall f :: f in left <==> f in files && (f in Prune(files, keepDaily, keepWeekly) || f in stuck)
    ensures stuck == {} ==> left == Prune(files, keepDaily, keepWeekly)
  {
    var dailies := KeepDaily(files, keepDaily);
    var sundays := KeepWeekly(Older(files, keepDaily), keepWeekly);
    var kept := dailies + sundays;
    left, deletedCount := DeleteOthers(files, kept, stuck);
    ghost var daily, older := Daily(files, keepDaily), Older(files, keepDaily);
    assert files == daily + older;
    RemainingIsExact(files, kept, stuck);
    if stuck == {} {
      KeptIsPruned(daily, older, keepWeekly, kept);
    }
  }

  /** Exactly the files that are kept, or whose unlink fails, are left. */
  lemma {:induction false} RemainingIsExact(files: seq<File>, kept: set<File>, stuck: set<File>)
    ensures forall f :: f in Remaining(files, kept, stuck) <==> f in files && (f in kept || f in stuck)
  {
    if files != [] {
      RemainingIsExact(files[1..], kept, stuck);
      assert files == [files[0]] + files[1..];
    }
  }

  lemma DistinctParts(daily: seq<File>, older: seq<File>)
    requires Distinct(daily + older)
    ensures Distinct(older) && forall i :: 0 <= i < |older| ==> older[i] !in daily
  {
    var all := daily + older;
    forall i, j | 0 <= i < j < |older| ensures older[i] != older[j] {
      assert all[|daily| + i] == older[i] && all[|daily| + j] == older[j];
    }
    forall i, k | 0 <= i < |older| && 0 <= k < |daily| ensures daily[k] != older[i] {
      assert all[|daily| + i] == older[i] && all[k] == daily[k];
    }
  }

  lemma KeptIsPruned(daily: seq<File>, older: seq<File>, weekly: nat, kept: set<File>)
    requires Distinct(daily + older) && kept == Elements(daily) + Elements(FirstSundays(older, weekly))
    ensures Remaining(daily + older, kept, {}) == daily + FirstSundays(older, weekly)
  {
    DistinctParts(daily, older);
    RemainingSplits(daily, older, kept, {});
    RemainingAll(daily, kept, {});
    RemainingSundays(older, weekly, kept);
  }
}
