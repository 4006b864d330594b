/**
 The runner's pass over the package directories: each directory with a
 `pubspec.yaml` is either skipped (its name is in the skip set) or analyzed,
 and an analysis with a non-zero return code is recorded as a failure. The
 exit code is 1 exactly when something failed.

 The directory test and the analyzer are parameters: `hasManifest(name)`
 says whether `packages/<name>/pubspec.yaml` is a regular file, and `rc(name)` is the
 return code the analyzer gives for that package.
 */
module Runner {
  import opened Seqs

  /** What one pass records, in the order it visited the names: the packages
      handed to the analyzer, the packages skipped, and the packages whose
      analysis failed. */
  datatype Report = Report(analyzed: seq<string>, skipped: seq<string>, failed: seq<string>)

  const Empty := Report([], [], [])

  /** The names that land in each list, stated independently of the pass. */
  function Skips(hasManifest: string -> bool, skip: set<string>): string -> bool {
    n => hasManifest(n) && n in skip
  }

  function Analyzes(hasManifest: string -> bool, skip: set<string>): string -> bool {
    n => hasManifest(n) && n !in skip
  }

  function Fails(hasManifest: string -> bool, skip: set<string>, rc: string -> int): string -> bool {
    n => hasManifest(n) && n !in skip && rc(n) != 0
  }

  /** One iteration of the loop: a directory without a manifest is passed
      over; a skipped package is appended to `skipped`; any other package is
      analyzed and appended to `failed` when its return code is non-zero. */
  function Step(r: Report, name: string, hasManifest: string -> bool, skip: set<string>, rc: string -> int): Report {
    if !hasManifest(name) then r
    else if name in skip then r.(skipped := r.skipped + [name])
    else
      var analyzed := r.analyzed + [name];
      if rc(name) != 0 then Report(analyzed, r.skipped, r.failed + [name])
      else Report(analyzed, r.skipped, r.failed)
  }

  /** The whole pass over `names`, front to back. */
  function Run(names: seq<string>, hasManifest: string -> bool, skip: set<string>, rc: string -> int): (r: Report)
    ensures |r.skipped| + |r.analyzed| <= |names|
    ensures |r.failed| <= |r.analyzed|
  {
    if |names| == 0 then Empty
    else Step(Run(names[..|names| - 1], hasManifest, skip, rc), names[|names| - 1], hasManifest, skip, rc)
  }

  /** The process exit code: 1 when some analysis failed, else 0. */
  function ExitCode(r: Report): int {
    if |r.failed| > 0 then 1 else 0
  }

  /** Each list is the input filtered by its own condition, in input order. */
  lemma {:induction false} RunIsFilter(names: seq<string>, hasManifest: string -> bool, skip: set<string>, rc: string -> int)
    ensures Run(names, hasManifest, skip, rc).skipped == Filter(names, Skips(hasManifest, skip))
    ensures Run(names, hasManifest, skip, rc).analyzed == Filter(names, Analyzes(hasManifest, skip))
    ensures Run(names, hasManifest, skip, rc).failed == Filter(names, Fails(hasManifest, skip, rc))
    decreases |names|
  {
    if |names| > 0 {
      var init := names[..|names| - 1];
      var last := names[|names| - 1];
      assert names == init + [last];
      RunIsFilter(init, hasManifest, skip, rc);
      FilterSnoc(init, last, Skips(hasManifest, skip));
      FilterSnoc(init, last, Analyzes(hasManifest, skip));
      FilterSnoc(init, last, Fails(hasManifest, skip, rc));
    }
  }

  /** Which names end up in which list. A name without a manifest is in none
      of them, so in particular it never reaches the analyzer. */
  lemma {:induction false} Classification(names: seq<string>, hasManifest: string -> bool, skip: set<string>, rc: string -> int, n: string)
    ensures n in Run(names, hasManifest, skip, rc).skipped <==> n in names && hasManifest(n) && n in skip
    ensures n in Run(names, hasManifest, skip, rc).analyzed <==> n in names && hasManifest(n) && n !in skip
    ensures n in Run(names, hasManifest, skip, rc).failed <==> n in names && hasManifest(n) && n !in skip && rc(n) != 0
  {
    RunIsFilter(names, hasManifest, skip, rc);
    FilterMembership(names, Skips(hasManifest, skip), n);
    FilterMembership(names, Analyzes(hasManifest, skip), n);
    FilterMembership(names, Fails(hasManifest, skip, rc), n);
  }

  /** No package is both skipped and failed, and every failure was analyzed. */
  lemma SkippedFailedDisjoint(names: seq<string>, hasManifest: string -> bool, skip: set<string>, rc: string -> int)
    ensures forall n :: n in Run(names, hasManifest, skip, rc).failed ==>
              n !in Run(names, hasManifest, skip, rc).skipped && n in Run(names, hasManifest, skip, rc).analyzed
  {
    forall n | n in Run(names, hasManifest, skip, rc).failed
      ensures n !in Run(names, hasManifest, skip, rc).skipped && n in Run(names, hasManifest, skip, rc).analyzed
    {
      Classification(names, hasManifest, skip, rc, n);
    }
  }

  /** The lists keep the input order, whatever the listing. */
  lemma ListsAreSubsequences(names: seq<string>, hasManifest: string -> bool, skip: set<string>, rc: string -> int)
    ensures IsSubsequence(Run(names, hasManifest, skip, rc).skipped, names)
    ensures IsSubsequence(Run(names, hasManifest, skip, rc).analyzed, names)
    ensures IsSubsequence(Run(names, hasManifest, skip, rc).failed, names)
  {
    RunIsFilter(names, hasManifest, skip, rc);
    FilterIsSubsequence(names, Skips(hasManifest, skip));
    FilterIsSubsequence(names, Analyzes(hasManifest, skip));
    FilterIsSubsequence(names, Fails(hasManifest, skip, rc));
  }

  /** Over a sorted listing of distinct names each list is strictly
      ascending and holds no name twice. */
  lemma ListsAscending(names: seq<string>, hasManifest: string -> bool, skip: set<string>, rc: string -> int)
    requires Ascending(names)
    ensures Ascending(Run(names, hasManifest, skip, rc).skipped)
    ensures Ascending(Run(names, hasManifest, skip, rc).analyzed)
    ensures Ascending(Run(names, hasManifest, skip, rc).failed)
    ensures Distinct(Run(names, hasManifest, skip, rc).skipped)
    ensures Distinct(Run(names, hasManifest, skip, rc).analyzed)
    ensures Distinct(Run(names, hasManifest, skip, rc).failed)
  {
    var r := Run(names, hasManifest, skip, rc);
    ListsAreSubsequences(names, hasManifest, skip, rc);
    SubsequenceAscending(r.skipped, names);
    SubsequenceAscending(r.analyzed, names);
    SubsequenceAscending(r.failed, names);
    AscendingDistinct(r.skipped);
    AscendingDistinct(r.analyzed);
    AscendingDistinct(r.failed);
  }

  /** The analyzer's answer matters only for the packages handed to it: two
      oracles that agree on those give the same pass. */
  lemma {:induction false} OracleOnlyForAnalyzed(names: seq<string>, hasManifest: string -> bool, skip: set<string>, rc1: string -> int, rc2: string -> int)
    requires forall n :: n in names && hasManifest(n) && n !in skip ==> rc1(n) == rc2(n)
    ensures Run(names, hasManifest, skip, rc1) == Run(names, hasManifest, skip, rc2)
    decreases |names|
  {
    if |names| > 0 {
      var init := names[..|names| - 1];
      assert forall n :: n in init ==> n in names;
      OracleOnlyForAnalyzed(init, hasManifest, skip, rc1, rc2);
    }
  }

  /** Exit code 0 exactly when every analyzed package returned 0. */
  lemma {:induction false} ExitCodeIff(names: seq<string>, hasManifest: string -> bool, skip: set<string>, rc: string -> int)
    ensures ExitCode(Run(names, hasManifest, skip, rc)) == 0 <==>
            forall n :: n in names && hasManifest(n) && n !in skip ==> rc(n) == 0
  {
    var r := Run(names, hasManifest, skip, rc);
    if r.failed == [] {
      forall n | n in names && hasManifest(n) && n !in skip
        ensures rc(n) == 0
      {
        Classification(names, hasManifest, skip, rc, n);
      }
    } else {
      var f := r.failed[0];
      Classification(names, hasManifest, skip, rc, f);
      assert f in names && hasManifest(f) && f !in skip && rc(f) != 0;
    }
  }

  /** When every package is skipped, nothing is analyzed and the exit code is 0. */
  lemma {:induction false} AllSkippedSucceeds(names: seq<string>, hasManifest: string -> bool, skip: set<string>, rc: string -> int)
    requires forall n :: n in names && hasManifest(n) ==> n in skip
    ensures Run(names, hasManifest, skip, rc).analyzed == []
    ensures Run(names, hasManifest, skip, rc).failed == []
    ensures ExitCode(Run(names, hasManifest, skip, rc)) == 0
  {
    var r := Run(names, hasManifest, skip, rc);
    if r.analyzed != [] {
      Classification(names, hasManifest, skip, rc, r.analyzed[0]);
    }
  }

  /** The loop as the script writes it, appending to the lists in place. */
  method RunLoop(names: seq<string>, hasManifest: string -> bool, skip: set<string>, rc: string -> int)
    returns (report: Report, code: int)
    ensures report == Run(names, hasManifest, skip, rc)
    ensures code == 1 <==> report.failed != []
    ensures code == 0 <==> report.failed == []
  {
    var analyzed: seq<string> := [];
    var failed: seq<string> := [];
    var skipped: seq<string> := [];
    var i := 0;
    while i < |names|
      invariant 0 <= i <= |names|
      invariant Report(analyzed, skipped, failed) == Run(names[..i], hasManifest, skip, rc)
    {
      var name := names[i];
      assert names[..i + 1][..i] == names[..i];
      i := i + 1;
      if !hasManifest(name) {
        continue;
      }
      if name in skip {
        skipped := skipped + [name];
        continue;
      }
      analyzed := analyzed + [name];
      if rc(name) != 0 {
        failed := failed + [name];
      }
    }
    assert names[..i] == names;
    report := Report(analyzed, skipped, failed);
    if |failed| > 0 {
      code := 1;
    } else {
      code := 0;
    }
  }
}
