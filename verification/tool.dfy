/**
 The script's `main` as one function: load the skip list, clean the
 environment, make the pass over the sorted package directories, and
 produce the printed lines and the exit code.

 Everything the script reads from the outside world is a parameter: the
 process environment, the skip file, the sorted listing of `packages/`,
 the `pubspec.yaml` test, and the analyzer, which is given the package name
 and the environment it runs in and answers with its return code.
 */
module Tool {
  import opened Seqs
  import opened SkipList
  import Env
  import opened Runner

  /** The lines printed to standard output and to standard error. */
  datatype Output = Output(stdout: seq<string>, stderr: seq<string>)

  datatype Outcome = Outcome(report: Report, output: Output, exitCode: int)

  /** `sep.join(parts)`. */
  function Join(sep: string, parts: seq<string>): string {
    if |parts| == 0 then ""
    else if |parts| == 1 then parts[0]
    else parts[0] + sep + Join(sep, parts[1..])
  }

  function ProgressLine(name: string): string {
    "Analyzing " + name + "..."
  }

  function ProgressLines(names: seq<string>): (lines: seq<string>)
    ensures |lines| == |names|
    ensures forall i :: 0 <= i < |names| ==> lines[i] == ProgressLine(names[i])
  {
    if |names| == 0 then [] else [ProgressLine(names[0])] + ProgressLines(names[1..])
  }

  function SkippedSummary(skipped: seq<string>): string {
    "Skipped: " + Join(", ", skipped)
  }

  function FailedSummary(failed: seq<string>): string {
    "\nAnalysis failed for: " + Join(", ", failed)
  }

  /** What the script prints for a finished pass: one progress line per
      analyzed package, then the skipped summary if anything was skipped; the
      failure summary goes to standard error, and only if something failed. */
  function Print(r: Report): (out: Output)
    ensures |out.stdout| == |r.analyzed| + (if r.skipped == [] then 0 else 1)
    ensures forall i :: 0 <= i < |r.analyzed| ==> out.stdout[i] == ProgressLine(r.analyzed[i])
    ensures r.skipped != [] ==> out.stdout[|out.stdout| - 1] == SkippedSummary(r.skipped)
    ensures out.stderr == (if r.failed == [] then [] else [FailedSummary(r.failed)])
  {
    var summary := if r.skipped == [] then [] else [SkippedSummary(r.skipped)];
    Output(ProgressLines(r.analyzed) + summary,
           if r.failed == [] then [] else [FailedSummary(r.failed)])
  }

  /** The analyzer as the pass sees it: each package analyzed in `env`. */
  function AnalyzeIn(analyzer: (string, map<string, string>) -> int, env: map<string, string>): string -> int {
    n => analyzer(n, env)
  }

  /** The whole script. The exit code is 0 exactly when every package that
      has a manifest and is not in the skip file analyzes cleanly in the
      cleaned environment; a failure summary is printed exactly when the
      exit code is 1. */
  function Main(environ: map<string, string>, skipFile: SkipFile, sortedNames: seq<string>,
                hasManifest: string -> bool, analyzer: (string, map<string, string>) -> int): (o: Outcome)
    ensures o.exitCode == 0 || o.exitCode == 1
    ensures o.exitCode == 0 <==>
            forall n :: n in sortedNames && hasManifest(n) && n !in Load(skipFile) ==>
                          analyzer(n, Env.Clean(environ)) == 0
    ensures o.exitCode == 1 <==> o.output.stderr != []
    ensures forall n :: n in o.report.analyzed <==>
                          n in sortedNames && hasManifest(n) && n !in Load(skipFile)
  {
    var env := Env.Clean(environ);
    var skip := Load(skipFile);
    var rc := AnalyzeIn(analyzer, env);
    var report := Run(sortedNames, hasManifest, skip, rc);
    ExitCodeIff(sortedNames, hasManifest, skip, rc);
    assert forall n :: n in report.analyzed <==> n in sortedNames && hasManifest(n) && n !in skip by {
      forall n {
        Classification(sortedNames, hasManifest, skip, rc, n);
      }
    }
    Outcome(report, Print(report), ExitCode(report))
  }

  /** With exactly one failing package in a sorted listing, the exit code is
      1 and the failure summary names that package once. */
  lemma SingleFailure(environ: map<string, string>, skipFile: SkipFile, sortedNames: seq<string>,
                      hasManifest: string -> bool, analyzer: (string, map<string, string>) -> int, f: string)
    requires Ascending(sortedNames)
    requires f in sortedNames && hasManifest(f) && f !in Load(skipFile)
    requires analyzer(f, Env.Clean(environ)) != 0
    requires forall n :: n in sortedNames && hasManifest(n) && n !in Load(skipFile) && n != f ==>
                           analyzer(n, Env.Clean(environ)) == 0
    ensures Main(environ, skipFile, sortedNames, hasManifest, analyzer).report.failed == [f]
    ensures Main(environ, skipFile, sortedNames, hasManifest, analyzer).exitCode == 1
    ensures Main(environ, skipFile, sortedNames, hasManifest, analyzer).output.stderr
            == ["\nAnalysis failed for: " + f]
  {
    var skip := Load(skipFile);
    var rc := AnalyzeIn(analyzer, Env.Clean(environ));
    var failed := Run(sortedNames, hasManifest, skip, rc).failed;
    ListsAscending(sortedNames, hasManifest, skip, rc);
    Classification(sortedNames, hasManifest, skip, rc, f);
    forall i | 0 <= i < |failed|
      ensures failed[i] == f
    {
      Classification(sortedNames, hasManifest, skip, rc, failed[i]);
    }
    AscendingSingleValue(failed, f);
  }

  /** Example: no skip file and no package with a manifest. Nothing is
      analyzed, nothing is printed, and the exit code is 0. */
  lemma NoPackagesPrintsNothing(environ: map<string, string>, sortedNames: seq<string>,
                                hasManifest: string -> bool, analyzer: (string, map<string, string>) -> int)
    requires forall n :: n in sortedNames ==> !hasManifest(n)
    ensures Main(environ, Absent, sortedNames, hasManifest, analyzer).output == Output([], [])
    ensures Main(environ, Absent, sortedNames, hasManifest, analyzer).exitCode == 0
  {
    var rc := AnalyzeIn(analyzer, Env.Clean(environ));
    var r := Run(sortedNames, hasManifest, {}, rc);
    AllSkippedSucceeds(sortedNames, hasManifest, {}, rc);
    if r.skipped != [] {
      Classification(sortedNames, hasManifest, {}, rc, r.skipped[0]);
    }
  }

  /** Example: `a` skipped, `b` failing, `c` without a manifest. Only `b`
      is analyzed. */
  lemma WorkedExample(environ: map<string, string>, hasManifest: string -> bool,
                      analyzer: (string, map<string, string>) -> int)
    requires hasManifest("a") && hasManifest("b") && !hasManifest("c")
    requires analyzer("a", Env.Clean(environ)) == 0 && analyzer("b", Env.Clean(environ)) == 1
    ensures Main(environ, Present(["a"]), ["a", "b", "c"], hasManifest, analyzer).report
            == Report(["b"], ["a"], ["b"])
    ensures Main(environ, Present(["a"]), ["a", "b", "c"], hasManifest, analyzer).output
            == Output(["Analyzing b...", "Skipped: a"], ["\nAnalysis failed for: b"])
    ensures Main(environ, Present(["a"]), ["a", "b", "c"], hasManifest, analyzer).exitCode == 1
  {
    ExampleSkipFile();
    var rc := AnalyzeIn(analyzer, Env.Clean(environ));
    ExamplePass(hasManifest, rc);
    ExamplePrint();
  }

  /** The example's skip file, a single line `a`. */
  lemma ExampleSkipFile()
    ensures Load(Present(["a"])) == {"a"}
  {
  }

  /** The example's pass over `a`, `b`, `c` with `a` skipped. */
  lemma ExamplePass(hasManifest: string -> bool, rc: string -> int)
    requires hasManifest("a") && hasManifest("b") && !hasManifest("c")
    requires rc("b") == 1
    ensures Run(["a", "b", "c"], hasManifest, {"a"}, rc) == Report(["b"], ["a"], ["b"])
  {
  }

  /** The example's printed lines. */
  lemma ExamplePrint()
    ensures Print(Report(["b"], ["a"], ["b"]))
            == Output(["Analyzing b...", "Skipped: a"], ["\nAnalysis failed for: b"])
  {
    assert ProgressLine("b") == "Analyzing b...";
    assert ProgressLines(["b"]) == ["Analyzing b..."];
    assert SkippedSummary(["a"]) == "Skipped: a";
    assert FailedSummary(["b"]) == "\nAnalysis failed for: b";
  }
}
