# analyze_packages, modelled in Dafny

`tool/analyze_packages.py` runs `dart analyze --fatal-infos` on every
sub-package under `packages/`. It skips the packages named in the optional
`.dart_analyze_skip` file and exits with 1 when any analysis failed. This
project models its logic as pure functions and proves what the script
promises:

- **Skip list** (`skip_list.dfy`, `text.dfy`). The skip file is `Absent`
  or `Present(lines)`. Each line is stripped of surrounding whitespace.
  Blank lines and `#` comments are dropped. Every other stripped line
  becomes a member of the skip set. `LoadLoop` is the reading loop as the
  script writes it, and it is proved equal to the functional `Load`.
- **Environment** (`env.dfy`). `Clean` drops `GIT_DIR` and `GIT_WORK_TREE`
  from the process environment and keeps every other variable with its
  value.
- **The pass** (`runner.dfy`, `seqs.dfy`). `Run` is the loop in `main` as a
  left fold of `Step` over the sorted directory names. `hasManifest(name)`
  stands for the `pubspec.yaml` test. `rc(name)` stands for the analyzer's
  return code. The resulting `Report` holds the packages analyzed, skipped
  and failed, in visiting order. `RunIsFilter` relates the fold to an
  independent definition: each list equals the input filtered by its own
  condition. The membership, disjointness, ordering and exit-code
  properties follow from that. `RunLoop` is the imperative loop, proved
  equal to `Run`.
- **The script** (`tool.dfy`). `Main` composes the pieces. It loads the skip
  set, cleans the environment and runs the pass with an analyzer that
  receives the cleaned environment. It then produces the printed lines and
  the exit code. Two example runs are proved as lemmas.

Python's `sorted` orders strings by code point. `Seqs.Less` models that
order. "Sorted output of `os.listdir`" becomes the precondition
`Ascending(names)`, which is strict because directory entries are distinct.
Only the lemmas about ordering and uniqueness need it.

## Model

| member | source | states |
|---|---|---|
| Text.Strip | tool/analyze_packages.py:21 | the stripped line neither starts nor ends with whitespace and is no longer than the line |
| Text.StripIsTrim | tool/analyze_packages.py:21 | the stripped line is a slice of the line, and everything cut off before and after it is whitespace |
| Text.StripUnique | tool/analyze_packages.py:21 | conversely, a name with no surrounding whitespace, padded with whitespace on either side, strips back to exactly that name |
| Text.StripIdempotent | tool/analyze_packages.py:21 | stripping an already stripped line changes nothing |
| SkipList.Entries | tool/analyze_packages.py:18-23 | every collected name is non-empty, has no surrounding whitespace and does not start with `#` |
| SkipList.Load | tool/analyze_packages.py:12-25 | a missing skip file yields the empty set; a present one yields only well-formed names |
| SkipList.EntriesMembership | tool/analyze_packages.py:20-23 | a name is in the skip set if and only if some line strips to it and it is non-empty and not a comment |
| SkipList.NoEntriesMeansEmpty | tool/analyze_packages.py:20-23 | a file of only blank and `#` lines yields the empty set |
| SkipList.SurroundedNameIsTrimmed | tool/analyze_packages.py:21-23 | a name written with surrounding whitespace is stored trimmed |
| SkipList.LoadLoop | tool/analyze_packages.py:14-25 | the line-by-line reading loop returns exactly the set `Load` defines, including the empty set for a missing file |
| Env.Clean | tool/analyze_packages.py:31 | the cleaned environment has neither `GIT_DIR` nor `GIT_WORK_TREE`, keeps every other variable with its original value, and adds nothing |
| Env.CleanKeys | tool/analyze_packages.py:31 | the remaining keys are exactly the original keys minus the two overrides |
| Env.CleanIsTwoRemovals | tool/analyze_packages.py:31 | filtering equals removing the two keys one after the other |
| Env.CleanWithoutOverrides | tool/analyze_packages.py:31 | an environment without the two variables passes through unchanged |
| Env.CleanIdempotent | tool/analyze_packages.py:31 | cleaning twice is cleaning once |
| Runner.Run | tool/analyze_packages.py:39-54 | no more names are skipped or analyzed than were listed, and no more fail than were analyzed |
| Runner.RunIsFilter | tool/analyze_packages.py:41-54 | `skipped`, `analyzed` and `failed` are the listing filtered by their conditions (manifest and skipped; manifest and not skipped; and additionally non-zero return code), in listing order |
| Runner.Classification | tool/analyze_packages.py:43-54 | a name is skipped iff it is listed, has a manifest and is in the skip set; it is analyzed iff it is listed, has a manifest and is not in the skip set; it failed iff moreover its return code is non-zero. A name without a manifest is in none of the lists |
| Runner.SkippedFailedDisjoint | tool/analyze_packages.py:45-54 | no package is both skipped and failed, and every failed package was analyzed |
| Runner.ListsAreSubsequences | tool/analyze_packages.py:41-54 | for any listing, `skipped`, `analyzed` and `failed` are each a subsequence of it: the pass keeps the listing order and adds nothing |
| Runner.ListsAscending | tool/analyze_packages.py:41-54 | over a sorted listing, each list is strictly ascending and holds no name twice |
| Runner.OracleOnlyForAnalyzed | tool/analyze_packages.py:43-52 | the pass depends on the analyzer only at the manifest-bearing, non-skipped names, so no other name is ever handed to it |
| Runner.ExitCodeIff | tool/analyze_packages.py:53-61 | the exit code is 0 if and only if every listed, manifest-bearing, non-skipped package has return code 0 |
| Runner.AllSkippedSucceeds | tool/analyze_packages.py:41-61 | when every manifest-bearing package is skipped, nothing is analyzed, nothing fails and the exit code is 0 |
| Runner.RunLoop | tool/analyze_packages.py:39-61 | the in-place loop builds exactly the report `Run` defines, and returns 1 iff `failed` is non-empty, else 0 |
| Tool.Print | tool/analyze_packages.py:48-59 | standard output has one progress line per analyzed package, in order, followed by the skipped summary only when something was skipped; standard error has the failure summary only when something failed |
| Tool.Main | tool/analyze_packages.py:28-61 | the exit code is 0 or 1; it is 0 iff every listed, manifest-bearing package outside the loaded skip set analyzes cleanly in the cleaned environment; a failure summary is printed iff the exit code is 1; exactly those packages are analyzed |
| Tool.SingleFailure | tool/analyze_packages.py:53-60 | with exactly one failing package in a sorted listing, `failed` is exactly that package, the exit code is 1, and the failure summary names it once |
| Tool.NoPackagesPrintsNothing | tool/analyze_packages.py:15-61 | with no skip file and no package carrying a manifest, nothing is printed and the exit code is 0 |
| Tool.WorkedExample | tool/analyze_packages.py:41-60 | skipping `a`, failing `b` and `c` without a manifest: only `b` is analyzed, the output is `Skipped: a` and `Analysis failed for: b`, and the exit code is 1 |

## Left out

- Text.Strip: strips the ASCII characters Python counts as whitespace (0x09 to 0x0D, 0x1C to 0x1F and space) but not the non-ASCII ones `str.strip()` also removes (`\x85`, `\xa0` and the other Unicode space separators), because the model has no Unicode character classes.
- Reading the skip file is not modelled. The model takes the lines as already split, and the newline each line carries is whitespace that stripping removes. When the skip file exists but cannot be opened, or its lines cannot be decoded, the script's exception escapes `main` and the process dies with a traceback and status 1 before any package is analyzed. The model does not represent this error path.
- Filesystem access is not modelled: `os.path.isfile`, `os.listdir`, the path joins and the repository-root computation (lines 33–36). The listing is a parameter, and the `pubspec.yaml` test is the `hasManifest` predicate. A missing or unreadable `packages` directory raises in the script. The model has no such case.
- The order of the listing is assumed, not computed. Python's sort of the directory entries appears only as the precondition `Ascending`.
- The `dart analyze` subprocess (lines 49–52) is an oracle from package name and environment to return code. The package path passed to it is not modelled.
- The analyzer oracle is total: every call returns a code. In the script, `subprocess.run` can raise when `dart` cannot be started (for example `FileNotFoundError` or `PermissionError`). The script then stops mid-loop after the progress line, with a traceback, no summaries and exit status 1. The call also has no timeout, so a hung analyzer blocks the run forever. Neither case is modelled.
- Printing is reduced to the lists of lines sent to each stream. Their interleaving with the analyzer's own output is not modelled.
- `raise SystemExit(main())` (line 65) is process plumbing. `Main` returns the exit code instead.
