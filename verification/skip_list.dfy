/**
 The skip list: the optional `.dart_analyze_skip` file at the repository
 root, one package name per line, turned into the set of package names the
 runner does not analyze.
 */
module SkipList {
  import opened Text

  /** The skip file as the reader finds it: missing, or present with its
      lines in file order. */
  datatype SkipFile = Absent | Present(lines: seq<string>)

  /** A stripped line names a package when it is non-empty and is not a
      `#` comment. */
  predicate IsEntry(stripped: string) {
    stripped != [] && stripped[0] != '#'
  }

  /** What one line contributes to the set. */
  function LineEntries(line: string): set<string> {
    var stripped := Strip(line);
    if IsEntry(stripped) then {stripped} else {}
  }

  /** The names collected from `lines`, reading them front to back and
      adding each line's entry to the set. Every name is non-empty, carries
      no surrounding whitespace and does not start with `#`. */
  function Entries(lines: seq<string>): (names: set<string>)
    ensures forall n :: n in names ==> n != [] && IsStripped(n) && n[0] != '#'
  {
    if |lines| == 0 then {}
    else Entries(lines[..|lines| - 1]) + LineEntries(lines[|lines| - 1])
  }

  /** Reading the skip file: a missing file means nothing is skipped. */
  function Load(file: SkipFile): (names: set<string>)
    ensures file.Absent? ==> names == {}
    ensures forall n :: n in names ==> n != [] && IsStripped(n) && n[0] != '#'
  {
    match file
    case Absent => {}
    case Present(lines) => Entries(lines)
  }

  /** Line `i` of `lines` strips to the entry `n`. */
  predicate LineNames(lines: seq<string>, i: int, n: string) {
    0 <= i < |lines| && Strip(lines[i]) == n && IsEntry(n)
  }

  /** A name is in the set exactly when some line strips to it and it is an
      entry. */
  lemma {:induction false} EntriesMembership(lines: seq<string>, n: string)
    ensures n in Entries(lines) <==> exists i :: LineNames(lines, i, n)
    decreases |lines|
  {
    if |lines| > 0 {
      var init := lines[..|lines| - 1];
      var last := |lines| - 1;
      EntriesMembership(init, n);
      if n in Entries(lines) {
        if n in Entries(init) {
          var i :| LineNames(init, i, n);
          assert LineNames(lines, i, n);
        } else {
          assert LineNames(lines, last, n);
        }
      }
      if exists i :: LineNames(lines, i, n) {
        var i :| LineNames(lines, i, n);
        if i < last {
          assert LineNames(init, i, n);
        }
      }
    }
  }

  /** A file of only blank and comment lines skips nothing. */
  lemma {:induction false} NoEntriesMeansEmpty(lines: seq<string>)
    requires forall i :: 0 <= i < |lines| ==> !IsEntry(Strip(lines[i]))
    ensures Load(Present(lines)) == {}
    decreases |lines|
  {
    if |lines| > 0 {
      var init := lines[..|lines| - 1];
      assert forall i :: 0 <= i < |init| ==> init[i] == lines[i];
      NoEntriesMeansEmpty(init);
    }
  }

  /** A name written with surrounding whitespace is stored trimmed. */
  lemma SurroundedNameIsTrimmed(lines: seq<string>, k: int, lead: string, name: string, trail: string)
    requires 0 <= k < |lines| && lines[k] == lead + name + trail
    requires AllSpace(lead) && AllSpace(trail)
    requires IsStripped(name) && IsEntry(name)
    ensures name in Load(Present(lines))
  {
    StripUnique(lead, name, trail);
    assert LineNames(lines, k, name);
    EntriesMembership(lines, name);
  }

  /** The reading loop: one pass over the lines, adding each non-blank,
      non-comment stripped line. */
  method LoadLoop(file: SkipFile) returns (names: set<string>)
    ensures names == Load(file)
  {
    names := {};
    if file.Absent? {
      return;
    }
    var lines := file.lines;
    var i := 0;
    while i < |lines|
      invariant 0 <= i <= |lines|
      invariant names == Entries(lines[..i])
    {
      var stripped := Strip(lines[i]);
      if stripped != [] && stripped[0] != '#' {
        names := names + {stripped};
      }
      assert lines[..i + 1][..i] == lines[..i];
      i := i + 1;
    }
    assert lines[..i] == lines;
  }
}
