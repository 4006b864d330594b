/**
 Whitespace stripping as the skip-list reader uses it: Python's `str.strip()`
 with no argument, restricted to the ASCII characters Python counts as
 whitespace.
 */
module Text {

  /** The ASCII characters `str.isspace()` accepts: tab, line feed,
      vertical tab, form feed and carriage return (0x09 to 0x0D), the four
      separators 0x1C to 0x1F, and space. */
  predicate IsSpace(c: char) {
    ('\t' <= c <= '\r') || ('\U{001C}' <= c <= '\U{001F}') || c == ' '
  }

  predicate AllSpace(s: string) {
    forall i :: 0 <= i < |s| ==> IsSpace(s[i])
  }

  /** Neither the first nor the last character is whitespace. */
  predicate IsStripped(s: string) {
    s == [] || (!IsSpace(s[0]) && !IsSpace(s[|s| - 1]))
  }

  /** `r` is the slice of `s` starting at `i`, and everything before and
      after it is whitespace. */
  predicate TrimAt(r: string, s: string, i: int) {
    0 <= i <= |s| - |r| && r == s[i..i + |r|]
    && AllSpace(s[..i]) && AllSpace(s[i + |r|..])
  }

  /** `r` is a slice of `s` with only whitespace cut off on either side. */
  ghost predicate IsTrimOf(r: string, s: string) {
    exists i :: TrimAt(r, s, i)
  }

  /** `str.strip()`: cuts whitespace off both ends until neither end is
      whitespace. The result starts and ends with non-whitespace (or is
      empty); `StripIsTrim` and `StripUnique` say what was cut off. */
  function Strip(s: string): (r: string)
    ensures IsStripped(r)
    ensures |r| <= |s|
  {
    if |s| > 0 && IsSpace(s[0]) then Strip(s[1..])
    else if |s| > 0 && IsSpace(s[|s| - 1]) then Strip(s[..|s| - 1])
    else s
  }

  /** A whitespace character in front keeps a trim a trim. */
  lemma TrimAtSpaceBefore(r: string, t: string, j: int, c: char)
    requires TrimAt(r, t, j) && IsSpace(c)
    ensures TrimAt(r, [c] + t, j + 1)
  {
    var s := [c] + t;
    assert r == s[j + 1..j + 1 + |r|];
    assert s[..j + 1] == [c] + t[..j];
    assert s[j + 1 + |r|..] == t[j + |r|..];
  }

  /** A whitespace character behind keeps a trim a trim. */
  lemma TrimAtSpaceAfter(r: string, t: string, i: int, c: char)
    requires TrimAt(r, t, i) && IsSpace(c)
    ensures TrimAt(r, t + [c], i)
  {
    var s := t + [c];
    assert r == s[i..i + |r|];
    assert s[..i] == t[..i];
    assert s[i + |r|..] == t[i + |r|..] + [c];
  }

  /** `Strip` returns a slice of its input and cuts off only whitespace. */
  lemma {:induction false} StripIsTrim(s: string)
    ensures IsTrimOf(Strip(s), s)
  {
    var r := Strip(s);
    if |s| > 0 && IsSpace(s[0]) {
      var t := s[1..];
      StripIsTrim(t);
      var j :| TrimAt(r, t, j);
      TrimAtSpaceBefore(r, t, j, s[0]);
      assert [s[0]] + t == s;
    } else if |s| > 0 && IsSpace(s[|s| - 1]) {
      var t := s[..|s| - 1];
      StripIsTrim(t);
      var i :| TrimAt(r, t, i);
      TrimAtSpaceAfter(r, t, i, s[|s| - 1]);
      assert t + [s[|s| - 1]] == s;
    } else {
      assert TrimAt(r, s, 0);
    }
  }

  /** The converse of `StripIsTrim`: whatever is surrounded by whitespace and
      is itself stripped is exactly what `Strip` returns. */
  lemma {:induction false} StripUnique(a: string, m: string, b: string)
    requires AllSpace(a) && AllSpace(b) && IsStripped(m)
    ensures Strip(a + m + b) == m
    decreases |a| + |b|
  {
    var s := a + m + b;
    if |a| > 0 {
      assert s[0] == a[0];
      assert s[1..] == a[1..] + m + b;
      StripUnique(a[1..], m, b);
    } else if |m| == 0 && |b| > 0 {
      assert s == b;
      assert s[1..] == a + m + b[1..];
      StripUnique(a, m, b[1..]);
    } else if |b| > 0 {
      assert s == m + b;
      assert s[0] == m[0];
      assert s[|s| - 1] == b[|b| - 1];
      assert s[..|s| - 1] == a + m + b[..|b| - 1];
      StripUnique(a, m, b[..|b| - 1]);
    } else {
      assert s == m;
    }
  }

  /** Stripping twice is stripping once. */
  lemma StripIdempotent(s: string)
    ensures Strip(Strip(s)) == Strip(s)
  {
  }
}
