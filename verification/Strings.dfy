/**
  Python's `str.strip()` with no argument: removal of leading and trailing
  whitespace, where "whitespace" is the set of characters for which
  `str.isspace()` holds.
*/
module Strings {

  /** The characters for which Python's `str.isspace()` holds: the ASCII
      controls TAB..CR and FS..US, SPACE, NEL, NO-BREAK SPACE, and the
      Unicode space separators and line/paragraph separators. */
  predicate IsSpace(c: char) {
    var n := c as int;
    || (0x09 <= n <= 0x0D)
    || (0x1C <= n <= 0x20)
    || n == 0x85 || n == 0xA0 || n == 0x1680
    || (0x2000 <= n <= 0x200A)
    || n == 0x2028 || n == 0x2029 || n == 0x202F || n == 0x205F || n == 0x3000
  }

  /** Every character of `s` at a position in `[lo, hi)` is whitespace. */
  predicate SpaceBetween(s: string, lo: int, hi: int) {
    forall k :: lo <= k < hi && 0 <= k < |s| ==> IsSpace(s[k])
  }

  /** Neither end of `s` is whitespace. */
  predicate IsTrimmed(s: string) {
    |s| == 0 || (!IsSpace(s[0]) && !IsSpace(s[|s| - 1]))
  }

  /** `s.strip()`: whitespace is dropped from either end until neither end
      is whitespace. `TrimUnique` pins the result down as the infix of `s`
      between its whitespace margins. */
  function Trim(s: string): (r: string)
    ensures IsTrimmed(r)
    ensures |r| <= |s|
    decreases |s|
  {
    if |s| == 0 then s
    else if IsSpace(s[0]) then Trim(s[1..])
    else if IsSpace(s[|s| - 1]) then Trim(s[..|s| - 1])
    else s
  }

  /** The step of `TrimUnique` that drops a leading whitespace character. */
  lemma DropFirst(s: string, i: int, j: int)
    requires 0 < |s| && 0 <= i <= j <= |s| && IsSpace(s[0])
    requires SpaceBetween(s, 0, i) && SpaceBetween(s, j, |s|) && IsTrimmed(s[i..j])
    ensures var i', j' := if i == 0 then 0 else i - 1, if i == 0 then 0 else j - 1;
      && 0 <= i' <= j' <= |s| - 1
      && SpaceBetween(s[1..], 0, i') && SpaceBetween(s[1..], j', |s| - 1)
      && IsTrimmed(s[1..][i'..j'])
      && s[1..][i'..j'] == s[i..j]
  {
    if i == 0 {
      // the middle would start with `s[0]`, so it is empty and `s` is all margin
      assert SpaceBetween(s[1..], 0, |s| - 1) by {
        forall k | 0 <= k < |s| - 1 ensures IsSpace(s[1..][k]) { assert s[1..][k] == s[k + 1]; }
      }
    } else {
      assert s[1..][i - 1..j - 1] == s[i..j];
      forall k | 0 <= k < i - 1 ensures IsSpace(s[1..][k]) { assert s[1..][k] == s[k + 1]; }
      forall k | j - 1 <= k < |s| - 1 ensures IsSpace(s[1..][k]) { assert s[1..][k] == s[k + 1]; }
    }
  }

  /** The step of `TrimUnique` that drops a trailing whitespace character. */
  lemma DropLast(s: string, i: int, j: int)
    requires 0 <= i <= j < |s| && IsSpace(s[|s| - 1])
    requires SpaceBetween(s, 0, i) && SpaceBetween(s, j, |s|)
    ensures var n := |s| - 1;
      && SpaceBetween(s[..n], 0, i) && SpaceBetween(s[..n], j, n)
      && s[..n][i..j] == s[i..j]
  {
    var n := |s| - 1;
    assert s[..n][i..j] == s[i..j];
    forall k | 0 <= k < n ensures s[..n][k] == s[k] { }
  }

  /** `Trim` is characterised by its result alone: an infix of `s` with
      whitespace margins on both sides and no whitespace at its own ends is
      `Trim(s)`. */
  lemma {:induction false} TrimUnique(s: string, i: int, j: int)
    requires 0 <= i <= j <= |s|
    requires SpaceBetween(s, 0, i) && SpaceBetween(s, j, |s|)
    requires IsTrimmed(s[i..j])
    ensures Trim(s) == s[i..j]
    decreases |s|
  {
    if |s| == 0 {
    } else if IsSpace(s[0]) {
      DropFirst(s, i, j);
      if i == 0 {
        TrimUnique(s[1..], 0, 0);
      } else {
        TrimUnique(s[1..], i - 1, j - 1);
      }
    } else if IsSpace(s[|s| - 1]) {
      // a margin of all of `s` would make `s[0]` whitespace
      assert i == j || s[i..j][j - i - 1] == s[j - 1];
      assert j < |s|;
      DropLast(s, i, j);
      TrimUnique(s[..|s| - 1], i, j);
    } else {
      // neither end is a margin: the infix is all of `s`
      assert i == 0 && j == |s|;
      assert s[i..j] == s;
    }
  }

  /** `s.strip() == s` exactly when neither end of `s` is whitespace. */
  lemma TrimFixpoint(s: string)
    ensures Trim(s) == s <==> IsTrimmed(s)
  {
  }

  /** Trimming twice is the same as trimming once. */
  lemma TrimIdempotent(s: string)
    ensures Trim(Trim(s)) == Trim(s)
  {
    TrimFixpoint(Trim(s));
  }
}
