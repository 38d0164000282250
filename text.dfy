/**
 * The Python string operations the chat front-end relies on, written out so
 * that their properties can be proved: `str.strip()` with no argument,
 * `str.replace(old, "")` (remove every occurrence, scanning left to right) and
 * `"\n".join`. The front-end never splits text; `SplitLines`, Python's
 * `str.split("\n")`, is here only as the inverse of the join, to show that a
 * joined block loses nothing.
 */
module Text {

  /** Python's `str.isspace` for one character: the code points that
      `str.strip()` with no argument removes. */
  predicate IsSpace(c: char)
  {
    var n := c as int;
    (0x09 <= n <= 0x0D) || (0x1C <= n <= 0x20) || n == 0x85 || n == 0xA0 ||
    n == 0x1680 || (0x2000 <= n <= 0x200A) || n == 0x2028 || n == 0x2029 ||
    n == 0x202F || n == 0x205F || n == 0x3000
  }

  /** The number of whitespace characters at the front of `s`. */
  function LeadingSpaces(s: string): (n: nat)
    ensures n <= |s|
    ensures forall k :: 0 <= k < n ==> IsSpace(s[k])
    ensures n < |s| ==> !IsSpace(s[n])
  {
    if |s| > 0 && IsSpace(s[0]) then 1 + LeadingSpaces(s[1..]) else 0
  }

  /** The number of whitespace characters at the back of `s`. */
  function TrailingSpaces(s: string): (n: nat)
    ensures n <= |s|
    ensures forall k :: |s| - n <= k < |s| ==> IsSpace(s[k])
    ensures n < |s| ==> !IsSpace(s[|s| - 1 - n])
  {
    if |s| > 0 && IsSpace(s[|s| - 1]) then 1 + TrailingSpaces(s[..|s| - 1]) else 0
  }

  /** `r` sits at offset `i` of `s`, only whitespace lies before and after it,
      and `r` neither starts nor ends with whitespace. */
  predicate TrimmedAt(s: string, r: string, i: int)
  {
    && 0 <= i && i + |r| <= |s|
    && s[i..i + |r|] == r
    && (forall k :: 0 <= k < i ==> IsSpace(s[k]))
    && (forall k :: i + |r| <= k < |s| ==> IsSpace(s[k]))
    && (r == [] || (!IsSpace(r[0]) && !IsSpace(r[|r| - 1])))
  }

  /** Python's `s.strip()`. */
  function Strip(s: string): (r: string)
    ensures exists i :: TrimmedAt(s, r, i)
  {
    var i := LeadingSpaces(s);
    var t := s[i..];
    var n := TrailingSpaces(t);
    var r := t[..|t| - n];
    assert s[i..i + |r|] == r;
    assert TrimmedAt(s, r, i);
    r
  }

  /** Empty or whitespace only. */
  predicate IsBlank(s: string)
  {
    forall k :: 0 <= k < |s| ==> IsSpace(s[k])
  }

  /** `Strip` is exactly "remove surrounding whitespace": any `r` that `s`
      is made of by adding whitespace around it is `Strip(s)`. */
  lemma StripUnique(s: string, r: string, i: int)
    requires TrimmedAt(s, r, i)
    ensures Strip(s) == r
  {
  }

  /** Stripping twice is stripping once. */
  lemma StripIdempotent(s: string)
    ensures Strip(Strip(s)) == Strip(s)
  {
  }

  /** `s.strip()` is the empty string, which Python treats as false, exactly
      when `s` is empty or whitespace only. */
  lemma StripEmptyIffBlank(s: string)
    ensures Strip(s) == "" <==> IsBlank(s)
  {
  }

  /** A string with no whitespace at either end is its own strip. */
  lemma StripOfTrimmed(s: string)
    requires s == [] || (!IsSpace(s[0]) && !IsSpace(s[|s| - 1]))
    ensures Strip(s) == s
  {
  }

  predicate OccursAt(p: string, s: string, i: int)
  {
    0 <= i && i + |p| <= |s| && s[i..i + |p|] == p
  }

  /** Python's `p in s`. */
  predicate OccursIn(p: string, s: string)
  {
    exists i :: 0 <= i <= |s| && OccursAt(p, s, i)
  }

  /** Python's `s.replace(p, "")`: every non-overlapping occurrence of `p`,
      found left to right, is deleted. An empty `p` leaves `s` as it is. */
  function RemoveAll(s: string, p: string): (r: string)
    ensures |r| <= |s|
    ensures p == [] ==> r == s
    decreases |s|
  {
    if p == [] || |s| < |p| then s
    else if s[..|p|] == p then RemoveAll(s[|p|..], p)
    else [s[0]] + RemoveAll(s[1..], p)
  }

  /** Removing a pattern that does not occur changes nothing. */
  lemma {:induction false} RemoveAllAbsent(s: string, p: string)
    ensures !OccursIn(p, s) ==> RemoveAll(s, p) == s
    decreases |s|
  {
    if p == [] || |s| < |p| {
    } else if s[..|p|] == p {
      assert OccursAt(p, s, 0);
    } else {
      RemoveAllAbsent(s[1..], p);
      if OccursIn(p, s[1..]) {
        var i :| 0 <= i <= |s| - 1 && OccursAt(p, s[1..], i);
        OccursShifted(p, s, i);
      } else {
        assert s == [s[0]] + s[1..];
      }
    }
  }

  /** An occurrence in the tail of `s` is an occurrence in `s`, one place later. */
  lemma OccursShifted(p: string, s: string, i: int)
    requires |s| > 0 && OccursAt(p, s[1..], i)
    ensures OccursAt(p, s, i + 1)
  {
  }

  /** An occurrence further on in `s` is an occurrence in its tail, one
      place earlier. */
  lemma OccursUnshifted(p: string, s: string, i: int)
    requires i >= 1 && OccursAt(p, s, i)
    ensures OccursAt(p, s[1..], i - 1)
  {
    assert s[1..][i - 1..i - 1 + |p|] == s[i..i + |p|];
  }

  /** Removing a pattern that does occur makes the text strictly shorter. */
  lemma {:induction false} RemovePresentShrinks(s: string, p: string)
    requires p != [] && OccursIn(p, s)
    ensures |RemoveAll(s, p)| < |s|
    decreases |s|
  {
    var i :| 0 <= i <= |s| && OccursAt(p, s, i);
    if s[..|p|] != p {
      assert i != 0;
      OccursUnshifted(p, s, i);
      RemovePresentShrinks(s[1..], p);
    }
  }

  /** `s.replace(p, "")` changes the text exactly when `p` occurs in it. */
  lemma RemoveAllChangesIffPresent(s: string, p: string)
    requires p != []
    ensures RemoveAll(s, p) == s <==> !OccursIn(p, s)
  {
    RemoveAllAbsent(s, p);
    if OccursIn(p, s) {
      RemovePresentShrinks(s, p);
    }
  }

  /** Every copy is removed, leftmost first: up to the first occurrence the
      text is kept, that occurrence goes, and removal carries on after it.
      With `RemoveAllAbsent` this determines the result completely. */
  lemma {:induction false} RemoveAllAtFirst(s: string, p: string, i: int)
    requires p != [] && OccursAt(p, s, i)
    requires forall j :: 0 <= j < i ==> !OccursAt(p, s, j)
    ensures RemoveAll(s, p) == s[..i] + RemoveAll(s[i + |p|..], p)
    decreases i
  {
    if i == 0 {
      assert s[..|p|] == p;
      assert s[..0] == [];
    } else {
      NotAtStart(p, s);
      OccursUnshifted(p, s, i);
      NoneEarlierInTail(p, s, i);
      RemoveAllAtFirst(s[1..], p, i - 1);
      KeepFirst(s, p, i);
    }
  }

  /** One step of `RemoveAllAtFirst`: when `s` does not begin with `p`, the
      claim for its tail, one place earlier, gives the claim for `s`. */
  lemma KeepFirst(s: string, p: string, i: int)
    requires p != [] && 0 < i && i + |p| <= |s| && s[..|p|] != p
    requires RemoveAll(s[1..], p) == s[1..][..i - 1] + RemoveAll(s[1..][i - 1 + |p|..], p)
    ensures RemoveAll(s, p) == s[..i] + RemoveAll(s[i + |p|..], p)
  {
    RemoveAllSkips(s, p);
    TailSlices(s, i, |p|);
  }

  /** No occurrence at offset 0 means `s` does not begin with `p`. */
  lemma NotAtStart(p: string, s: string)
    requires |p| <= |s| && !OccursAt(p, s, 0)
    ensures s[..|p|] != p
  {
    assert s[..|p|] == s[0..0 + |p|];
  }

  /** Where `s` does not begin with `p`, its first character is kept. */
  lemma RemoveAllSkips(s: string, p: string)
    requires p != [] && |p| <= |s| && s[..|p|] != p
    ensures RemoveAll(s, p) == [s[0]] + RemoveAll(s[1..], p)
  {
  }

  /** Slices of the tail of `s`, read as slices of `s`. */
  lemma TailSlices(s: string, i: int, n: nat)
    requires 0 < i && i + n <= |s|
    ensures [s[0]] + s[1..][..i - 1] == s[..i]
    ensures s[1..][i - 1 + n..] == s[i + n..]
  {
  }

  /** No occurrence before offset `i` in `s` means none before `i - 1` in its tail. */
  lemma NoneEarlierInTail(p: string, s: string, i: int)
    requires |s| > 0
    requires forall j :: 0 <= j < i ==> !OccursAt(p, s, j)
    ensures forall j :: 0 <= j < i - 1 ==> !OccursAt(p, s[1..], j)
  {
    forall j | 0 <= j < i - 1
      ensures !OccursAt(p, s[1..], j)
    {
      if OccursAt(p, s[1..], j) {
        OccursShifted(p, s, j);
      }
    }
  }

  /** Text that begins with the pattern and does not contain it afterwards
      loses exactly that leading copy. */
  lemma EchoRemoved(p: string, tail: string)
    requires p != [] && !OccursIn(p, tail)
    ensures RemoveAll(p + tail, p) == tail
  {
    assert (p + tail)[..|p|] == p && (p + tail)[|p|..] == tail;
    RemoveAllAbsent(tail, p);
  }

  /** A string shorter than the pattern cannot contain it. */
  lemma ShorterAbsent(p: string, s: string)
    requires |s| < |p|
    ensures !OccursIn(p, s)
  {
  }

  /** Python's `s.split("\n")`: always at least one piece. */
  function SplitLines(s: string): (r: seq<string>)
    ensures |r| >= 1
    ensures forall k :: 0 <= k < |r| ==> '\n' !in r[k]
  {
    if |s| == 0 then [""]
    else if s[0] == '\n' then [""] + SplitLines(s[1..])
    else
      var t := SplitLines(s[1..]);
      [[s[0]] + t[0]] + t[1..]
  }

  /** Python's `"\n".join(lines)`. */
  function JoinLines(lines: seq<string>): (r: string)
    ensures |lines| > 0 ==> lines[0] <= r
  {
    if |lines| == 0 then ""
    else if |lines| == 1 then lines[0]
    else lines[0] + "\n" + JoinLines(lines[1..])
  }

  /** Joining one more line adds it after a newline, or alone if there was none. */
  lemma {:induction false} JoinAppend(lines: seq<string>, x: string)
    ensures JoinLines(lines + [x]) == if lines == [] then x else JoinLines(lines) + "\n" + x
  {
    if |lines| == 0 {
      assert lines + [x] == [x];
    } else if |lines| == 1 {
      assert (lines + [x])[1..] == [x];
    } else {
      assert (lines + [x])[1..] == lines[1..] + [x];
      JoinAppend(lines[1..], x);
    }
  }

  /** Splitting a line that holds no newline gives that line back. */
  lemma {:induction false} SplitSingle(a: string)
    requires '\n' !in a
    ensures SplitLines(a) == [a]
  {
    if |a| > 0 {
      assert '\n' !in a[1..] by { assert forall k :: 0 <= k < |a| - 1 ==> a[1..][k] == a[k + 1]; }
      SplitSingle(a[1..]);
      assert [a[0]] + a[1..] == a;
    }
  }

  /** Splitting at the first newline separates the line before it from the rest. */
  lemma {:induction false} SplitFirst(a: string, b: string)
    requires '\n' !in a
    ensures SplitLines(a + "\n" + b) == [a] + SplitLines(b)
  {
    if |a| == 0 {
      assert a + "\n" + b == "\n" + b;
      assert ("\n" + b)[1..] == b;
    } else {
      var s := a + "\n" + b;
      assert s[0] == a[0] && s[1..] == a[1..] + "\n" + b;
      assert '\n' !in a[1..] by { assert forall k :: 0 <= k < |a| - 1 ==> a[1..][k] == a[k + 1]; }
      SplitFirst(a[1..], b);
      assert [a[0]] + a[1..] == a;
    }
  }

  /** `split("\n")` undoes `"\n".join` on a non-empty list of lines that hold
      no newline of their own. */
  lemma {:induction false} SplitJoin(lines: seq<string>)
    requires |lines| >= 1
    requires forall k :: 0 <= k < |lines| ==> '\n' !in lines[k]
    ensures SplitLines(JoinLines(lines)) == lines
  {
    if |lines| == 1 {
      SplitSingle(lines[0]);
    } else {
      SplitFirst(lines[0], JoinLines(lines[1..]));
      SplitJoin(lines[1..]);
      assert [lines[0]] + lines[1..] == lines;
    }
  }
}
