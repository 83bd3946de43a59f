/** The two Python string operations the core relies on: `str.strip()` and `str.replace(pat, "")`. */
module Text {

  /** Python's `str.isspace` for one character, which is what `str.strip()` removes. */
  predicate IsSpace(c: char) {
    var n := c as int;
    (9 <= n <= 13) || (0x1C <= n <= 0x20) || n == 0x85 || n == 0xA0 || n == 0x1680
    || (0x2000 <= n <= 0x200A) || n == 0x2028 || n == 0x2029 || n == 0x202F
    || n == 0x205F || n == 0x3000
  }

  predicate StartsWith(s: string, p: string) {
    |p| <= |s| && s[..|p|] == p
  }

  predicate EndsWith(s: string, p: string) {
    |p| <= |s| && s[|s| - |p|..] == p
  }

  /** A suffix of the tail is a suffix of the whole. */
  lemma EndsWithAppend(x: string, y: string, p: string)
    requires EndsWith(y, p)
    ensures EndsWith(x + y, p)
  {
    assert (x + y)[|x + y| - |p|..] == y[|y| - |p|..];
  }

  /** Text with no whitespace at either end. */
  predicate Unpadded(w: string) {
    w != [] && !IsSpace(w[0]) && !IsSpace(w[|w| - 1])
  }

  /** Drops leading whitespace. */
  function LStrip(s: string): (r: string)
    ensures |r| <= |s| && r == s[|s| - |r|..]
    ensures r == [] || !IsSpace(r[0])
    decreases |s|
  {
    if s != [] && IsSpace(s[0]) then LStrip(s[1..]) else s
  }

  /** What LStrip drops is whitespace. */
  lemma {:induction false} LStripDropsSpace(s: string)
    ensures forall k :: 0 <= k < |s| - |LStrip(s)| ==> IsSpace(s[k])
    decreases |s|
  {
    if s != [] && IsSpace(s[0]) {
      LStripDropsSpace(s[1..]);
      assert forall k :: 1 <= k < |s| ==> s[k] == s[1..][k - 1];
    }
  }

  /** Drops trailing whitespace. */
  function RStrip(s: string): (r: string)
    ensures |r| <= |s| && r == s[..|r|]
    ensures r == [] || !IsSpace(r[|r| - 1])
    decreases |s|
  {
    if s != [] && IsSpace(s[|s| - 1]) then RStrip(s[..|s| - 1]) else s
  }

  /** What RStrip drops is whitespace. */
  lemma {:induction false} RStripDropsSpace(s: string)
    ensures forall k :: |RStrip(s)| <= k < |s| ==> IsSpace(s[k])
    decreases |s|
  {
    if s != [] && IsSpace(s[|s| - 1]) {
      RStripDropsSpace(s[..|s| - 1]);
    }
  }

  /** A single trailing space goes, and the text before it stays when it ends in a non-space. */
  lemma RStripTrailingSpace(k: string)
    requires k != [] && !IsSpace(k[|k| - 1])
    ensures RStrip(k + " ") == k
  {
    assert (k + " ")[..|k|] == k;
  }

  /** `str.strip()` with no argument. */
  function Strip(s: string): (r: string)
    ensures |r| <= |s|
    ensures r == [] || (!IsSpace(r[0]) && !IsSpace(r[|r| - 1]))
  {
    RStrip(LStrip(s))
  }

  /** Strip keeps the slice of `s` that follows the leading whitespace. */
  lemma StripSlice(s: string)
    ensures var i := |s| - |LStrip(s)|;
      Strip(s) == s[i..i + |Strip(s)|]
  {
    var l := LStrip(s);
    var r := RStrip(l);
    assert Strip(s) == r;
    PrefixOfSuffix(s, l, r);
  }

  /** A prefix of a suffix of `s` is a slice of `s`. */
  lemma PrefixOfSuffix(s: string, l: string, r: string)
    requires |l| <= |s| && l == s[|s| - |l|..]
    requires |r| <= |l| && r == l[..|r|]
    ensures var i := |s| - |l|; r == s[i..i + |r|]
  {
  }

  /** What Strip drops at the end is whitespace. */
  lemma StripDropsTrailingSpace(s: string)
    ensures forall k :: |s| - |LStrip(s)| + |Strip(s)| <= k < |s| ==> IsSpace(s[k])
  {
    var l := LStrip(s);
    var i := |s| - |l|;
    RStripDropsSpace(l);
    forall k | i + |Strip(s)| <= k < |s| ensures IsSpace(s[k]) {
      assert s[k] == l[k - i];
    }
  }

  /** Strip keeps exactly the slice between the leading and the trailing whitespace. */
  lemma StripBounds(s: string) returns (i: nat, j: nat)
    ensures i <= j <= |s| && Strip(s) == s[i..j]
    ensures forall k :: 0 <= k < i ==> IsSpace(s[k])
    ensures forall k :: j <= k < |s| ==> IsSpace(s[k])
    ensures i < j ==> !IsSpace(s[i]) && !IsSpace(s[j - 1])
  {
    i := |s| - |LStrip(s)|;
    j := i + |Strip(s)|;
    LStripDropsSpace(s);
    StripSlice(s);
    StripDropsTrailingSpace(s);
  }

  /** Stripping twice is stripping once. */
  lemma StripIdempotent(s: string)
    ensures Strip(Strip(s)) == Strip(s)
  {
    var t := Strip(s);
    assert LStrip(t) == t;
    assert RStrip(t) == t;
  }

  /** Whether `pat` occurs in `s` starting at index `i`. */
  predicate OccursAt(s: string, pat: string, i: nat) {
    i + |pat| <= |s| && s[i..i + |pat|] == pat
  }

  /** `s.replace(pat, "")`: occurrences are removed left to right, without overlap. */
  function RemoveAll(s: string, pat: string): (r: string)
    requires pat != []
    ensures |r| <= |s|
    decreases |s|
  {
    if |s| < |pat| then s
    else if s[..|pat|] == pat then RemoveAll(s[|pat|..], pat)
    else [s[0]] + RemoveAll(s[1..], pat)
  }

  /** Every character of the result comes from `s`, and a string with no occurrence is left alone. */
  lemma {:induction false} RemoveAllIdentity(s: string, pat: string)
    requires pat != []
    requires forall i :: 0 <= i <= |s| ==> !OccursAt(s, pat, i)
    ensures RemoveAll(s, pat) == s
    decreases |s|
  {
    if |s| < |pat| {
    } else {
      assert !OccursAt(s, pat, 0);
      assert s[0..|pat|] == s[..|pat|];
      forall i | 0 <= i <= |s[1..]| ensures !OccursAt(s[1..], pat, i) {
        assert !OccursAt(s, pat, i + 1);
        assert i + 1 + |pat| <= |s| ==> s[1..][i..i + |pat|] == s[i + 1..i + 1 + |pat|];
      }
      RemoveAllIdentity(s[1..], pat);
    }
  }

  /** A character of `pat` that `s` lacks rules out every occurrence. */
  lemma {:induction false} RemoveAllMissingChar(s: string, pat: string, c: char)
    requires pat != [] && c in pat && c !in s
    ensures RemoveAll(s, pat) == s
  {
    forall i | 0 <= i <= |s| ensures !OccursAt(s, pat, i) {
    }
    RemoveAllIdentity(s, pat);
  }

  /** An occurrence must end on the pattern's last character, so a tail without it passes through untouched. */
  lemma {:induction false} RemoveAllAppend(a: string, b: string, pat: string)
    requires pat != [] && pat[|pat| - 1] !in b
    ensures RemoveAll(a + b, pat) == RemoveAll(a, pat) + b
    decreases |a|
  {
    var s := a + b;
    var n := |pat|;
    if |s| < n {
      assert RemoveAll(a, pat) == a;
    } else if s[..n] == pat {
      assert s[n - 1] == pat[n - 1];
      assert n - 1 < |a|;
      assert a[..n] == s[..n];
      assert s[n..] == a[n..] + b;
      RemoveAllAppend(a[n..], b, pat);
    } else if a == [] {
      assert s == b;
      RemoveAllMissingChar(b, pat, pat[n - 1]);
    } else {
      assert s[1..] == a[1..] + b;
      RemoveAllAppend(a[1..], b, pat);
      if |a| < n {
        assert RemoveAll(a[1..], pat) == a[1..];
        assert RemoveAll(a, pat) == a;
        assert [a[0]] + a[1..] == a;
      } else {
        assert a[..n] == s[..n];
        assert RemoveAll(a, pat) == [a[0]] + RemoveAll(a[1..], pat);
      }
    }
  }

  /** Where no occurrence starts at the front, the first character is kept and the scan moves on. */
  lemma RemoveAllSkip(c: char, rest: string, pat: string)
    requires pat != [] && !OccursAt([c] + rest, pat, 0)
    ensures RemoveAll([c] + rest, pat) == [c] + RemoveAll(rest, pat)
  {
    var s := [c] + rest;
    assert s[1..] == rest;
    if |s| >= |pat| {
      assert s[0..|pat|] == s[..|pat|];
    }
  }

  /** An occurrence at the front is cut out and the scan goes on after it. */
  lemma RemoveAllAtFront(pat: string, v: string)
    requires pat != []
    ensures RemoveAll(pat + v, pat) == RemoveAll(v, pat)
  {
    assert (pat + v)[..|pat|] == pat;
    assert (pat + v)[|pat|..] == v;
  }

  /** Occurrences in a string without its first character are the later occurrences in the string. */
  lemma OccursAtShift(c: char, s: string, pat: string, i: nat)
    ensures OccursAt([c] + s, pat, i + 1) <==> OccursAt(s, pat, i)
  {
    if i + |pat| <= |s| {
      assert ([c] + s)[i + 1..i + 1 + |pat|] == s[i..i + |pat|];
    }
  }

  /** One step of the scan before the first occurrence: the first character of `u` is kept, and the
      rest of `u` still holds no occurrence. */
  lemma RemoveBeforeOccurrence(u: string, v: string, pat: string)
    requires pat != [] && u != []
    requires forall i :: 0 <= i < |u| ==> !OccursAt(u + pat + v, pat, i)
    ensures RemoveAll(u + pat + v, pat) == [u[0]] + RemoveAll(u[1..] + pat + v, pat)
    ensures forall i :: 0 <= i < |u[1..]| ==> !OccursAt(u[1..] + pat + v, pat, i)
  {
    var rest := u[1..] + pat + v;
    assert u + pat + v == [u[0]] + rest;
    assert !OccursAt(u + pat + v, pat, 0);
    RemoveAllSkip(u[0], rest, pat);
    forall i | 0 <= i < |u[1..]| ensures !OccursAt(rest, pat, i) {
      assert !OccursAt(u + pat + v, pat, i + 1);
      OccursAtShift(u[0], rest, pat, i);
    }
  }

  /** The first occurrence is cut out and the scan goes on after it: with no occurrence starting
      inside `u`, removing from `u + pat + v` keeps `u` and continues on `v`. Together with
      `RemoveAllIdentity` this fixes the result on every input. */
  lemma {:induction false} RemoveFirstOccurrence(u: string, v: string, pat: string)
    requires pat != []
    requires forall i :: 0 <= i < |u| ==> !OccursAt(u + pat + v, pat, i)
    ensures RemoveAll(u + pat + v, pat) == u + RemoveAll(v, pat)
    decreases |u|
  {
    if u == [] {
      assert u + pat + v == pat + v;
      RemoveAllAtFront(pat, v);
    } else {
      RemoveBeforeOccurrence(u, v, pat);
      RemoveFirstOccurrence(u[1..], v, pat);
      assert [u[0]] + (u[1..] + RemoveAll(v, pat)) == u + RemoveAll(v, pat);
    }
  }

  /** One marker in the middle of a subject is cut out: "aFwd:b" becomes "ab". */
  lemma InnerMarkerRemoved()
    ensures RemoveAll("aFwd:b", "Fwd:") == "ab"
  {
    var p := "Fwd:";
    assert "aFwd:b" == "a" + p + "b";
    assert !OccursAt("aFwd:b", p, 0) by { assert "aFwd:b"[0] != p[0]; }
    RemoveFirstOccurrence("a", "b", p);
    assert RemoveAll("b", p) == "b";
  }

  /** Removal is a single pass: it can join two halves into a new occurrence and leave it in place. */
  lemma RemovalCanExposePattern()
    ensures RemoveAll("FwFwd:d:", "Fwd:") == "Fwd:"
  {
    var p := "Fwd:";
    assert "FwFwd:d:"[..4][2] != p[2];
    assert "FwFwd:d:"[1..] == "wFwd:d:";
    assert "wFwd:d:"[..4][0] != p[0];
    assert "wFwd:d:"[1..] == "Fwd:d:";
    assert "Fwd:d:"[..4] == p;
    assert "Fwd:d:"[4..] == "d:";
    assert RemoveAll("d:", p) == "d:";
  }

  /** A leading occurrence is removed, and a rest that cannot hold one is kept as it is. */
  lemma RemoveLeading(pat: string, t: string, c: char)
    requires pat != [] && c in pat && c !in t
    ensures RemoveAll(pat + t, pat) == t
  {
    assert (pat + t)[..|pat|] == pat;
    assert (pat + t)[|pat|..] == t;
    RemoveAllMissingChar(t, pat, c);
  }

  /** One leading space goes, and a text without surrounding whitespace stays. */
  lemma StripLeadingSpace(t: string)
    requires Unpadded(t)
    ensures Strip(" " + t) == t
  {
    assert (" " + t)[1..] == t;
    assert LStrip(" " + t) == t;
  }

  /** Text without surrounding whitespace is left alone by Strip. */
  lemma StripUnpadded(t: string)
    requires t == [] || Unpadded(t)
    ensures Strip(t) == t
  {
    assert LStrip(t) == t;
  }

  /** A leading space makes no difference to LStrip. */
  lemma LStripLeadingSpace(x: string)
    ensures LStrip(" " + x) == LStrip(x)
  {
    var s := " " + x;
    assert s[0] == ' ' && IsSpace(' ');
    assert s[1..] == x;
  }

  /** A trailing space makes no difference to RStrip. */
  lemma RStripTrailingSpaceAny(x: string)
    ensures RStrip(x + " ") == RStrip(x)
  {
    assert (x + " ")[..|x|] == x;
  }
}
