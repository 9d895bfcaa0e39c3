/** The few Python `str` operations the deliberation core relies on, over
    `string` = `seq<char>` (one char per Unicode scalar value). */
module Strings {

  /** Python's `str.isspace()`, which is also what the regex class `\s` matches
      in a `str` pattern: the ASCII controls tab to carriage return, the four
      information separators, space, NEL, no-break space, Ogham space, the
      typographic spaces U+2000..U+200A, the line and paragraph separators,
      narrow no-break space, medium mathematical space and the ideographic space. */
  predicate IsSpace(c: char) {
    || ('\t' <= c <= '\r')
    || ('\U{1C}' <= c <= '\U{1F}')
    || c == ' '
    || c == '\U{85}'
    || c == '\U{A0}'
    || c == '\U{1680}'
    || ('\U{2000}' <= c <= '\U{200A}')
    || c == '\U{2028}'
    || c == '\U{2029}'
    || c == '\U{202F}'
    || c == '\U{205F}'
    || c == '\U{3000}'
  }

  predicate AllSpace(s: string) {
    forall i | 0 <= i < |s| :: IsSpace(s[i])
  }

  /** Neither end of `s` is whitespace: what `strip()` leaves behind. */
  predicate IsTrimmed(s: string) {
    s == [] || (!IsSpace(s[0]) && !IsSpace(s[|s| - 1]))
  }

  /** Dropping a whitespace head before a whitespace-led suffix keeps a suffix
      led by whitespace. */
  lemma SpaceHeadSuffix(s: string, r: string)
    requires s != [] && IsSpace(s[0])
    requires |r| <= |s| - 1 && r == s[1..][|s| - 1 - |r|..] && AllSpace(s[1..][..|s| - 1 - |r|])
    ensures r == s[|s| - |r|..] && AllSpace(s[..|s| - |r|])
  {
    assert s[1..][|s| - 1 - |r|..] == s[|s| - |r|..];
    assert forall i | 1 <= i < |s| - |r| :: s[i] == s[1..][..|s| - 1 - |r|][i - 1];
  }

  /** Dropping a whitespace tail after a whitespace-ended prefix keeps a prefix
      followed by whitespace. */
  lemma SpaceTailPrefix(s: string, r: string)
    requires s != [] && IsSpace(s[|s| - 1])
    requires |r| <= |s| - 1 && r == s[..|s| - 1][..|r|] && AllSpace(s[..|s| - 1][|r|..])
    ensures r == s[..|r|] && AllSpace(s[|r|..])
  {
    assert s[..|s| - 1][..|r|] == s[..|r|];
    assert forall i | |r| <= i < |s| - 1 :: s[i] == s[..|s| - 1][|r|..][i - |r|];
  }

  /** `s.lstrip()`: a suffix of `s`, and what was dropped is all whitespace. */
  function TrimStart(s: string): (r: string)
    ensures |r| <= |s| && r == s[|s| - |r|..]
    ensures AllSpace(s[..|s| - |r|])
    ensures r == [] || !IsSpace(r[0])
    decreases |s|
  {
    if s != [] && IsSpace(s[0]) then
      var r := TrimStart(s[1..]);
      SpaceHeadSuffix(s, r);
      r
    else s
  }

  /** `s.rstrip()`: a prefix of `s`, and what was dropped is all whitespace. */
  function TrimEnd(s: string): (r: string)
    ensures |r| <= |s| && r == s[..|r|]
    ensures AllSpace(s[|r|..])
    ensures r == [] || !IsSpace(r[|r| - 1])
    decreases |s|
  {
    if s != [] && IsSpace(s[|s| - 1]) then
      var r := TrimEnd(s[..|s| - 1]);
      SpaceTailPrefix(s, r);
      r
    else s
  }

  /** `s.strip()`: the slice of `s` left once the whitespace runs at both ends
      are removed. No whitespace is left at either end, a string that already
      has none is returned unchanged, and every character comes from `s`. */
  function Strip(s: string): (r: string)
    ensures exists a: nat, b: nat :: a <= b <= |s| && r == s[a..b] && AllSpace(s[..a]) && AllSpace(s[b..])
    ensures IsTrimmed(r)
    ensures IsTrimmed(s) ==> r == s
    ensures forall c | c in r :: c in s
  {
    var t := TrimStart(s);
    var u := TrimEnd(t);
    MiddleSlice(s, t, u);
    u
  }

  /** A whitespace-free-at-the-ends prefix `u` of a suffix `t` of `s`, with
      only whitespace cut away, is a slice of `s` between two whitespace runs. */
  lemma MiddleSlice(s: string, t: string, u: string)
    requires |t| <= |s| && t == s[|s| - |t|..] && AllSpace(s[..|s| - |t|])
    requires |u| <= |t| && u == t[..|u|] && AllSpace(t[|u|..])
    ensures exists a: nat, b: nat :: a <= b <= |s| && u == s[a..b] && AllSpace(s[..a]) && AllSpace(s[b..])
    ensures forall c | c in u :: c in s
  {
    var a := |s| - |t|;
    var b := a + |u|;
    assert u == s[a..b];
    assert t[|u|..] == s[b..];
    assert forall i | 0 <= i < |u| :: u[i] == s[a + i];
  }

  /** Python's `p in s` on strings, as a left-to-right scan. */
  predicate Contains(s: string, p: string)
    decreases |s|
  {
    |p| <= |s| && (s[..|p|] == p || Contains(s[1..], p))
  }

  /** `p` occurs in `s` starting at index `i`. */
  predicate OccursAt(s: string, p: string, i: nat) {
    i + |p| <= |s| && s[i..i + |p|] == p
  }

  /** The scan finds `p` exactly when `p` occurs at some position of `s`. */
  lemma {:induction false} ContainsIff(s: string, p: string)
    ensures Contains(s, p) <==> exists i: nat :: OccursAt(s, p, i)
    decreases |s|
  {
    if |p| <= |s| && s[..|p|] == p {
      assert OccursAt(s, p, 0);
    } else if |p| <= |s| {
      ContainsIff(s[1..], p);
      if Contains(s[1..], p) {
        var i: nat :| OccursAt(s[1..], p, i);
        assert s[i + 1..i + 1 + |p|] == s[1..][i..i + |p|];
        assert OccursAt(s, p, i + 1);
      }
      if i: nat :| OccursAt(s, p, i) {
        assert i != 0;
        assert s[1..][i - 1..i - 1 + |p|] == s[i..i + |p|];
        assert OccursAt(s[1..], p, i - 1);
      }
    }
  }

  lemma ContainsAt(s: string, p: string, i: nat)
    requires OccursAt(s, p, i)
    ensures Contains(s, p)
  {
    ContainsIff(s, p);
  }

  /** Whatever occurs inside an occurrence of `a + p + b` occurs in `s`. */
  lemma ContainsInfix(s: string, a: string, p: string, b: string)
    requires Contains(s, a + p + b)
    ensures Contains(s, p)
  {
    ContainsIff(s, a + p + b);
    var w := a + p + b;
    var i: nat :| OccursAt(s, w, i);
    assert forall k | 0 <= k < |p| :: s[i + |a| + k] == s[i..i + |w|][|a| + k] == w[|a| + k] == p[k];
    assert s[i + |a|..i + |a| + |p|] == p;
    ContainsAt(s, p, i + |a|);
  }

  /** An occurrence inside `s[lo..hi]` is an occurrence in `s`. */
  lemma ContainsSlice(s: string, p: string, lo: nat, hi: nat)
    requires lo <= hi <= |s| && Contains(s[lo..hi], p)
    ensures Contains(s, p)
  {
    ContainsIff(s[lo..hi], p);
    var i: nat :| OccursAt(s[lo..hi], p, i);
    assert forall k | 0 <= k < |p| :: s[lo + i + k] == s[lo..hi][i + k] == p[k];
    assert s[lo + i..lo + i + |p|] == p;
    ContainsAt(s, p, lo + i);
  }

  /** A pattern whose first character is missing from `s` does not occur in it. */
  lemma {:induction false} AbsentHead(s: string, p: string)
    requires p != [] && p[0] !in s
    ensures !Contains(s, p)
    decreases |s|
  {
    if |p| <= |s| {
      assert s[..|p|][0] == s[0];
      AbsentHead(s[1..], p);
    }
  }

  /** `p` occurs in `a + p + b`. */
  lemma InfixOf(a: string, p: string, b: string)
    ensures Contains(a + p + b, p)
  {
    var s := a + p + b;
    assert s[|a|..|a| + |p|] == p;
    ContainsAt(s, p, |a|);
  }

  /** Text added after an occurrence keeps it. */
  lemma ContainsAppend(s: string, t: string, p: string)
    requires Contains(s, p)
    ensures Contains(s + t, p)
  {
    ContainsSlice(s + t, p, 0, |s|) by {
      assert (s + t)[0..|s|] == s;
    }
  }

  /** Text added before an occurrence keeps it. */
  lemma ContainsPrepend(t: string, s: string, p: string)
    requires Contains(s, p)
    ensures Contains(t + s, p)
  {
    ContainsSlice(t + s, p, |t|, |t + s|) by {
      assert (t + s)[|t|..|t + s|] == s;
    }
  }

  /** `s.replace(p, "")`: the non-overlapping occurrences of `p`, found left to
      right, are deleted. Nothing grows, and where `p` does not occur there is
      nothing to delete. */
  function RemoveAll(s: string, p: string): (r: string)
    requires p != []
    ensures |r| <= |s|
    ensures !Contains(s, p) ==> r == s
    decreases |s|
  {
    if |s| < |p| then s
    else if s[..|p|] == p then RemoveAll(s[|p|..], p)
    else
      assert s == [s[0]] + s[1..];
      [s[0]] + RemoveAll(s[1..], p)
  }

  /** An occurrence in `s[1..]` is an occurrence in `s` one place later. */
  lemma OccursShift(s: string, p: string, i: nat)
    requires s != []
    ensures OccursAt(s[1..], p, i) <==> OccursAt(s, p, i + 1)
  {
    if i + 1 + |p| <= |s| {
      assert s[1..][i..i + |p|] == s[i + 1..i + 1 + |p|];
    }
  }

  /** Where no occurrence starts at the scan point, the first character is kept. */
  lemma RemoveAllKeepsHead(s: string, p: string)
    requires p != [] && |p| <= |s| && !OccursAt(s, p, 0)
    ensures RemoveAll(s, p) == [s[0]] + RemoveAll(s[1..], p)
  {
  }

  /** No occurrence starting in `x` means none starting in `x[1..]` either. */
  lemma NoEarlyOccurrenceTail(x: string, p: string, z: string)
    requires x != []
    requires forall i | 0 <= i < |x| :: !OccursAt(x + p + z, p, i)
    ensures forall i | 0 <= i < |x| - 1 :: !OccursAt(x[1..] + p + z, p, i)
  {
    var s := x + p + z;
    assert s[1..] == x[1..] + p + z;
    forall i | 0 <= i < |x| - 1
      ensures !OccursAt(x[1..] + p + z, p, i)
    {
      assert !OccursAt(s, p, i + 1);
      OccursShift(s, p, i);
    }
  }

  /** The scan keeps the text before the first occurrence of `p` and drops
      that occurrence: `x` holds no start of an occurrence in `x + p + z`. */
  lemma {:induction false} RemoveAllDropsFirst(x: string, p: string, z: string)
    requires p != []
    requires forall i | 0 <= i < |x| :: !OccursAt(x + p + z, p, i)
    ensures RemoveAll(x + p + z, p) == x + RemoveAll(z, p)
    decreases |x|
  {
    var s := x + p + z;
    if x == [] {
      assert s[..|p|] == p && s[|p|..] == z;
    } else {
      var t := x[1..] + p + z;
      assert s[1..] == t;
      RemoveAllKeepsHead(s, p);
      NoEarlyOccurrenceTail(x, p, z);
      RemoveAllDropsFirst(x[1..], p, z);
      assert x + RemoveAll(z, p) == [x[0]] + (x[1..] + RemoveAll(z, p));
    }
  }

  /** Deleting occurrences never introduces a character. */
  lemma {:induction false} RemoveAllChars(s: string, p: string, c: char)
    requires p != [] && c in RemoveAll(s, p)
    ensures c in s
    decreases |s|
  {
    if |s| < |p| {
    } else if s[..|p|] == p {
      RemoveAllChars(s[|p|..], p, c);
    } else if c != s[0] {
      RemoveAllChars(s[1..], p, c);
    }
  }

  /** A first character that cannot begin `p` is kept in front. */
  lemma RemoveAllHead(s: string, p: string)
    requires p != [] && s != [] && s[0] != p[0]
    ensures RemoveAll(s, p) == [s[0]] + RemoveAll(s[1..], p)
  {
    if |s| < |p| {
      assert RemoveAll(s[1..], p) == s[1..];
      assert s == [s[0]] + s[1..];
    } else {
      assert s[..|p|][0] == s[0];
    }
  }

  /** Python's `c.lower()` restricted to ASCII letters; every other character
      is left as it is. */
  function LowerChar(c: char): char {
    if 'A' <= c <= 'Z' then (c as int + 32) as char else c
  }

  const LOWER_LETTERS := "abcdefghijklmnopqrstuvwxyz"

  /** `s.lower()` on ASCII: same length, every upper-case ASCII letter becomes
      the lower-case letter at the same place in the alphabet, and every other
      character is kept. */
  function LowerAscii(s: string): (r: string)
    ensures |r| == |s|
    ensures forall i | 0 <= i < |r| :: !('A' <= r[i] <= 'Z')
    ensures forall i | 0 <= i < |s| && 'A' <= s[i] <= 'Z' :: r[i] == LOWER_LETTERS[s[i] as int - 'A' as int]
    ensures forall i | 0 <= i < |s| && !('A' <= s[i] <= 'Z') :: r[i] == s[i]
  {
    seq(|s|, i requires 0 <= i < |s| => LowerChar(s[i]))
  }

  /** `sep.join(parts)`. */
  function Join(parts: seq<string>, sep: string): string
    decreases |parts|
  {
    if |parts| == 0 then ""
    else if |parts| == 1 then parts[0]
    else parts[0] + sep + Join(parts[1..], sep)
  }

  /** Every joined part occurs in the joined string. */
  lemma {:induction false} JoinContainsEach(parts: seq<string>, sep: string, i: nat)
    requires i < |parts|
    ensures Contains(Join(parts, sep), parts[i])
    decreases |parts|
  {
    var j := Join(parts, sep);
    if |parts| == 1 {
      assert OccursAt(j, parts[0], 0);
      ContainsAt(j, parts[0], 0);
    } else if i == 0 {
      assert OccursAt(j, parts[0], 0);
      ContainsAt(j, parts[0], 0);
    } else {
      JoinContainsEach(parts[1..], sep, i - 1);
      var rest := Join(parts[1..], sep);
      assert j[|parts[0] + sep|..|j|] == rest;
      ContainsSlice(j, parts[i], |parts[0] + sep|, |j|);
    }
  }
}
