/**
 * The few `java.lang.String` operations the proxy relies on: `toLowerCase`
 * (restricted to ASCII letters), `contains`, `replace` with a literal
 * target, and `trim`.
 */
module JavaStrings {

  /** `Character.toLowerCase` on the ASCII range; every other character is kept. */
  function LowerChar(c: char): char {
    if 'A' <= c <= 'Z' then (c as int + 32) as char else c
  }

  /**
   * `r` is a lower-cased `s`: of the same length, with no upper-case ASCII
   * letter, and each position either keeps its character or holds the
   * lower-case partner of an upper-case letter.
   */
  predicate IsLowering(s: string, r: string) {
    && |r| == |s|
    && (forall i :: 0 <= i < |r| ==> !('A' <= r[i] <= 'Z'))
    && (forall i :: 0 <= i < |s| ==> r[i] == s[i] || ('A' <= s[i] <= 'Z' && r[i] as int == s[i] as int + 32))
  }

  /** `String.toLowerCase()`, character by character; `ToLowerLowers` states what it yields. */
  function ToLower(s: string): (r: string)
    ensures |r| == |s|
  {
    seq(|s|, i requires 0 <= i < |s| => LowerChar(s[i]))
  }

  /** `t` occurs in `s` starting at index `i`. */
  predicate OccursAt(s: string, t: string, i: nat) {
    i + |t| <= |s| && s[i..i + |t|] == t
  }

  /** `s.contains(t)`: some index of `s` starts an occurrence of `t`. */
  predicate Contains(s: string, t: string) {
    exists i: nat :: i <= |s| && OccursAt(s, t, i)
  }

  /**
   * The scan `replace` performs from index `i` on: an occurrence of `target`
   * at `i` is replaced and the scan resumes after it; otherwise `s[i]` is kept
   * and the scan moves on by one. The rest is copied once too short to match.
   */
  function ReplaceFrom(s: string, target: string, replacement: string, i: nat): (r: string)
    requires target != [] && i <= |s|
    ensures |target| == |replacement| ==> |r| == |s| - i
    ensures replacement == target ==> r == s[i..]
    decreases |s| - i
  {
    if |s| - i < |target| then s[i..]
    else if OccursAt(s, target, i) then
      assert s[i..] == target + s[i + |target|..];
      replacement + ReplaceFrom(s, target, replacement, i + |target|)
    else
      assert s[i..] == [s[i]] + s[i + 1..];
      [s[i]] + ReplaceFrom(s, target, replacement, i + 1)
  }

  /**
   * `s.replace(target, replacement)` for a non-empty literal target: scans
   * left to right and replaces every non-overlapping occurrence. The result
   * keeps the length when target and replacement have the same length, and
   * replacing the target by itself changes nothing.
   */
  function Replace(s: string, target: string, replacement: string): (r: string)
    requires target != []
    ensures |target| == |replacement| ==> |r| == |s|
    ensures replacement == target ==> r == s
  {
    ReplaceFrom(s, target, replacement, 0)
  }

  // ---- trim ----------------------------------------------------------------

  /** `String.trim()` removes every leading and trailing character up to U+0020. */
  predicate IsTrimmed(c: char) {
    c <= ' '
  }

  /** The index `trim` starts at: the first kept character at or after `i`, or `|s|`. */
  function TrimFrom(s: string, i: nat): (k: nat)
    requires i <= |s|
    ensures i <= k <= |s|
    ensures forall j :: i <= j < k ==> IsTrimmed(s[j])
    ensures k < |s| ==> !IsTrimmed(s[k])
    decreases |s| - i
  {
    if i < |s| && IsTrimmed(s[i]) then TrimFrom(s, i + 1) else i
  }

  /** The index `trim` ends at: just past the last kept character in `[lo, hi)`, or `lo`. */
  function TrimTo(s: string, lo: nat, hi: nat): (k: nat)
    requires lo <= hi <= |s|
    ensures lo <= k <= hi
    ensures forall j :: k <= j < hi ==> IsTrimmed(s[j])
    ensures k > lo ==> !IsTrimmed(s[k - 1])
    decreases hi
  {
    if hi > lo && IsTrimmed(s[hi - 1]) then TrimTo(s, lo, hi - 1) else hi
  }

  /**
   * `String.trim()`: a slice of `s` that neither starts nor ends with a
   * removable character, and nothing but removable characters around it; it
   * is empty exactly when `s` is blank.
   */
  function Trim(s: string): (r: string)
    ensures exists k: nat :: k + |r| <= |s| && r == s[k..k + |r|] && IsBlank(s[..k]) && IsBlank(s[k + |r|..])
    ensures r != [] ==> !IsTrimmed(r[0]) && !IsTrimmed(r[|r| - 1])
    ensures |r| == 0 <==> IsBlank(s)
  {
    var b := TrimFrom(s, 0);
    var e := TrimTo(s, b, |s|);
    TrimmedSlice(s, b, e);
    s[b..e]
  }

  /** Every character of `s` is one that `trim` removes. */
  predicate IsBlank(s: string) {
    forall i :: 0 <= i < |s| ==> IsTrimmed(s[i])
  }

  // ---- lemmas --------------------------------------------------------------

  /** The slice between the two scans of `trim` has the properties `Trim` promises. */
  lemma TrimmedSlice(s: string, b: nat, e: nat)
    requires b <= e <= |s|
    requires forall j :: 0 <= j < b ==> IsTrimmed(s[j])
    requires forall j :: e <= j < |s| ==> IsTrimmed(s[j])
    requires b < |s| ==> !IsTrimmed(s[b])
    requires e > b ==> !IsTrimmed(s[e - 1])
    ensures var r := s[b..e];
            exists k: nat :: k + |r| <= |s| && r == s[k..k + |r|] && IsBlank(s[..k]) && IsBlank(s[k + |r|..])
    ensures var r := s[b..e]; r != [] ==> !IsTrimmed(r[0]) && !IsTrimmed(r[|r| - 1])
    ensures var r := s[b..e]; |r| == 0 <==> IsBlank(s)
  {
    BlankSlice(s, 0, b);
    BlankSlice(s, e, |s|);
    assert s[..b] == s[0..b] && s[e..] == s[e..|s|];
    assert b + |s[b..e]| == e;
  }

  /** A stretch of removable characters is a blank slice. */
  lemma BlankSlice(s: string, i: nat, j: nat)
    requires i <= j <= |s| && forall k :: i <= k < j ==> IsTrimmed(s[k])
    ensures IsBlank(s[i..j])
  {
    assert forall k :: 0 <= k < j - i ==> s[i..j][k] == s[i + k];
  }

  /** `ToLower` lower-cases every ASCII letter and keeps every other character. */
  lemma ToLowerLowers(s: string)
    ensures IsLowering(s, ToLower(s))
  {
  }

  /** Lower-casing distributes over concatenation. */
  lemma ToLowerAppend(a: string, b: string)
    ensures ToLower(a + b) == ToLower(a) + ToLower(b)
  {
    assert forall i :: 0 <= i < |a + b| ==> ToLower(a + b)[i] == (ToLower(a) + ToLower(b))[i];
  }

  /**
   * `s.contains(t)` holds exactly when `s` splits into some text, then `t`,
   * then some more text.
   */
  lemma ContainsSplits(s: string, t: string)
    ensures Contains(s, t) <==> exists a: string, b: string :: s == a + t + b
  {
    if Contains(s, t) {
      var i: nat :| i <= |s| && OccursAt(s, t, i);
      assert s == s[..i] + t + s[i + |t|..];
    }
    if exists a: string, b: string :: s == a + t + b {
      var a: string, b: string :| s == a + t + b;
      assert s[|a|..|a| + |t|] == t;
      assert OccursAt(s, t, |a|);
    }
  }

  /** A string lacking one of the target's characters cannot contain the target. */
  lemma MissingCharRulesOut(s: string, t: string, m: nat)
    requires m < |t| && t[m] !in s
    ensures !Contains(s, t)
  {
  }

  /** No occurrence starts in `[j, k)` when the target's first character is missing there. */
  lemma MissingHeadRulesOut(s: string, t: string, j: nat, k: nat)
    requires |t| > 0 && j <= k <= |s| && t[0] !in s[j..k]
    ensures forall i: nat :: j <= i < k ==> !OccursAt(s, t, i)
  {
    forall i: nat | j <= i < k
      ensures !OccursAt(s, t, i)
    {
      assert s[j..k][i - j] == s[i];
    }
  }

  /** From `i` on, a string with no occurrence at or after `i` is copied unchanged. */
  lemma {:induction false} ReplaceFromAbsent(s: string, t: string, r: string, i: nat)
    requires t != [] && i <= |s|
    requires forall j: nat :: i <= j ==> !OccursAt(s, t, j)
    ensures ReplaceFrom(s, t, r, i) == s[i..]
    decreases |s| - i
  {
    if |s| - i >= |t| {
      ReplaceFromAbsent(s, t, r, i + 1);
      assert s[i..] == [s[i]] + s[i + 1..];
    }
  }

  /** A string that does not contain the target is returned unchanged by `replace`. */
  lemma ReplaceAbsent(s: string, t: string, r: string)
    requires t != [] && !Contains(s, t)
    ensures Replace(s, t, r) == s
  {
    ReplaceFromAbsent(s, t, r, 0);
  }

  /** Scanning from `i` up to the first occurrence at `k` keeps `s[i..k]`, replaces it, and resumes after it. */
  lemma {:induction false} ReplaceFromFirstOccurrence(s: string, t: string, r: string, i: nat, k: nat)
    requires t != [] && i <= k && OccursAt(s, t, k)
    requires forall j: nat :: i <= j < k ==> !OccursAt(s, t, j)
    ensures ReplaceFrom(s, t, r, i) == s[i..k] + r + ReplaceFrom(s, t, r, k + |t|)
    decreases k - i
  {
    if i == k {
      assert s[i..k] == [];
    } else {
      ReplaceFromSkips(s, t, r, i);
      ReplaceFromFirstOccurrence(s, t, r, i + 1, k);
      SliceCons(s, i, k);
      ConsRegroups(s[i], s[i + 1..k], r, ReplaceFrom(s, t, r, k + |t|));
    }
  }

  /**
   * `replace` is left to right: if the first occurrence of `t` starts at `k`,
   * the prefix before it is kept, that occurrence is replaced, and the scan
   * resumes right after it.
   */
  lemma ReplaceFirstOccurrence(s: string, t: string, r: string, k: nat)
    requires t != [] && OccursAt(s, t, k)
    requires forall i: nat :: i < k ==> !OccursAt(s, t, i)
    ensures Replace(s, t, r) == s[..k] + r + ReplaceFrom(s, t, r, k + |t|)
  {
    ReplaceFromFirstOccurrence(s, t, r, 0, k);
  }

  /** Without an occurrence at `i`, the scan keeps `s[i]` and moves on by one. */
  lemma ReplaceFromSkips(s: string, t: string, r: string, i: nat)
    requires t != [] && i + |t| <= |s| && !OccursAt(s, t, i)
    ensures ReplaceFrom(s, t, r, i) == [s[i]] + ReplaceFrom(s, t, r, i + 1)
  {
  }

  lemma SliceCons(s: string, i: nat, k: nat)
    requires i < k <= |s|
    ensures s[i..k] == [s[i]] + s[i + 1..k]
  {
  }

  lemma ConsRegroups(c: char, a: string, b: string, d: string)
    ensures [c] + (a + b + d) == ([c] + a) + b + d
  {
  }

}
