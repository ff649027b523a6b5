/** Replace-all with ordinal, case-insensitive matching, as the description
    template is rendered. Case is folded over ASCII letters only. */
module CaseInsensitiveText {

  /** ASCII lower-casing of one character; every other character is kept. */
  function Lower(c: char): (d: char)
    ensures 'A' <= c <= 'Z' ==> d as int == c as int + 32
    ensures !('A' <= c <= 'Z') ==> d == c
  {
    if 'A' <= c <= 'Z' then (c as int + 32) as char else c
  }

  /** The case-folded form of a string. */
  function Fold(s: string): (f: string)
    ensures |f| == |s|
    ensures forall i :: 0 <= i < |s| ==> f[i] == Lower(s[i])
  {
    seq(|s|, i requires 0 <= i < |s| => Lower(s[i]))
  }

  /** `s` begins with `p`, comparing character by character up to case. */
  predicate StartsWithCI(s: string, p: string)
    decreases p
  {
    |p| <= |s| && (p == [] || (Lower(s[0]) == Lower(p[0]) && StartsWithCI(s[1..], p[1..])))
  }

  /** The character-by-character comparison is exactly "the first `|p|`
      characters of `s`, case-folded, are `p` case-folded". */
  lemma {:induction false} StartsWithCIIsFoldedPrefix(s: string, p: string)
    ensures StartsWithCI(s, p) <==> |p| <= |s| && Fold(s[..|p|]) == Fold(p)
    decreases p
  {
    if p != [] && |p| <= |s| {
      StartsWithCIIsFoldedPrefix(s[1..], p[1..]);
      assert s[1..][..|p| - 1] == s[..|p|][1..];
      var a, b := Fold(s[..|p|]), Fold(p);
      assert a == b <==> a[0] == b[0] && a[1..] == b[1..];
      assert a[1..] == Fold(s[..|p|][1..]);
      assert b[1..] == Fold(p[1..]);
    }
  }

  /** `s` holds `p` at position `i`, ignoring case. */
  predicate MatchAt(s: string, i: int, p: string) {
    0 <= i <= |s| && StartsWithCI(s[i..], p)
  }

  /** `s` holds no case-insensitive occurrence of `p` at or after position `from`. */
  predicate NoMatchFrom(s: string, p: string, from: int) {
    forall j :: from <= j <= |s| ==> !MatchAt(s, j, p)
  }

  /** Dropping the first character shifts every occurrence one place left. */
  lemma MatchAtTail(s: string, p: string, j: int)
    requires s != [] && 0 < j
    ensures MatchAt(s[1..], j - 1, p) <==> MatchAt(s, j, p)
  {
    if j <= |s| {
      assert s[1..][j - 1..] == s[j..];
    }
  }

  lemma NoMatchInTail(s: string, p: string)
    requires s != []
    ensures NoMatchFrom(s, p, 0) ==> NoMatchFrom(s[1..], p, 0)
  {
    if NoMatchFrom(s, p, 0) {
      forall j | 0 <= j <= |s| - 1 ensures !MatchAt(s[1..], j, p) {
        MatchAtTail(s, p, j + 1);
      }
    }
  }

  /** Replaces every occurrence of `p` in `s` by `r`, scanning left to right:
      occurrences do not overlap and text already substituted is not scanned
      again in the same pass. */
  function ReplaceAllCI(s: string, p: string, r: string): (res: string)
    requires p != []
    ensures |p| == |r| ==> |res| == |s|
    decreases |s|
  {
    if |s| < |p| then s
    else if StartsWithCI(s, p) then r + ReplaceAllCI(s[|p|..], p, r)
    else [s[0]] + ReplaceAllCI(s[1..], p, r)
  }

  /** A text with no occurrence of `p` comes back unchanged. */
  lemma {:induction false} NoMatchNoChange(s: string, p: string, r: string)
    requires p != [] && NoMatchFrom(s, p, 0)
    ensures ReplaceAllCI(s, p, r) == s
    decreases |s|
  {
    if |s| >= |p| {
      assert s[0..] == s && !MatchAt(s, 0, p);
      NoMatchInTail(s, p);
      NoMatchNoChange(s[1..], p, r);
    }
  }

  /** A text that does not start with an occurrence keeps its first character. */
  lemma SkipFirst(s: string, p: string, r: string)
    requires p != [] && |s| >= |p| && !StartsWithCI(s, p)
    ensures ReplaceAllCI(s, p, r) == [s[0]] + ReplaceAllCI(s[1..], p, r)
  {
  }

  /** `s` holds no case-insensitive occurrence of `p` before position `i`. */
  predicate NoMatchBefore(s: string, p: string, i: int) {
    forall j :: 0 <= j < i ==> !MatchAt(s, j, p)
  }

  /** When the first occurrence is not at the start, it is the first
      occurrence of the tail too, one place further left. */
  lemma LeftmostInTail(s: string, p: string, i: nat)
    requires 0 < i && MatchAt(s, i, p) && NoMatchBefore(s, p, i)
    ensures |s| >= |p| && !StartsWithCI(s, p)
    ensures MatchAt(s[1..], i - 1, p) && NoMatchBefore(s[1..], p, i - 1)
  {
    assert s[0..] == s && !MatchAt(s, 0, p);
    MatchAtTail(s, p, i);
    forall j | 0 <= j < i - 1 ensures !MatchAt(s[1..], j, p) {
      MatchAtTail(s, p, j + 1);
    }
  }

  /** The first occurrence decides: text before it is kept verbatim, the
      occurrence becomes `r`, and the rest of the text is processed afresh. */
  lemma {:induction false} ReplaceAtLeftmost(s: string, p: string, r: string, i: nat)
    requires p != []
    requires MatchAt(s, i, p) && NoMatchBefore(s, p, i)
    ensures ReplaceAllCI(s, p, r) == s[..i] + r + ReplaceAllCI(s[i + |p|..], p, r)
    decreases i
  {
    var x := ReplaceAllCI(s[i + |p|..], p, r);
    if i == 0 {
      assert s[0..] == s && s[..0] == [];
    } else {
      var t := s[1..];
      LeftmostInTail(s, p, i);
      SkipFirst(s, p, r);
      ReplaceAtLeftmost(t, p, r, i - 1);
      PrependKept(s, i, |p|, r, ReplaceAllCI(t, p, r), x);
    }
  }

  lemma PrependKept(s: string, i: nat, n: nat, r: string, y: string, x: string)
    requires 0 < i && i + n <= |s|
    requires y == s[1..][..i - 1] + r + x
    ensures [s[0]] + y == s[..i] + r + x
  {
    assert s[..i] == [s[0]] + s[1..][..i - 1];
  }

  /** Matching depends on the pattern only up to case. */
  lemma {:induction false} StartsWithIgnoresPatternCase(s: string, p: string, q: string)
    requires Fold(p) == Fold(q)
    ensures StartsWithCI(s, p) == StartsWithCI(s, q)
    decreases p
  {
    if p != [] && |p| <= |s| {
      assert Fold(p[1..]) == Fold(p)[1..] && Fold(q[1..]) == Fold(q)[1..];
      StartsWithIgnoresPatternCase(s[1..], p[1..], q[1..]);
    }
  }

  /** Two patterns that fold to the same text replace exactly the same
      occurrences, so `{storename}` and `{StoreName}` are one placeholder. */
  lemma {:induction false} ReplaceIgnoresPatternCase(s: string, p: string, q: string, r: string)
    requires p != [] && Fold(p) == Fold(q)
    ensures ReplaceAllCI(s, p, r) == ReplaceAllCI(s, q, r)
    decreases |s|
  {
    if |s| >= |p| {
      StartsWithIgnoresPatternCase(s, p, q);
      if StartsWithCI(s, p) {
        ReplaceIgnoresPatternCase(s[|p|..], p, q, r);
      } else {
        ReplaceIgnoresPatternCase(s[1..], p, q, r);
      }
    }
  }

  /** Number of occurrences a left-to-right, non-overlapping scan replaces. */
  function CountCI(s: string, p: string): (n: nat)
    requires p != []
    decreases |s|
  {
    if |s| < |p| then 0
    else if StartsWithCI(s, p) then 1 + CountCI(s[|p|..], p)
    else CountCI(s[1..], p)
  }

  /** Each replaced occurrence changes the length by `|r| - |p|`. */
  lemma {:induction false} ReplaceLength(s: string, p: string, r: string)
    requires p != []
    ensures |ReplaceAllCI(s, p, r)| == |s| + CountCI(s, p) * (|r| - |p|)
    decreases |s|
  {
    if |s| >= |p| {
      if StartsWithCI(s, p) {
        var rest := s[|p|..];
        ReplaceLength(rest, p, r);
        assert |ReplaceAllCI(s, p, r)| == |r| + |ReplaceAllCI(rest, p, r)|;
        assert CountCI(s, p) == 1 + CountCI(rest, p);
        OneMoreOccurrence(|s|, |p|, |r|, CountCI(rest, p));
      } else {
        ReplaceLength(s[1..], p, r);
        assert CountCI(s, p) == CountCI(s[1..], p);
        assert |ReplaceAllCI(s, p, r)| == 1 + |ReplaceAllCI(s[1..], p, r)|;
      }
    }
  }

  lemma OneMoreOccurrence(n: int, lp: int, lr: int, c: int)
    ensures lr + (n - lp + c * (lr - lp)) == n + (1 + c) * (lr - lp)
  {
  }
}
