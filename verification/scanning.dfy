/** The byte scanners under the tokenizer: partial matches of a tag sequence, runs of a trigger byte,
 *  and the end of an attribute payload. */
module Scanning {
  import opened Markup

  // ---- longest common sub-prefix ----

  /** How many bytes of `pat` match src from position p on. */
  function CommonLen(src: seq<Byte>, p: nat, pat: seq<Byte>): (c: nat)
    requires p <= |src|
    ensures c <= |pat| && p + c <= |src|
    ensures forall k :: 0 <= k < c ==> src[p + k] == pat[k]
    ensures c < |pat| && p + c < |src| ==> src[p + c] != pat[c]
    decreases |pat|
  {
    if pat == [] || p == |src| || src[p] != pat[0] then 0
    else
      var c := CommonLen(src, p + 1, pat[1..]);
      assert forall k :: 0 <= k < c ==> src[p + 1 + k] == pat[1..][k] == pat[k + 1];
      1 + c
  }

  datatype Match = Match(idx: int, len: nat)

  /** The leftmost position before n with the longest match, or (-1, 0) when nothing matches. */
  function Best(src: seq<Byte>, pat: seq<Byte>, n: nat): (m: Match)
    requires n <= |src|
    ensures m.len <= |pat|
    ensures m.idx == -1 ==> m.len == 0
    ensures m.idx != -1 ==> 0 <= m.idx < n && m.len > 0 && m.idx + m.len <= |src|
  {
    if n == 0 then Match(-1, 0)
    else
      var m, c := Best(src, pat, n - 1), CommonLen(src, n - 1, pat);
      if c > m.len then Match(n - 1, c) else m
  }

  predicate Contains(src: seq<Byte>, pat: seq<Byte>) {
    pat != [] && Best(src, pat, |src|).len == |pat|
  }

  ghost predicate OccursAt(src: seq<Byte>, pat: seq<Byte>, p: nat) {
    p + |pat| <= |src| && src[p..p + |pat|] == pat
  }

  lemma {:induction false} CommonLenFull(src: seq<Byte>, p: nat, pat: seq<Byte>)
    requires p <= |src|
    ensures CommonLen(src, p, pat) == |pat| <==> OccursAt(src, pat, p)
  {
    if OccursAt(src, pat, p) {
      forall k | 0 <= k < |pat| ensures src[p + k] == pat[k] {
        assert src[p..p + |pat|][k] == pat[k];
      }
      CommonLenIs(src, p, pat, |pat|);
    }
  }

  /** `Best` is optimal and leftmost. */
  lemma {:induction false} BestIsOptimal(src: seq<Byte>, pat: seq<Byte>, n: nat)
    requires n <= |src|
    ensures var m := Best(src, pat, n);
      && (forall p :: 0 <= p < n ==> CommonLen(src, p, pat) <= m.len)
      && (m.idx != -1 ==>
           CommonLen(src, m.idx, pat) == m.len && forall p :: 0 <= p < m.idx ==> CommonLen(src, p, pat) < m.len)
  {
    if n > 0 {
      BestIsOptimal(src, pat, n - 1);
    }
  }

  /** Containment is reported exactly when the pattern occurs, at its leftmost occurrence;
   *  otherwise the leftmost of the longest partial matches. */
  lemma {:induction false} BestMeansSearch(src: seq<Byte>, pat: seq<Byte>)
    requires pat != []
    ensures Contains(src, pat) <==> exists p: nat :: OccursAt(src, pat, p)
    ensures var m := Best(src, pat, |src|);
      Contains(src, pat) ==> m.idx >= 0 && OccursAt(src, pat, m.idx) && forall p: nat :: p < m.idx ==> !OccursAt(src, pat, p)
  {
    BestIsOptimal(src, pat, |src|);
    var m := Best(src, pat, |src|);
    forall p: nat | p <= |src| ensures CommonLen(src, p, pat) == |pat| <==> OccursAt(src, pat, p) {
      CommonLenFull(src, p, pat);
    }
  }

  /** In a window no longer than the pattern, a match is a match at the window's start. */
  lemma {:induction false} ShortWindow(src: seq<Byte>, pat: seq<Byte>)
    requires pat != [] && |src| <= |pat| && Contains(src, pat)
    ensures src == pat && Best(src, pat, |src|) == Match(0, |pat|)
  {
    BestMeansSearch(src, pat);
  }

  /** A window starting with the pattern's first byte matches at least one byte. */
  lemma {:induction false} FirstByteMatches(src: seq<Byte>, pat: seq<Byte>)
    requires src != [] && pat != [] && src[0] == pat[0]
    ensures Best(src, pat, |src|).len >= 1
  {
    BestIsOptimal(src, pat, |src|);
    assert CommonLen(src, 0, pat) >= 1;
  }

  /** Index of the first b in input[from..to], or -1. */
  method IndexByte(input: seq<Byte>, b: Byte, lo: nat, hi: nat) returns (i: int)
    requires lo <= hi <= |input|
    ensures i == FirstIndex(input, b, lo, hi)
  {
    i := lo;
    while i < hi
      invariant lo <= i <= hi && FirstIndex(input, b, lo, hi) == FirstIndex(input, b, i, hi)
    {
      if input[i] == b { return; }
      i := i + 1;
    }
    i := -1;
  }

  function FirstIndex(input: seq<Byte>, b: Byte, lo: nat, hi: nat): (i: int)
    requires lo <= hi <= |input|
    ensures i == -1 ==> forall k :: lo <= k < hi ==> input[k] != b
    ensures i != -1 ==> lo <= i < hi && input[i] == b && forall k :: lo <= k < i ==> input[k] != b
    decreases hi - lo
  {
    if lo == hi then -1 else if input[lo] == b then lo else FirstIndex(input, b, lo + 1, hi)
  }

  lemma {:induction false} BestSkips(src: seq<Byte>, pat: seq<Byte>, a: nat, b: nat)
    requires a <= b <= |src|
    requires forall p :: a <= p < b ==> CommonLen(src, p, pat) <= Best(src, pat, a).len
    ensures Best(src, pat, b) == Best(src, pat, a)
    decreases b
  {
    if a < b {
      BestSkips(src, pat, a, b - 1);
    }
  }

  /** Counts the matching bytes at a position whose first byte matches. */
  method MatchedBytes(src: seq<Byte>, startIdx: nat, pat: seq<Byte>) returns (i: nat)
    requires startIdx < |src| && pat != [] && src[startIdx] == pat[0]
    ensures i == CommonLen(src, startIdx, pat)
  {
    var minLen := if |src| - startIdx < |pat| then |src| - startIdx else |pat|;
    i := 1;
    while i < minLen && src[startIdx + i] == pat[i]
      invariant 1 <= i <= minLen && forall k :: 0 <= k < i ==> src[startIdx + k] == pat[k]
    {
      i := i + 1;
    }
    CommonLenIs(src, startIdx, pat, i);
  }

  /** The search as it runs: it jumps between first-byte hits and stops once no longer match fits. */
  method LongestCommonSubPrefix(src: seq<Byte>, pat: seq<Byte>) returns (contained: bool, idx: int, length: nat)
    ensures contained == Contains(src, pat)
    ensures Match(idx, length) == Best(src, pat, |src|)
  {
    hide CommonLen;
    var n, m := |src|, |pat|;
    if m == 0 {
      BestSkips(src, pat, 0, n);
      return false, -1, 0;
    }
    if m == 1 {
      idx := IndexByte(src, pat[0], 0, n);
      SingleByteBest(src, pat, idx);
      return idx > -1, idx, if idx > -1 then 1 else 0;
    }
    var searchStart := 0;
    var maxStartIdx, maxLength := -1, 0;
    while searchStart < n - maxLength
      invariant 0 <= searchStart <= n
      invariant Match(maxStartIdx, maxLength) == Best(src, pat, searchStart) && maxLength < m
      decreases n - searchStart
    {
      var startIdx := IndexByte(src, pat[0], searchStart, n);
      if startIdx == -1 {
        BestSkips(src, pat, searchStart, n);
        return false, maxStartIdx, maxLength;
      }
      BestSkips(src, pat, searchStart, startIdx);
      var i := MatchedBytes(src, startIdx, pat);
      searchStart := startIdx + 1;
      if i > maxLength {
        maxLength := i;
        maxStartIdx := startIdx;
      }
      if i == m {
        BestSkips(src, pat, searchStart, n);
        return true, maxStartIdx, maxLength;
      }
    }
    BestSkips(src, pat, searchStart, n);
    return false, maxStartIdx, maxLength;
  }

  lemma {:induction false} CommonLenIs(src: seq<Byte>, p: nat, pat: seq<Byte>, c: nat)
    requires p + c <= |src| && c <= |pat|
    requires forall k :: 0 <= k < c ==> src[p + k] == pat[k]
    requires c == |pat| || p + c == |src| || src[p + c] != pat[c]
    ensures CommonLen(src, p, pat) == c
    decreases c
  {
    if c > 0 {
      forall k | 0 <= k < c - 1 ensures src[p + 1 + k] == pat[1..][k] {
        assert src[p + (k + 1)] == pat[k + 1];
      }
      CommonLenIs(src, p + 1, pat[1..], c - 1);
    }
  }

  lemma {:induction false} SingleByteBest(src: seq<Byte>, pat: seq<Byte>, idx: int)
    requires |pat| == 1 && idx == FirstIndex(src, pat[0], 0, |src|)
    ensures Best(src, pat, |src|) == if idx == -1 then Match(-1, 0) else Match(idx, 1)
  {
    var n := |src|;
    forall p | 0 <= p < n ensures CommonLen(src, p, pat) == if src[p] == pat[0] then 1 else 0 {
      CommonLenIs(src, p, pat, if src[p] == pat[0] then 1 else 0);
    }
    if idx == -1 {
      BestSkips(src, pat, 0, n);
    } else {
      BestSkips(src, pat, 0, idx);
      BestSkips(src, pat, idx + 1, n);
    }
  }

  // ---- runs of a byte ----

  /** Length of the run of c that starts at p. */
  function RunLen(input: seq<Byte>, c: Byte, p: nat): (r: nat)
    requires p <= |input|
    ensures p + r <= |input| && forall k :: p <= k < p + r ==> input[k] == c
    ensures p + r < |input| ==> input[p + r] != c
    decreases |input| - p
  {
    if p == |input| || input[p] != c then 0 else 1 + RunLen(input, c, p + 1)
  }

  lemma {:induction false} RunLenIs(input: seq<Byte>, c: Byte, p: nat, r: nat)
    requires p + r <= |input| && forall k :: p <= k < p + r ==> input[k] == c
    requires p + r < |input| ==> input[p + r] != c
    ensures RunLen(input, c, p) == r
    decreases r
  {
    if r > 0 {
      RunLenIs(input, c, p + 1, r - 1);
    }
  }

  datatype Closing = ClosesAt(idx: nat) | Unclosed(sawWindowEnd: bool)

  /** The search for a closing run of width w among the runs that start in [p, to). */
  function FindClosing(input: seq<Byte>, c: Byte, w: nat, p: nat, hi: nat): (r: Closing)
    requires hi <= |input|
    decreases hi - p
  {
    if p >= hi then Unclosed(false)
    else
      var q := FirstIndex(input, c, p, hi);
      if q == -1 then Unclosed(true)
      else
        var len := RunLen(input, c, q);
        if len == w then ClosesAt(q) else FindClosing(input, c, w, q + len + 1, hi)
  }

  /** A maximal run of c starts at p. */
  ghost predicate RunStarts(input: seq<Byte>, c: Byte, p: nat) {
    p < |input| && input[p] == c && (p == 0 || input[p - 1] != c)
  }

  /** A maximal run of c of width w starts at p. */
  ghost predicate ClosingRun(input: seq<Byte>, c: Byte, w: nat, p: nat) {
    RunStarts(input, c, p) && RunLen(input, c, p) == w
  }

  /** The search closes exactly when a maximal run of the wanted width starts in the window, and at
   *  the leftmost such run. */
  lemma {:induction false} FindClosingExact(input: seq<Byte>, c: Byte, w: nat, p: nat, hi: nat)
    requires hi <= |input| && w >= 1
    requires 1 <= p && (p <= |input| ==> input[p - 1] != c)
    ensures FindClosing(input, c, w, p, hi).ClosesAt? <==> exists q: nat :: p <= q < hi && ClosingRun(input, c, w, q)
    ensures FindClosing(input, c, w, p, hi).ClosesAt? ==>
      var x := FindClosing(input, c, w, p, hi).idx;
      p <= x < hi && ClosingRun(input, c, w, x) && forall q: nat :: p <= q < x ==> !ClosingRun(input, c, w, q)
    decreases hi - p
  {
    if p < hi {
      var more, next := FirstRun(input, c, w, p, hi);
      hide FindClosing, ClosingRun;
      if more {
        FindClosingExact(input, c, w, next, hi);
      }
    }
  }

  /** One turn of the search: it ends here, or goes on at `next` with nothing before it that closes. */
  lemma {:induction false} FirstRun(input: seq<Byte>, c: Byte, w: nat, p: nat, hi: nat) returns (more: bool, next: nat)
    requires p < hi <= |input| && 1 <= p && input[p - 1] != c
    ensures !more ==>
      if FindClosing(input, c, w, p, hi).ClosesAt? then
        var x := FindClosing(input, c, w, p, hi).idx;
        p <= x < hi && ClosingRun(input, c, w, x) && forall y: nat :: p <= y < x ==> !ClosingRun(input, c, w, y)
      else forall y: nat :: p <= y < hi ==> !ClosingRun(input, c, w, y)
    ensures more ==>
      && p < next && (next <= |input| ==> input[next - 1] != c)
      && FindClosing(input, c, w, p, hi) == FindClosing(input, c, w, next, hi)
      && forall y: nat :: p <= y < next ==> !ClosingRun(input, c, w, y)
  {
    var i := FirstIndex(input, c, p, hi);
    NoEarlierRun(input, c, w, p, hi);
    more, next := false, p;
    if i != -1 {
      OneRun(input, c, w, p, hi);
      if RunLen(input, c, i) != w {
        more, next := true, i + RunLen(input, c, i) + 1;
      }
    }
  }

  /** No run starts before the first trigger byte. */
  lemma {:induction false} NoEarlierRun(input: seq<Byte>, c: Byte, w: nat, p: nat, hi: nat)
    requires p <= hi <= |input|
    ensures var q := FirstIndex(input, c, p, hi);
      forall x: nat :: p <= x < (if q == -1 then hi else q) ==> !ClosingRun(input, c, w, x)
  {
  }

  /** Up to the byte behind the first run, only that run can close. */
  lemma {:induction false} OneRun(input: seq<Byte>, c: Byte, w: nat, p: nat, hi: nat)
    requires p <= hi <= |input| && 1 <= p && input[p - 1] != c && FirstIndex(input, c, p, hi) != -1
    ensures var q := FirstIndex(input, c, p, hi);
      && (ClosingRun(input, c, w, q) <==> RunLen(input, c, q) == w)
      && forall x: nat :: q < x <= q + RunLen(input, c, q) ==> !ClosingRun(input, c, w, x)
  {
  }

  /** When nothing closes, the scan reports that it reached the end of a non-empty window exactly
   *  when neither the window's last byte is the trigger nor the byte before it (inside the
   *  window) is: a run there makes the scan jump past the end unnoticed. */
  lemma {:induction false} WindowEndSeen(input: seq<Byte>, c: Byte, w: nat, p: nat, hi: nat)
    requires hi <= |input| && 1 <= p && (p <= |input| ==> input[p - 1] != c)
    requires FindClosing(input, c, w, p, hi).Unclosed?
    ensures FindClosing(input, c, w, p, hi).sawWindowEnd
       <==> p < hi && input[hi - 1] != c && (hi - 1 == p || input[hi - 2] != c)
    decreases hi - p
  {
    if p < hi {
      var q := FirstIndex(input, c, p, hi);
      if q != -1 {
        var len := RunLen(input, c, q);
        var p' := q + len + 1;
        WindowEndSeen(input, c, w, p', hi);
        if p' >= hi {
          assert hi - 1 <= q + len;
          if hi - 1 < q + len {
            assert input[hi - 1] == c;
          } else {
            assert input[hi - 2] == c && hi - 2 >= p;
          }
        } else if hi - 1 == p' {
          assert input[hi - 2] != c;
        }
      }
    }
  }

  // ---- the end of an attribute payload ----

  /** First byte in [j, to) that is `end` and not escaped, or -1. */
  function PayloadEnd(input: seq<Byte>, j: nat, hi: nat, end: Byte, esc: Byte, escaped: bool): (r: int)
    requires j <= hi <= |input|
    ensures r == -1 || j <= r < hi
    decreases hi - j
  {
    if j == hi then -1
    else if escaped then PayloadEnd(input, j + 1, hi, end, esc, false)
    else if input[j] == esc then PayloadEnd(input, j + 1, hi, end, esc, true)
    else if input[j] == end then j
    else PayloadEnd(input, j + 1, hi, end, esc, false)
  }

  /** How many escape bytes stand directly before r, from lo on. */
  function EscapesBefore(input: seq<Byte>, lo: nat, r: nat, esc: Byte): nat
    requires lo <= r <= |input|
  {
    if r == lo || input[r - 1] != esc then 0 else 1 + EscapesBefore(input, lo, r - 1, esc)
  }

  /** An end byte at r that is not escaped: the escape bytes before it escape each other in pairs. */
  predicate IsOpenEnd(input: seq<Byte>, lo: nat, r: nat, end: Byte, esc: Byte)
    requires lo <= r < |input|
  {
    input[r] == end && EscapesBefore(input, lo, r, esc) % 2 == 0
  }

  /** The scan returns the first end byte that is not escaped, and -1 when there is none; an end byte
   *  that is the escape byte is never returned. */
  lemma {:induction false} PayloadEndMeans(input: seq<Byte>, lo: nat, hi: nat, end: Byte, esc: Byte)
    requires lo <= hi <= |input|
    ensures var r := PayloadEnd(input, lo, hi, end, esc, false);
      if end == esc then r == -1
      else if r == -1 then forall k :: lo <= k < hi ==> !IsOpenEnd(input, lo, k, end, esc)
      else lo <= r < hi && IsOpenEnd(input, lo, r, end, esc) && forall k :: lo <= k < r ==> !IsOpenEnd(input, lo, k, end, esc)
  {
    if end == esc {
      EndIsEscape(input, lo, hi, esc, false);
    } else {
      PayloadEndFrom(input, lo, lo, hi, end, esc, false);
    }
  }

  lemma {:induction false} PayloadEndFrom(input: seq<Byte>, lo: nat, j: nat, hi: nat, end: Byte, esc: Byte, escaped: bool)
    requires lo <= j <= hi <= |input| && end != esc && (escaped <==> EscapesBefore(input, lo, j, esc) % 2 == 1)
    ensures var r := PayloadEnd(input, j, hi, end, esc, escaped);
      && (r == -1 ==> forall k :: j <= k < hi ==> !IsOpenEnd(input, lo, k, end, esc))
      && (r != -1 ==> IsOpenEnd(input, lo, r, end, esc) && forall k :: j <= k < r ==> !IsOpenEnd(input, lo, k, end, esc))
    decreases hi - j
  {
    if j < hi && (escaped || input[j] != end) {
      PayloadEndFrom(input, lo, j + 1, hi, end, esc, !escaped && input[j] == esc);
    }
  }

  lemma {:induction false} EndIsEscape(input: seq<Byte>, j: nat, hi: nat, esc: Byte, escaped: bool)
    requires j <= hi <= |input|
    ensures PayloadEnd(input, j, hi, esc, esc, escaped) == -1
    decreases hi - j
  {
    if j < hi {
      EndIsEscape(input, j + 1, hi, esc, !escaped && input[j] == esc);
    }
  }

  method FindPayloadEndWithEscape(input: seq<Byte>, start: nat, scanEnd: nat, end: Byte, esc: Byte) returns (r: int)
    requires start <= scanEnd <= |input|
    ensures r == PayloadEnd(input, start, scanEnd, end, esc, false)
  {
    var escaped := false;
    for j := start to scanEnd
      invariant PayloadEnd(input, start, scanEnd, end, esc, false) == PayloadEnd(input, j, scanEnd, end, esc, escaped)
    {
      var c := input[j];
      if escaped {
        escaped := false;
        continue;
      }
      if c == esc {
        escaped := true;
        continue;
      }
      if c == end {
        return j;
      }
    }
    return -1;
  }

  /** Without an escape byte in the window, the escape-aware scan is the plain one. */
  lemma {:induction false} NoEscapesNoDifference(input: seq<Byte>, j: nat, hi: nat, end: Byte, esc: Byte)
    requires j <= hi <= |input| && forall k :: j <= k < hi ==> input[k] != esc
    ensures PayloadEnd(input, j, hi, end, esc, false) == FirstIndex(input, end, j, hi)
    decreases hi - j
  {
    if j < hi && input[j] != end {
      NoEscapesNoDifference(input, j + 1, hi, end, esc);
    }
  }
}
