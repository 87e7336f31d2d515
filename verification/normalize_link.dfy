/** Attribute filtering of links: an in-place filter whose output shares its input's memory and can
 *  run ahead of the reading position. */
module NormalizeLink {
  import opened Basics
  import opened LinkFilter
  import opened LinkRules

  // ---- running ahead of the reader ----

  /** The target at t is accepted and blank, every attribute before it is kept (and no target), and
   *  one attribute follows: its slot is where the added `rel` goes. */
  ghost predicate RunsAhead(lib: Library, attrs: seq<Attr>, t: nat) {
    && t + 1 < |attrs| && BlankTarget(lib, attrs[t])
    && forall j :: 0 <= j < t ==> ChosenOther(lib, attrs, j)
  }

  ghost predicate ChosenOther(lib: Library, attrs: seq<Attr>, j: nat) {
    Chosen(lib, attrs, j) && AttrName(lib, attrs[j]) != "target"
  }

  function Without(attrs: seq<Attr>, k: nat): seq<Attr>
    requires k < |attrs|
  {
    attrs[..k] + attrs[k + 1..]
  }

  /** Attributes of other names do not matter. */
  lemma {:induction false} OtherNamesSkipped(lib: Library, attrs: seq<Attr>, k: nat)
    requires k < |attrs| && !IsAllowedName(AttrName(lib, attrs[k]))
    ensures Sifted(lib, attrs) == Sifted(lib, Without(attrs, k))
    decreases |attrs|
  {
    hide Sift;
    var n := |attrs| - 1;
    if k == n {
      assert Without(attrs, k) == attrs[..n];
      OtherNameKeeps(lib, Sifted(lib, attrs[..n]), attrs[k]);
    } else {
      OtherNamesSkipped(lib, attrs[..n], k);
      assert Without(attrs, k)[..n - 1] == Without(attrs[..n], k);
      assert Without(attrs, k)[n - 1] == attrs[n];
    }
  }

  lemma {:induction false} OtherNameKeeps(lib: Library, f: Filter, a: Attr)
    requires !IsAllowedName(AttrName(lib, a)) || AttrName(lib, a) in f.seen
    ensures Sift(lib, f, a) == f
  {
  }

  /** Once all three names are seen, the rest does not matter. */
  lemma {:induction false} NothingMore(lib: Library, attrs: seq<Attr>, k: nat)
    requires k <= |attrs| && {"href", "target", "title"} <= Sifted(lib, attrs[..k]).seen
    ensures Sifted(lib, attrs) == Sifted(lib, attrs[..k])
    decreases |attrs|
  {
    hide Sift;
    if k == |attrs| {
      assert attrs[..k] == attrs;
    } else {
      var n := |attrs| - 1;
      assert attrs[..n][..k] == attrs[..k];
      NothingMore(lib, attrs[..n], k);
      OtherNameKeeps(lib, Sifted(lib, attrs[..n]), attrs[n]);
    }
  }

  /** Without a target, all were kept exactly when as many were kept. */
  lemma {:induction false} AllKept(lib: Library, attrs: seq<Attr>, n: nat)
    requires n <= |attrs| && "target" !in Sifted(lib, attrs[..n]).seen
    ensures |Selected(lib, attrs, n)| <= n
    ensures |Selected(lib, attrs, n)| == n <==> forall j :: 0 <= j < n ==> ChosenOther(lib, attrs, j)
  {
    hide IssueOf, IsBlank;
    SiftedIsSelected(lib, attrs, n);
    if n > 0 {
      SiftedIsSelected(lib, attrs, n - 1);
      AllKept(lib, attrs, n - 1);
      OneOutput(lib, attrs[n - 1]);
      assert Chosen(lib, attrs, n - 1) ==> AttrName(lib, attrs[n - 1]) in Sifted(lib, attrs[..n]).seen;
      assert Chosen(lib, attrs, n - 1) <==> ChosenOther(lib, attrs, n - 1);
    }
  }

  lemma {:induction false} OneOutput(lib: Library, a: Attr)
    ensures AttrName(lib, a) != "target" ==> Output(lib, a) == [a]
  {
  }

  /** A slice over an array: appending writes behind its end, into memory others may still read,
   *  and moves to a larger array when the capacity is used up. */
  class Slice {
    var data: array<Attr>
    var len: nat

    ghost predicate Valid()
      reads this
    {
      len <= data.Length
    }

    function Contents(): seq<Attr>
      reads this, data
      requires Valid()
    {
      data[..len]
    }

    constructor (data: array<Attr>)
      ensures Valid() && this.data == data && len == 0
    {
      this.data, len := data, 0;
    }

    method Append(a: Attr)
      requires Valid()
      modifies this, data
      ensures Valid() && len == old(len) + 1 && Contents() == old(Contents()) + [a]
      ensures old(len) < old(data).Length ==> data == old(data) && data[..] == old(data[..])[old(len) := a]
      ensures old(len) == old(data).Length ==> fresh(data) && old(data)[..] == old(data[..])
    {
      if len == data.Length {
        var larger := new Attr[2 * len + 1](_ => REL);
        for k := 0 to len
          invariant data == old(data) && len == old(len) && larger.Length == 2 * len + 1
          invariant data[..] == old(data[..]) && larger[..k] == data[..k]
        {
          larger[k] := data[k];
        }
        data := larger;
      }
      data[len] := a;
      len := len + 1;
    }
  }

  // ---- what the loop reads ----

  /** The attributes given, what the loop reads in their place, and where it ran ahead. */
  datatype Reading = Reading(attrs: seq<Attr>, read: seq<Attr>, ahead: bool, at: nat)

  /** After i turns: the loop reads the attributes given, or, once it ran ahead, `rel` in the slot
   *  behind the target; at most one more was kept than read, and then `rel` is read next. */
  ghost predicate WfReading(lib: Library, w: Reading, i: nat) {
    && |w.read| == |w.attrs| && i <= |w.read|
    && var f := Sifted(lib, w.read[..i]);
       && (if w.ahead then
             && w.at < i && RunsAhead(lib, w.attrs, w.at) && "target" in f.seen
             && w.read == w.attrs[w.at + 1 := REL]
           else w.read == w.attrs && forall t: nat :: t < i ==> !RunsAhead(lib, w.attrs, t))
       && |f.kept| <= i + 1 && (|f.kept| == i + 1 && i < |w.read| ==> w.read[i] == REL)
  }

  /** The turn at i keeps a blank target, writes as far as it has read, and another attribute follows. */
  ghost predicate RunsAheadNow(lib: Library, w: Reading, i: nat)
    requires i < |w.read|
  {
    var f := Sifted(lib, w.read[..i]);
    "target" !in f.seen && BlankTarget(lib, w.read[i]) && |f.kept| == i && i + 1 < |w.read|
  }

  ghost function NextReading(lib: Library, w: Reading, i: nat): (r: Reading)
    requires i < |w.read|
  {
    if RunsAheadNow(lib, w, i) then Reading(w.attrs, w.read[i + 1 := REL], true, i) else w
  }

  /** RunsAhead, decided from the filter's state. */
  lemma {:induction false} RunsAheadHere(lib: Library, attrs: seq<Attr>, i: nat)
    requires i < |attrs|
    ensures RunsAheadNow(lib, Reading(attrs, attrs, false, 0), i) <==> RunsAhead(lib, attrs, i)
    ensures "target" !in Sifted(lib, attrs[..i]).seen ==> |Sifted(lib, attrs[..i]).kept| <= i
  {
    hide Sifted, Passes, IsBlank, Selected;
    SiftedIsSelected(lib, attrs, i);
    if "target" !in Sifted(lib, attrs[..i]).seen {
      AllKept(lib, attrs, i);
    } else {
      NoLaterAhead(lib, attrs, i, i);
    }
  }

  lemma {:induction false} SiftedNext(lib: Library, read: seq<Attr>, i: nat)
    requires i < |read|
    ensures Sifted(lib, read[..i + 1]) == Sift(lib, Sifted(lib, read[..i]), read[i])
  {
    assert read[..i + 1][..i] == read[..i];
  }

  lemma {:induction false} SiftSize(lib: Library, f: Filter, a: Attr)
    ensures var g := Sift(lib, f, a);
      && f.seen <= g.seen && (g.kept != f.kept ==> IsAllowedName(AttrName(lib, a)))
      && |g.kept| <= |f.kept| + (if "target" !in f.seen && BlankTarget(lib, a) then 2 else 1)
      && (BlankTarget(lib, a) ==> "target" in g.seen)
  {
    hide IssueOf, IsBlank;
  }

  lemma {:induction false} StepReading(lib: Library, w: Reading, i: nat)
    requires WfLibrary(lib) && WfReading(lib, w, i) && i < |w.read|
    ensures var r := NextReading(lib, w, i);
      && |r.read| == |w.read| && r.read[..i + 1] == w.read[..i + 1] && r.attrs == w.attrs
      && WfReading(lib, r, i + 1)
  {
    hide Sifted, RunsAhead, Passes, IsBlank, Output, Sift;
    var f, r := Sifted(lib, w.read[..i]), NextReading(lib, w, i);
    SiftSize(lib, f, w.read[i]);
    assert r.read[..i + 1] == w.read[..i + 1];
    SiftedNext(lib, w.read, i);
    assert AttrName(lib, REL) == "rel";
    var g := Sifted(lib, r.read[..i + 1]);
    if w.ahead {
      assert r == w;
      assert |g.kept| <= i + 1;
    } else {
      RunsAheadHere(lib, w.attrs, i);
      assert RunsAheadNow(lib, w, i) <==> RunsAhead(lib, w.attrs, i);
      assert |g.kept| <= i + 2;
      assert |g.kept| == i + 2 && i + 1 < |w.read| ==> RunsAheadNow(lib, w, i);
      if !RunsAheadNow(lib, w, i) {
        assert forall t: nat :: t < i + 1 ==> !RunsAhead(lib, w.attrs, t);
      }
    }
  }

  lemma {:induction false} StartReading(lib: Library, w: Reading)
    requires w.read == w.attrs && !w.ahead
    ensures WfReading(lib, w, 0) && Sifted(lib, w.read[..0]) == EMPTY
  {
  }

  /** An attribute about to be accepted finds its slot already read. */
  lemma {:induction false} ReadingBounds(lib: Library, w: Reading, i: nat)
    requires WfLibrary(lib) && WfReading(lib, w, i) && i < |w.read| && IsAllowedName(AttrName(lib, w.read[i]))
    ensures |Sifted(lib, w.read[..i]).kept| <= i
  {
    hide Sifted, RunsAhead;
    assert AttrName(lib, REL) == "rel";
  }

  /** What the loop reads behind an accepted attribute. */
  lemma {:induction false} ReadBehind(lib: Library, w: Reading, i: nat)
    requires i < |w.read|
    ensures var f, a, r := Sifted(lib, w.read[..i]), w.read[i], NextReading(lib, w, i);
      var runs := i + 1 < |w.read| && Passes(lib, a) && AttrName(lib, a) !in f.seen && |Output(lib, a)| == 2 && |f.kept| == i;
      && r.read[..i + 1] == w.read[..i + 1]
      && r.read[i + 1..] == if runs then w.read[i + 1..][0 := REL] else w.read[i + 1..]
  {
    hide Sifted, IssueOf, IsBlank;
  }

  lemma {:induction false} OneAhead(lib: Library, attrs: seq<Attr>, t: nat, u: nat)
    requires RunsAhead(lib, attrs, t) && RunsAhead(lib, attrs, u)
    ensures t == u
  {
    hide Chosen, Passes, IsBlank;
    assert t < u ==> ChosenOther(lib, attrs, t);
    assert u < t ==> ChosenOther(lib, attrs, u);
  }

  lemma {:induction false} NoLaterAhead(lib: Library, attrs: seq<Attr>, i: nat, t: nat)
    requires i <= t < |attrs| && "target" in Sifted(lib, attrs[..i]).seen
    ensures !RunsAhead(lib, attrs, t)
  {
    hide Sifted, Chosen, Passes, IsBlank;
    SiftedIsSelected(lib, attrs, i);
    var j :| 0 <= j < i && Passes(lib, attrs[j]) && AttrName(lib, attrs[j]) == "target";
    assert !ChosenOther(lib, attrs, j);
  }

  /** What the finished loop has filtered. */
  lemma {:induction false} ReadingDecides(lib: Library, w: Reading, i: nat)
    requires WfLibrary(lib) && WfReading(lib, w, i)
    requires i == |w.read| || {"href", "target", "title"} <= Sifted(lib, w.read[..i]).seen
    ensures (forall t: nat :: !RunsAhead(lib, w.attrs, t)) ==> Sifted(lib, w.read[..i]) == Sifted(lib, w.attrs)
    ensures forall t: nat :: RunsAhead(lib, w.attrs, t) ==>
      t + 1 < |w.attrs| && Sifted(lib, w.read[..i]) == Sifted(lib, Without(w.attrs, t + 1))
  {
    hide Sifted, RunsAhead;
    if i == |w.read| {
      assert w.read[..i] == w.read;
    } else {
      NothingMore(lib, w.read, i);
    }
    forall t: nat | RunsAhead(lib, w.attrs, t)
      ensures t + 1 < |w.attrs| && Sifted(lib, w.read) == Sifted(lib, Without(w.attrs, t + 1))
    {
      AheadFollowed(lib, w.attrs, t);
      if w.ahead {
        OneAhead(lib, w.attrs, t, w.at);
        assert AttrName(lib, w.read[t + 1]) == "rel";
        OtherNamesSkipped(lib, w.read, t + 1);
        assert Without(w.read, t + 1) == Without(w.attrs, t + 1);
      } else if t >= i {
        NoLaterAhead(lib, w.attrs, i, t);
      }
    }
  }

  lemma {:induction false} AheadFollowed(lib: Library, attrs: seq<Attr>, t: nat)
    requires RunsAhead(lib, attrs, t)
    ensures t + 1 < |attrs|
  {
  }

  // ---- the loop ----

  predicate Flags(seen: set<string>, hasHref: bool, hasTarget: bool, hasTitle: bool, count: int) {
    && hasHref == ("href" in seen) && hasTarget == ("target" in seen) && hasTitle == ("title" in seen)
    && count == (if hasHref then 0 else 1) + (if hasTarget then 0 else 1) + (if hasTitle then 0 else 1)
  }

  /** Appends an accepted attribute, and `rel` behind a blank target. */
  method Keep(lib: Library, allowed: Slice, a: Attr, i: nat, n: nat, ghost buf: array<Attr>)
    requires allowed.Valid() && allowed.data == buf && allowed.len <= i < n <= buf.Length
    modifies allowed, buf
    ensures allowed.Valid() && allowed.Contents() == old(allowed.Contents()) + Output(lib, a)
    ensures allowed.data == buf || fresh(allowed.data)
    ensures i + 1 < n ==> allowed.data == buf
    ensures buf[i + 1..n] ==
      if i + 1 < n && |Output(lib, a)| == 2 && old(allowed.len) == i then old(buf[i + 1..n])[0 := REL] else old(buf[i + 1..n])
  {
    ghost var before := buf[..];
    allowed.Append(a);
    ghost var middle := buf[..];
    assert middle == before[old(allowed.len) := a];
    if AttrName(lib, a) == "target" && IsBlank(lib, a) {
      allowed.Append(REL);
      if allowed.data == buf {
        assert buf[..] == middle[old(allowed.len) + 1 := REL];
      } else {
        assert buf[..] == middle;
      }
    }
    assert buf[i + 1..n] == buf[..][i + 1..n];
    assert old(buf[i + 1..n]) == before[i + 1..n];
  }

  /** Filters the first n attributes of `buf` in place. The result is the plain filter's, unless the
   *  added `rel` overwrites the attribute behind its target before that one is read: then it is the
   *  filter of the attributes without that one. */
  method NormalizeLink(lib: Library, buf: array<Attr>, n: nat) returns (out: seq<Attr>, issues: seq<LinkIssue>)
    requires WfLibrary(lib) && n <= buf.Length
    modifies buf
    ensures var attrs := old(buf[..n]);
      && ((forall t: nat :: !RunsAhead(lib, attrs, t)) ==>
            out == Sifted(lib, attrs).kept && issues == Sifted(lib, attrs).issues)
      && (forall t: nat :: RunsAhead(lib, attrs, t) ==>
            t + 1 < |attrs| && out == Sifted(lib, Without(attrs, t + 1)).kept && issues == Sifted(lib, Without(attrs, t + 1)).issues)
    ensures AllMayStand(lib, out)
    ensures var attrs := old(buf[..n]);
      && ((forall t: nat :: !RunsAhead(lib, attrs, t)) ==>
            out == Wanted(lib, attrs, |attrs|) && IssuesFit(lib, attrs, |attrs|, issues))
      && (forall t: nat :: RunsAhead(lib, attrs, t) ==>
            t + 1 < |attrs|
            && var rest := Without(attrs, t + 1);
               out == Wanted(lib, rest, |rest|) && IssuesFit(lib, rest, |rest|, issues))
  {
    hide AllMayStand, Wanted, IssuesFit, Sifted, WfReading, HrefIssue, TargetIssue, TitleIssue, NextReading, RunsAhead;
    var hasHref, hasTarget, hasTitle := false, false, false;
    var allowed := new Slice(buf);
    var count, i := 3, 0;
    issues := [];
    ghost var w := Reading(buf[..n], buf[..n], false, 0);
    StartReading(lib, w);
    while i < n && count > 0
      invariant 0 <= i <= n && allowed.Valid() && w.attrs == old(buf[..n]) && |w.read| == n && WfReading(lib, w, i)
      invariant fresh(allowed) && (allowed.data == buf || fresh(allowed.data))
      invariant allowed.Contents() == Sifted(lib, w.read[..i]).kept && issues == Sifted(lib, w.read[..i]).issues
      invariant i < n ==> allowed.data == buf && buf[i..n] == w.read[i..]
      invariant Flags(Sifted(lib, w.read[..i]).seen, hasHref, hasTarget, hasTitle, count)
      decreases n - i
    {
      var a := buf[i];
      ghost var f := Sifted(lib, w.read[..i]);
      assert a == w.read[i] && buf[i + 1..n] == w.read[i + 1..] by { assert a == buf[i..n][0] && buf[i + 1..n] == buf[i..n][1..]; }
      StepReading(lib, w, i);
      SiftedNext(lib, w.read, i);
      ReadBehind(lib, w, i);
      var name := AttrName(lib, a);
      if IsAllowedName(name) { ReadingBounds(lib, w, i); }
      if name == "href" && !hasHref {
        var issue := HrefIssue(lib, a);
        if issue == None {
          Keep(lib, allowed, a, i, n, buf);
          hasHref, count := true, count - 1;
        } else {
          issues := issues + [issue.value];
        }
      } else if name == "target" && !hasTarget {
        var issue := TargetIssue(lib, a);
        if issue == None {
          Keep(lib, allowed, a, i, n, buf);
          hasTarget, count := true, count - 1;
        } else {
          issues := issues + [issue.value];
        }
      } else if name == "title" && !hasTitle {
        var issue := TitleIssue(lib, a);
        if issue == None {
          Keep(lib, allowed, a, i, n, buf);
          hasTitle, count := true, count - 1;
        } else {
          issues := issues + [issue.value];
        }
      }
      assert buf[i + 1..n] == NextReading(lib, w, i).read[i + 1..];
      w := NextReading(lib, w, i);
      i := i + 1;
    }
    out := allowed.Contents();
    ReadingDecides(lib, w, i);
    Explained(lib, w.attrs);
    forall t: nat | RunsAhead(lib, w.attrs, t)
      ensures t + 1 < |w.attrs| && IsExplained(lib, Without(w.attrs, t + 1))
    {
      AheadFollowed(lib, w.attrs, t);
      Explained(lib, Without(w.attrs, t + 1));
    }
  }

  /** The filter's result, said directly over the attributes. */
  ghost predicate IsExplained(lib: Library, attrs: seq<Attr>) {
    var f := Sifted(lib, attrs);
    f.kept == Wanted(lib, attrs, |attrs|) && IssuesFit(lib, attrs, |attrs|, f.issues) && AllMayStand(lib, f.kept)
  }

  lemma {:induction false} Explained(lib: Library, attrs: seq<Attr>)
    ensures IsExplained(lib, attrs)
  {
    hide Sifted, Wanted, IssuesFit, AllMayStand;
    assert attrs[..|attrs|] == attrs;
    KeptIsWanted(lib, attrs, |attrs|);
    SiftedIssuesFit(lib, attrs, |attrs|);
    KeptAreGood(lib, attrs, |attrs|);
  }

  // ---- when running ahead shows ----

  function SiftFrom(lib: Library, f: Filter, attrs: seq<Attr>): Filter
    decreases |attrs|
  {
    if attrs == [] then f else SiftFrom(lib, Sift(lib, f, attrs[0]), attrs[1..])
  }

  lemma {:induction false} SiftedAppend(lib: Library, a: seq<Attr>, b: seq<Attr>)
    ensures Sifted(lib, a + b) == SiftFrom(lib, Sifted(lib, a), b)
    decreases |b|
  {
    hide Sift;
    if b == [] {
      assert a + b == a;
    } else {
      SiftedAppend(lib, a + [b[0]], b[1..]);
      assert (a + [b[0]])[..|a|] == a;
      assert a + b == (a + [b[0]]) + b[1..];
    }
  }

  /** The first attribute a filter would accept next. */
  ghost function FirstAccepted(lib: Library, f: Filter, attrs: seq<Attr>): Option<Attr> {
    if attrs == [] then None
    else if Accepts(lib, f, attrs[0]) then Some(attrs[0])
    else FirstAccepted(lib, f, attrs[1..])
  }

  ghost predicate SameKept(f: Filter, g: Filter) {
    f.kept == g.kept && f.seen == g.seen
  }

  lemma {:induction false} SameFrom(lib: Library, f: Filter, g: Filter, attrs: seq<Attr>)
    requires SameKept(f, g)
    ensures SiftFrom(lib, f, attrs).kept == SiftFrom(lib, g, attrs).kept
    ensures FirstAccepted(lib, f, attrs) == FirstAccepted(lib, g, attrs)
    decreases |attrs|
  {
    hide IssueOf, Output;
    if attrs != [] {
      SameFrom(lib, Sift(lib, f, attrs[0]), Sift(lib, g, attrs[0]), attrs[1..]);
      if !Accepts(lib, f, attrs[0]) {
        SameFrom(lib, f, g, attrs[1..]);
      }
    }
  }

  lemma {:induction false} KeptGrows(lib: Library, f: Filter, attrs: seq<Attr>)
    ensures f.kept <= SiftFrom(lib, f, attrs).kept
    decreases |attrs|
  {
    hide IssueOf, Output;
    if attrs != [] {
      KeptGrows(lib, Sift(lib, f, attrs[0]), attrs[1..]);
    }
  }

  /** Accepting and rejecting, step by step. */
  lemma {:induction false} SiftCases(lib: Library, f: Filter, a: Attr)
    ensures var g := Sift(lib, f, a);
      if Accepts(lib, f, a) then
        && g.seen == f.seen + {AttrName(lib, a)}
        && ("target" in f.seen ==> g.kept == f.kept + [a])
      else SameKept(f, g)
  {
    hide IssueOf, IsBlank;
  }

  /** Leaving b out shows unless an identical attribute is the next one accepted. */
  lemma {:induction false} LeftOut(lib: Library, f: Filter, b: Attr, rest: seq<Attr>)
    requires "target" in f.seen && Accepts(lib, f, b)
    ensures SiftFrom(lib, f, rest).kept == SiftFrom(lib, Sift(lib, f, b), rest).kept <==> FirstAccepted(lib, f, rest) == Some(b)
    decreases |rest|
  {
    hide Sift, Passes;
    var g := Sift(lib, f, b);
    SiftCases(lib, f, b);
    if rest != [] {
      var x := rest[0];
      var f2, g2 := Sift(lib, f, x), Sift(lib, g, x);
      SiftCases(lib, f, x);
      SiftCases(lib, g, x);
      if !Accepts(lib, f, x) {
        SiftCases(lib, f2, b);
        LeftOut(lib, f2, b, rest[1..]);
        SameFrom(lib, Sift(lib, f2, b), g2, rest[1..]);
        SameFrom(lib, f, f2, rest[1..]);
      } else if x == b {
        SameFrom(lib, f2, g2, rest[1..]);
      } else {
        KeptGrows(lib, f2, rest[1..]);
        KeptGrows(lib, g2, rest[1..]);
        KeptGrows(lib, g, rest);
        assert SiftFrom(lib, f, rest).kept[|f.kept|] == x && SiftFrom(lib, g, rest).kept[|f.kept|] == b;
      }
    }
  }

  /** Where the loop runs ahead, the output is still that of the plain filter if and only if the
   *  attribute behind the target is one the filter rejects, or an identical one is accepted next. */
  lemma {:induction false} AheadShows(lib: Library, attrs: seq<Attr>, t: nat)
    requires RunsAhead(lib, attrs, t) && t + 1 < |attrs|
    ensures var f := Sifted(lib, attrs[..t + 1]);
      Sifted(lib, Without(attrs, t + 1)).kept == Sifted(lib, attrs).kept
      <==> !Accepts(lib, f, attrs[t + 1]) || FirstAccepted(lib, f, attrs[t + 2..]) == Some(attrs[t + 1])
  {
    hide Sift, Passes, IsBlank;
    var f, b, rest := Sifted(lib, attrs[..t + 1]), attrs[t + 1], attrs[t + 2..];
    SiftedNext(lib, attrs, t);
    SiftSize(lib, Sifted(lib, attrs[..t]), attrs[t]);
    SiftedAppend(lib, attrs[..t + 1], rest);
    SiftedAppend(lib, attrs[..t + 1], [b] + rest);
    assert attrs == attrs[..t + 1] + ([b] + rest);
    assert ([b] + rest)[1..] == rest;
    assert SiftFrom(lib, f, [b] + rest) == SiftFrom(lib, Sift(lib, f, b), rest);
    if Accepts(lib, f, b) {
      LeftOut(lib, f, b, rest);
    } else {
      SiftCases(lib, f, b);
      SameFrom(lib, f, Sift(lib, f, b), rest);
    }
  }

  /** A link that loses its address: a blank target first, then the only href. */
  lemma {:induction false} LostHref(lib: Library)
    requires WfLibrary(lib) && lib.lower("target") == "target" && lib.lower("href") == "href"
    requires lib.trim("_blank") == "_blank" && lib.trim("/home") == "/home" && lib.scheme("/home") == Some("") && lib.lower("") == ""
    ensures var target, href := Attr("target", "_blank", false), Attr("href", "/home", false);
      && RunsAhead(lib, [target, href], 0)
      && Sifted(lib, [target, href]).kept == [target, REL, href]
      && Sifted(lib, Without([target, href], 1)).kept == [target, REL]
  {
    var target, href := Attr("target", "_blank", false), Attr("href", "/home", false);
    var both := [target, href];
    assert both[..1] == [target] && both[2..] == [] && [target][..0] == [];
    assert Without(both, 1) == [target];
    PlainPayload("_blank");
    PlainPayload("/home");
    assert TargetIssue(lib, target) == None && HrefIssue(lib, href) == None;
    var f := Sift(lib, EMPTY, target);
    assert Sifted(lib, [target]) == f by { assert Sifted(lib, []) == EMPTY; }
    assert f.kept == [target, REL] && f.seen == {"target"};
    assert Sifted(lib, both) == Sift(lib, f, href);
  }

  lemma {:induction false} PlainPayload(s: string)
    requires s == "_blank" || s == "/home"
    ensures s != "" && '\0' !in s && '\r' !in s && '\n' !in s && '\t' !in s && !IsProtocolRelative(s)
  {
  }
}
