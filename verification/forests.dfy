/** Forests given by a parent vector, and their rose trees.
 *
 *  Two parts of the repository build a forest by appending one node at a time below some node
 *  of the rightmost path: the markup arena (scum) and the comment thread builder (api).  In both
 *  the abstract state is a parent vector: `par[j]` is the parent of node j, and -1 stands for
 *  "no parent".  This module holds the theory both share.
 */
module Forests {

  /** A sequence of rose trees: the trees before the last one, the last root, and its children. */
  datatype Forest<T> = Empty | Snoc(front: Forest<T>, value: T, kids: Forest<T>)

  /** Parents come before their children. */
  ghost predicate Valid(par: seq<int>) {
    forall j :: 0 <= j < |par| ==> -1 <= par[j] < j
  }

  /** The children of v, in increasing order. */
  function Kids(par: seq<int>, v: int): (ks: seq<nat>)
    ensures forall i :: 0 <= i < |ks| ==> ks[i] < |par| && par[ks[i]] == v
    ensures forall i, j :: 0 <= i < j < |ks| ==> ks[i] < ks[j]
  {
    if par == [] then []
    else
      var n := |par| - 1;
      if par[n] == v then Kids(par[..n], v) + [n] else Kids(par[..n], v)
  }

  /** a is j or an ancestor of j; -1 is an ancestor of everything. */
  ghost predicate Anc(par: seq<int>, a: int, j: int)
    requires Valid(par) && -1 <= j < |par|
    decreases j
  {
    a == j || (j >= 0 && Anc(par, a, par[j]))
  }

  /** Node j was appended below a node of the rightmost path, the path up from node j - 1. */
  ghost predicate OnRightPath(par: seq<int>, j: int)
    requires Valid(par) && 1 <= j < |par|
  {
    Anc(par, par[j], j - 1)
  }

  ghost predicate Preorder(par: seq<int>)
    requires Valid(par)
  {
    forall j :: 1 <= j < |par| ==> OnRightPath(par, j)
  }

  /** The number of nodes from v up to its root: 0 for the virtual root -1. */
  ghost function Level(par: seq<int>, v: int): nat
    requires Valid(par) && -1 <= v < |par|
    decreases v
  {
    if v == -1 then 0 else 1 + Level(par, par[v])
  }

  /** The trees below v. */
  ghost function Below<T>(par: seq<int>, vals: seq<T>, v: int): Forest<T>
    requires Valid(par) && |vals| == |par| && -1 <= v < |par|
    decreases |par| - v, 1, 0
  {
    Trees(par, vals, v, Kids(par, v))
  }

  /** The trees of the nodes ks, all after v. */
  ghost function Trees<T>(par: seq<int>, vals: seq<T>, v: int, ks: seq<nat>): Forest<T>
    requires Valid(par) && |vals| == |par| && -1 <= v < |par|
    requires forall i :: 0 <= i < |ks| ==> v < ks[i] < |par|
    decreases |par| - v, 0, |ks|
  {
    if ks == [] then Empty
    else
      var l := |ks| - 1;
      Snoc(Trees(par, vals, v, ks[..l]), vals[ks[l]], Below(par, vals, ks[l]))
  }

  /** Depth-annotated preorder listing of a forest whose roots are at depth d. */
  ghost function Flatten<T>(f: Forest<T>, d: nat): (out: seq<(nat, T)>)
  {
    match f
    case Empty => []
    case Snoc(front, value, kids) => Flatten(front, d) + [(d, value)] + Flatten(kids, d + 1)
  }

  // ---- children ----

  /** Every node is listed among its parent's children. */
  lemma {:induction false} KidIndex(par: seq<int>, j: nat) returns (i: nat)
    requires j < |par|
    ensures i < |Kids(par, par[j])| && Kids(par, par[j])[i] == j
  {
    var n := |par| - 1;
    if j == n {
      i := |Kids(par[..n], par[j])|;
    } else {
      i := KidIndex(par[..n], j);
    }
  }

  lemma {:induction false} KidsAppend(par: seq<int>, p: int, v: int)
    ensures Kids(par + [p], v) == if p == v then Kids(par, v) + [|par|] else Kids(par, v)
  {
    assert (par + [p])[..|par|] == par;
  }

  lemma {:induction false} KidsBeyond(par: seq<int>, v: int)
    requires Valid(par) && v >= |par|
    ensures Kids(par, v) == []
  {
    if par != [] {
      KidsBeyond(par[..|par| - 1], v);
    }
  }

  // ---- ancestors ----

  lemma {:induction false} AncTransitive(par: seq<int>, a: int, b: int, c: int)
    requires Valid(par) && -1 <= b < |par| && -1 <= c < |par|
    requires Anc(par, a, b) && Anc(par, b, c)
    ensures Anc(par, a, c)
    decreases c
  {
    if b != c {
      AncTransitive(par, a, b, par[c]);
    }
  }

  lemma {:induction false} AncBounds(par: seq<int>, a: int, j: int)
    requires Valid(par) && -1 <= j < |par| && Anc(par, a, j)
    ensures -1 <= a <= j
    decreases j
  {
    if a != j {
      AncBounds(par, a, par[j]);
    }
  }

  lemma {:induction false} AncRoot(par: seq<int>, j: int)
    requires Valid(par) && -1 <= j < |par|
    ensures Anc(par, -1, j)
    decreases j
  {
    if j >= 0 {
      AncRoot(par, par[j]);
    }
  }

  /** Ancestors of an old node do not change when a node is appended. */
  lemma {:induction false} AncAppend(par: seq<int>, p: int, a: int, j: int)
    requires Valid(par) && -1 <= p < |par| && -1 <= j < |par|
    ensures Valid(par + [p])
    ensures Anc(par + [p], a, j) == Anc(par, a, j)
    ensures Level(par + [p], j) == Level(par, j)
    decreases j
  {
    if j >= 0 {
      AncAppend(par, p, a, par[j]);
    }
  }

  /** The descendants of v form an interval of indices. */
  lemma {:induction false} DescendantsContiguous(par: seq<int>, v: int, m: int, j: int)
    requires Valid(par) && Preorder(par)
    requires -1 <= v <= m <= j < |par|
    requires Anc(par, v, j)
    ensures Anc(par, v, m)
    decreases j
  {
    if m < j {
      if j == 0 {
        assert m == -1;
      } else {
        assert OnRightPath(par, j);
        AncTransitive(par, v, par[j], j - 1);
        DescendantsContiguous(par, v, m, j - 1);
      }
    }
  }

  lemma {:induction false} PreorderAppend(par: seq<int>, p: int)
    requires Valid(par) && Preorder(par) && -1 <= p < |par|
    requires Anc(par, p, |par| - 1)
    ensures Valid(par + [p]) && Preorder(par + [p])
  {
    var q := par + [p];
    forall j | 1 <= j < |q| ensures OnRightPath(q, j) {
      assert j < |par| ==> OnRightPath(par, j);
      AncAppend(par, p, q[j], j - 1);
    }
  }

  /** Among the children of v, only the last can be an ancestor of a node of the rightmost path. */
  lemma {:induction false} OnlyLastKid(par: seq<int>, v: int, p: int, i: nat)
    requires Valid(par) && Preorder(par) && -1 <= v < |par| && -1 <= p < |par|
    requires Anc(par, p, |par| - 1)
    requires i + 1 < |Kids(par, v)|
    ensures !Anc(par, Kids(par, v)[i], p)
  {
    var ks := Kids(par, v);
    var c, e := ks[i], ks[i + 1];
    if Anc(par, c, p) {
      AncTransitive(par, c, p, |par| - 1);
      DescendantsContiguous(par, c, e, |par| - 1);
      assert Anc(par, c, v);
      AncBounds(par, c, v);
      assert false;
    }
  }

  /** A proper descendant of v descends from the last child of v when it is on the rightmost path. */
  lemma {:induction false} SomeKid(par: seq<int>, v: int, p: int) returns (c: nat)
    requires Valid(par) && -1 <= v < p < |par| && Anc(par, v, p)
    ensures c < |par| && par[c] == v && Anc(par, c, p)
    decreases p
  {
    if par[p] == v {
      c := p;
    } else {
      AncBounds(par, v, par[p]);
      c := SomeKid(par, v, par[p]);
    }
  }

  lemma {:induction false} LastKidAncestor(par: seq<int>, v: int, p: int)
    requires Valid(par) && Preorder(par) && -1 <= v < p < |par|
    requires Anc(par, v, p) && Anc(par, p, |par| - 1)
    ensures Kids(par, v) != [] && Anc(par, Kids(par, v)[|Kids(par, v)| - 1], p)
  {
    var c := SomeKid(par, v, p);
    var ks := Kids(par, v);
    var i := KidIndex(par, c);
    if i + 1 < |ks| {
      OnlyLastKid(par, v, p, i);
    }
  }

  // ---- what one append does to the trees ----

  /** Trees that do not contain the new node's parent are unchanged. */
  lemma {:induction false} TreesUntouched<T>(par: seq<int>, vals: seq<T>, p: int, x: T, v: int, ks: seq<nat>)
    requires Valid(par) && |vals| == |par| && -1 <= v < |par| && -1 <= p < |par|
    requires forall i :: 0 <= i < |ks| ==> v < ks[i] < |par| && !Anc(par, ks[i], p)
    ensures Valid(par + [p])
    ensures Trees(par + [p], vals + [x], v, ks) == Trees(par, vals, v, ks)
    decreases |par| - v, 0, |ks|
  {
    if ks != [] {
      var l := |ks| - 1;
      TreesUntouched(par, vals, p, x, v, ks[..l]);
      BelowUntouched(par, vals, p, x, ks[l]);
    }
  }

  lemma {:induction false} BelowUntouched<T>(par: seq<int>, vals: seq<T>, p: int, x: T, v: nat)
    requires Valid(par) && |vals| == |par| && v < |par| && -1 <= p < |par|
    requires !Anc(par, v, p)
    ensures Valid(par + [p])
    ensures Below(par + [p], vals + [x], v) == Below(par, vals, v)
    decreases |par| - v, 1, 0
  {
    var ks := Kids(par, v);
    KidsAppend(par, p, v);
    forall i | 0 <= i < |ks| ensures !Anc(par, ks[i], p) {
      if Anc(par, ks[i], p) {
        assert Anc(par, v, ks[i]);
        AncTransitive(par, v, ks[i], p);
      }
    }
    TreesUntouched(par, vals, p, x, v, ks);
  }

  /** The new node becomes a childless last child of its parent. */
  lemma {:induction false} AppendAtParent<T>(par: seq<int>, vals: seq<T>, p: int, x: T)
    requires Valid(par) && |vals| == |par| && -1 <= p < |par|
    ensures Valid(par + [p])
    ensures Below(par + [p], vals + [x], p) == Snoc(Below(par, vals, p), x, Empty)
  {
    var q, w, ks, n := par + [p], vals + [x], Kids(par, p), |par|;
    KidsAppend(par, p, p);
    KidsAppend(par, p, n);
    KidsBeyond(par, n);
    assert Below(q, w, n) == Empty;
    forall i | 0 <= i < |ks| ensures !Anc(par, ks[i], p) {
      if Anc(par, ks[i], p) { AncBounds(par, ks[i], p); }
    }
    TreesUntouched(par, vals, p, x, p, ks);
    assert (ks + [n])[..|ks|] == ks;
  }

  /** Above the parent only the last child's tree changes. */
  lemma {:induction false} AppendAbove<T>(par: seq<int>, vals: seq<T>, p: int, x: T, v: int)
    returns (k: nat, front: Forest<T>)
    requires Valid(par) && Preorder(par) && |vals| == |par|
    requires -1 <= v < p < |par|
    requires Anc(par, p, |par| - 1) && Anc(par, v, p)
    ensures Valid(par + [p])
    ensures v < k < |par| && Anc(par, k, p) && Level(par, k) == Level(par, v) + 1
    ensures Below(par, vals, v) == Snoc(front, vals[k], Below(par, vals, k))
    ensures Below(par + [p], vals + [x], v) == Snoc(front, vals[k], Below(par + [p], vals + [x], k))
  {
    LastKidAncestor(par, v, p);
    var ks := Kids(par, v);
    var l := |ks| - 1;
    k, front := ks[l], Trees(par, vals, v, ks[..l]);
    KidsAppend(par, p, v);
    forall i | 0 <= i < l ensures !Anc(par, ks[i], p) {
      OnlyLastKid(par, v, p, i);
    }
    TreesUntouched(par, vals, p, x, v, ks[..l]);
  }

  /** Appending node |par| below p appends one item to the listing of every ancestor of p. */
  lemma {:induction false} FlattenAppend<T>(par: seq<int>, vals: seq<T>, p: int, x: T, v: int)
    requires Valid(par) && Preorder(par) && |vals| == |par|
    requires -1 <= v < |par| && -1 <= p < |par|
    requires Anc(par, p, |par| - 1) && Anc(par, v, p)
    ensures Valid(par + [p])
    ensures Flatten(Below(par + [p], vals + [x], v), Level(par, v))
         == Flatten(Below(par, vals, v), Level(par, v)) + [(Level(par, p), x)]
    decreases |par| - v
  {
    if v == p {
      AppendAtParent(par, vals, p, x);
      FlattenOne(Below(par, vals, p), x, Level(par, p));
    } else {
      AncBounds(par, v, p);
      var k, front := AppendAbove(par, vals, p, x, v);
      FlattenAppend(par, vals, p, x, k);
      FlattenLast(front, vals[k], Below(par, vals, k), Below(par + [p], vals + [x], k), Level(par, v), (Level(par, p), x));
    }
  }

  lemma {:induction false} FlattenOne<T>(front: Forest<T>, value: T, d: nat)
    ensures Flatten(Snoc(front, value, Empty), d) == Flatten(front, d) + [(d, value)]
  {
    assert Flatten<T>(Empty, d + 1) == [];
  }

  lemma {:induction false} FlattenLast<T>(front: Forest<T>, value: T, was: Forest<T>, now: Forest<T>, d: nat, item: (nat, T))
    requires Flatten(now, d + 1) == Flatten(was, d + 1) + [item]
    ensures Flatten(Snoc(front, value, now), d) == Flatten(Snoc(front, value, was), d) + [item]
  {
    var a := Flatten(front, d) + [(d, value)];
    assert a + (Flatten(was, d + 1) + [item]) == (a + Flatten(was, d + 1)) + [item];
  }

  /** The nodes in index order, each at the level of its parent. */
  ghost function Listing<T>(par: seq<int>, vals: seq<T>): (out: seq<(nat, T)>)
    requires Valid(par) && |vals| == |par|
    ensures |out| == |par|
  {
    seq(|par|, j requires 0 <= j < |par| => (Level(par, par[j]), vals[j]))
  }

  lemma {:induction false} ListingAppend<T>(par: seq<int>, vals: seq<T>, p: int, x: T)
    requires Valid(par) && |vals| == |par| && -1 <= p < |par|
    ensures Valid(par + [p])
    ensures Listing(par + [p], vals + [x]) == Listing(par, vals) + [(Level(par, p), x)]
  {
    var q := par + [p];
    forall j | 0 <= j < |par| ensures Level(q, q[j]) == Level(par, par[j]) {
      AncAppend(par, p, -1, par[j]);
    }
    AncAppend(par, p, -1, p);
  }

  /** Preorder: a vector built along rightmost paths lists its nodes in index order. */
  lemma {:induction false} ListingInIndexOrder<T>(par: seq<int>, vals: seq<T>)
    requires Valid(par) && Preorder(par) && |vals| == |par|
    ensures Flatten(Below(par, vals, -1), 0) == Listing(par, vals)
    decreases |par|
  {
    if par == [] {
      assert Kids(par, -1) == [];
    } else {
      var n := |par| - 1;
      var q, w, p, x := par[..n], vals[..n], par[n], vals[n];
      assert par == q + [p] && vals == w + [x];
      PrefixPreorder(par);
      ListingInIndexOrder(q, w);
      ListingAppend(q, w, p, x);
      AncAppend(q, p, p, n - 1);
      AncRoot(q, p);
      if n > 0 { assert OnRightPath(par, n); }
      FlattenAppend(q, w, p, x, -1);
    }
  }

  lemma {:induction false} PrefixPreorder(par: seq<int>)
    requires Valid(par) && Preorder(par) && par != []
    ensures Valid(par[..|par| - 1]) && Preorder(par[..|par| - 1])
  {
    var n := |par| - 1;
    var q := par[..n];
    assert par == q + [par[n]];
    forall j | 1 <= j < |q| ensures OnRightPath(q, j) {
      assert OnRightPath(par, j);
      AncAppend(q, par[n], q[j], j - 1);
    }
  }

  // ---- a depth-annotated listing determines its forest ----

  lemma {:induction false} FlattenDepths<T>(f: Forest<T>, d: nat)
    ensures forall i :: 0 <= i < |Flatten(f, d)| ==> Flatten(f, d)[i].0 >= d
  {
    match f
    case Empty =>
    case Snoc(front, value, kids) =>
      FlattenDepths(front, d);
      FlattenDepths(kids, d + 1);
  }

  /** The first item lies at depth d, and no item more than one level below the one before it. */
  lemma {:induction false} FlattenSteps<T>(f: Forest<T>, d: nat)
    ensures var out := Flatten(f, d);
      && (out != [] ==> out[0].0 == d)
      && forall i :: 1 <= i < |out| ==> out[i].0 <= out[i - 1].0 + 1
  {
    match f
    case Empty =>
    case Snoc(front, value, kids) =>
      FlattenSteps(front, d);
      FlattenSteps(kids, d + 1);
      FlattenDepths(front, d);
      var a, b, out := Flatten(front, d), Flatten(kids, d + 1), Flatten(f, d);
      forall i | 1 <= i < |out| ensures out[i].0 <= out[i - 1].0 + 1 {
        if i < |a| {
          assert out[i] == a[i] && out[i - 1] == a[i - 1];
        } else if i > |a| + 1 {
          assert out[i] == b[i - |a| - 1] && out[i - 1] == b[i - |a| - 2];
        }
      }
  }

  lemma {:induction false} FlattenInjective<T>(f: Forest<T>, g: Forest<T>, d: nat)
    requires Flatten(f, d) == Flatten(g, d)
    ensures f == g
  {
    match f
    case Empty =>
      match g {
        case Empty =>
        case Snoc(front, value, kids) =>
      }
    case Snoc(front, value, kids) =>
      match g {
        case Empty =>
        case Snoc(front', value', kids') =>
          SplitAtLastRoot(f, g, d);
          FlattenInjective(front, front', d);
          FlattenInjective(kids, kids', d + 1);
      }
  }

  lemma {:induction false} SplitAtLastRoot<T>(f: Forest<T>, g: Forest<T>, d: nat)
    requires f.Snoc? && g.Snoc? && Flatten(f, d) == Flatten(g, d)
    ensures f.value == g.value && Flatten(f.front, d) == Flatten(g.front, d)
    ensures Flatten(f.kids, d + 1) == Flatten(g.kids, d + 1)
  {
    var all := Flatten(f, d);
    var i, j := |Flatten(f.front, d)|, |Flatten(g.front, d)|;
    LastRootPosition(f, d);
    LastRootPosition(g, d);
    assert i == j;
    assert all[..i] == Flatten(f.front, d) && all[..j] == Flatten(g.front, d);
    assert all[i + 1..] == Flatten(f.kids, d + 1) && all[j + 1..] == Flatten(g.kids, d + 1);
  }

  lemma {:induction false} LastRootPosition<T>(f: Forest<T>, d: nat)
    requires f.Snoc?
    ensures var i, all := |Flatten(f.front, d)|, Flatten(f, d);
      i < |all| && all[i] == (d, f.value) && (forall j :: i < j < |all| ==> all[j].0 > d)
  {
    FlattenDepths(f.kids, d + 1);
  }

  // ---- laying a forest out below a node ----

  ghost function Size<T>(f: Forest<T>): nat {
    match f
    case Empty => 0
    case Snoc(front, value, kids) => Size(front) + 1 + Size(kids)
  }

  /** The parents of the nodes of f, in preorder, when the first index is `base`. */
  ghost function LayParents<T>(f: Forest<T>, parent: int, base: nat): (ps: seq<int>)
    ensures |ps| == Size(f)
  {
    match f
    case Empty => []
    case Snoc(front, value, kids) =>
      var n := base + Size(front);
      LayParents(front, parent, base) + [parent] + LayParents(kids, n, n + 1)
  }

  ghost function LayValues<T>(f: Forest<T>): (vs: seq<T>)
    ensures |vs| == Size(f)
  {
    match f
    case Empty => []
    case Snoc(front, value, kids) => LayValues(front) + [value] + LayValues(kids)
  }

  /** (q, w) extends (par, vals), stays in preorder with p on its rightmost path, and lists `items` more. */
  ghost predicate Grown<T>(par: seq<int>, vals: seq<T>, q: seq<int>, w: seq<T>, p: int, items: seq<(nat, T)>)
    requires Valid(par) && |vals| == |par|
  {
    && Valid(q) && Preorder(q) && |w| == |q| && |par| <= |q| && par == q[..|par|]
    && -1 <= p < |q| && Anc(q, p, |q| - 1)
    && Listing(q, w) == Listing(par, vals) + items
  }

  /** Laying out f below a node of the rightmost path keeps preorder and appends f's listing. */
  lemma {:induction false} LayListing<T>(par: seq<int>, vals: seq<T>, f: Forest<T>, p: int) returns (q: seq<int>, w: seq<T>)
    requires Valid(par) && Preorder(par) && |vals| == |par| && -1 <= p < |par|
    requires Anc(par, p, |par| - 1)
    ensures q == par + LayParents(f, p, |par|) && w == vals + LayValues(f)
    ensures Grown(par, vals, q, w, p, Flatten(f, Level(par, p)))
    decreases f
  {
    hide LayParents, LayValues, Preorder, Listing, Level, Anc, Valid;
    match f
    case Empty =>
      q, w := par, vals;
      LayNothing(par, vals, p);
    case Snoc(front, value, kids) =>
      var q1, w1 := LayListing(par, vals, front, p);
      LevelPrefix(par, q1, p);
      LayOneNode(q1, w1, p, value);
      var q2, w2 := q1 + [p], w1 + [value];
      q, w := LayListing(q2, w2, kids, |q1|);
      GrownChain(par, vals, q1, w1, q2, w2, q, w, p, Flatten(front, Level(par, p)), value,
                 Flatten(kids, Level(par, p) + 1));
      LaySplit(par, vals, f, p);
  }

  lemma {:induction false} LayNothing<T>(par: seq<int>, vals: seq<T>, p: int)
    requires Valid(par) && Preorder(par) && |vals| == |par| && -1 <= p < |par|
    requires Anc(par, p, |par| - 1)
    ensures par + LayParents<T>(Empty, p, |par|) == par && vals + LayValues<T>(Empty) == vals
    ensures Grown(par, vals, par, vals, p, [])
  {
    assert Listing(par, vals) + [] == Listing(par, vals);
  }

  lemma {:induction false} LaySplit<T>(par: seq<int>, vals: seq<T>, f: Forest<T>, p: int)
    requires f.Snoc?
    ensures var n := |par| + Size(f.front);
      par + LayParents(f, p, |par|) == par + LayParents(f.front, p, |par|) + [p] + LayParents(f.kids, n, n + 1)
    ensures vals + LayValues(f) == vals + LayValues(f.front) + [f.value] + LayValues(f.kids)
  {
    var n := |par| + Size(f.front);
    Reassociate(par, LayParents(f.front, p, |par|), p, LayParents(f.kids, n, n + 1));
    Reassociate(vals, LayValues(f.front), f.value, LayValues(f.kids));
  }

  lemma {:induction false} Reassociate<T>(a: seq<T>, b: seq<T>, x: T, c: seq<T>)
    ensures a + b + [x] + c == a + (b + [x] + c)
  {
  }

  lemma {:induction false} GrownChain<T>(par: seq<int>, vals: seq<T>, q1: seq<int>, w1: seq<T>, q2: seq<int>, w2: seq<T>,
                                         q3: seq<int>, w3: seq<T>, p: int, a: seq<(nat, T)>, value: T, k: seq<(nat, T)>)
    requires Valid(par) && |vals| == |par| && -1 <= p < |par|
    requires Grown(par, vals, q1, w1, p, a)
    requires q2 == q1 + [p] && w2 == w1 + [value] && Grown(q1, w1, q2, w2, p, [(Level(par, p), value)])
    requires Grown(q2, w2, q3, w3, |q1|, k)
    ensures Grown(par, vals, q3, w3, p, a + [(Level(par, p), value)] + k)
  {
    assert q3[|q1|] == q2[|q1|] == p;
    assert Anc(q3, p, |q1|);
    AncTransitive(q3, p, |q1|, |q3| - 1);
    var all := Listing(par, vals);
    assert ((all + a) + [(Level(par, p), value)]) + k == all + (a + [(Level(par, p), value)] + k);
    assert par == q3[..|par|] by {
      assert forall i :: 0 <= i < |par| ==> par[i] == q1[i] == q2[i] == q3[i];
    }
  }

  lemma {:induction false} LayOneNode<T>(par: seq<int>, vals: seq<T>, p: int, x: T)
    requires Valid(par) && Preorder(par) && |vals| == |par| && -1 <= p < |par|
    requires Anc(par, p, |par| - 1)
    ensures Grown(par, vals, par + [p], vals + [x], p, [(Level(par, p), x)])
    ensures Anc(par + [p], |par|, |par|) && Level(par + [p], |par|) == Level(par, p) + 1
  {
    PreorderAppend(par, p);
    ListingAppend(par, vals, p, x);
    AncAppend(par, p, p, p);
    assert Anc(par + [p], p, |par|);
  }

  /** Levels depend only on the vector up to the node. */
  lemma {:induction false} LevelPrefix(par: seq<int>, q: seq<int>, j: int)
    requires Valid(par) && Valid(q) && -1 <= j < |par| <= |q|
    requires par == q[..|par|]
    ensures Level(par, j) == Level(q, j)
    decreases j
  {
    if j >= 0 {
      LevelPrefix(par, q, par[j]);
    }
  }

  /** A forest laid out from nothing is recovered from its parent vector. */
  lemma {:induction false} LayRoundTrip<T>(f: Forest<T>)
    ensures var q, w := LayParents(f, -1, 0), LayValues(f);
      Valid(q) && Preorder(q) && Below(q, w, -1) == f
  {
    hide LayParents, LayValues, Flatten, Below;
    var q, w := LayListing<T>([], [], f, -1);
    assert q == LayParents(f, -1, 0) && w == LayValues(f) by {
      assert [] + LayParents(f, -1, 0) == LayParents(f, -1, 0) && [] + LayValues(f) == LayValues(f);
    }
    ListingInIndexOrder(q, w);
    assert Listing<T>([], []) + Flatten(f, 0) == Flatten(f, 0);
    FlattenInjective(Below(q, w, -1), f, 0);
  }
}
