/** The linked node arena: which links a tree of nodes has, how appending a node maintains them,
 *  and what reading the arena by its links gives. */
module Arena {
  import opened Markup
  import opened Forests

  /** The next child of j's parent after j, or -1. */
  function NextSib(par: seq<int>, j: nat): (r: int)
    requires j < |par|
    ensures r == -1 || (j < r < |par| && par[r] == par[j])
    decreases |par|
  {
    var n := |par| - 1;
    if j == n then -1
    else
      var before := NextSib(par[..n], j);
      if before != -1 then before else if par[n] == par[j] then n else -1
  }

  function First(ks: seq<nat>): int {
    if ks == [] then -1 else ks[0]
  }

  function Last(ks: seq<nat>): int {
    if ks == [] then -1 else ks[|ks| - 1]
  }

  /** The node that index i of a tree must hold. */
  function NodeOf(par: seq<int>, labels: seq<Label>, i: nat): Node
    requires i < |par| == |labels|
  {
    var ks := Kids(par, i);
    Node(labels[i], First(ks), Last(ks), NextSib(par, i), |ks|)
  }

  /** `nodes` is the arena of the tree given by `par` and `labels`. */
  ghost predicate IsLinked(nodes: seq<Node>, par: seq<int>, labels: seq<Label>) {
    && |nodes| == |par| == |labels|
    && forall i :: 0 <= i < |nodes| ==> nodes[i] == NodeOf(par, labels, i)
  }

  lemma {:induction false} NextSibAppend(par: seq<int>, p: int, j: nat)
    requires j < |par|
    ensures NextSib(par + [p], j) == if NextSib(par, j) != -1 then NextSib(par, j) else if p == par[j] then |par| else -1
  {
    assert (par + [p])[..|par|] == par;
  }

  /** A node without next sibling is its parent's last child. */
  lemma {:induction false} LastHasNoNext(par: seq<int>, j: nat)
    requires j < |par|
    ensures NextSib(par, j) == -1 <==> Last(Kids(par, par[j])) == j
    decreases |par|
  {
    var n := |par| - 1;
    var q := par[..n];
    assert par == q + [par[n]];
    KidsAppend(q, par[n], par[j]);
    if j < n {
      LastHasNoNext(q, j);
      var i := KidIndex(q, j);
    }
  }

  /** What appending an unlinked node below p, and relinking p and its last child, produces. */
  function Relinked(nodes: seq<Node>, p: nat, l: Label): (r: seq<Node>)
    requires p < |nodes|
    requires nodes[p].firstChild != -1 ==> 0 <= nodes[p].lastChild < |nodes|
  {
    var idx := |nodes|;
    var all := nodes + [Node(l, -1, -1, -1, 0)];
    var parent := all[p].(childCount := all[p].childCount + 1, lastChild := idx);
    if all[p].firstChild == -1 then all[p := parent.(firstChild := idx)]
    else
      var c := all[p].lastChild;
      all[c := all[c].(nextSibling := idx)][p := parent]
  }

  /** Appending keeps the arena linked: the new arena is that of the tree with one node more. */
  lemma {:induction false} AppendLinks(nodes: seq<Node>, par: seq<int>, labels: seq<Label>, p: nat, l: Label)
    requires IsLinked(nodes, par, labels) && Valid(par) && p < |par|
    ensures nodes[p].firstChild != -1 ==> p < nodes[p].lastChild < |nodes|
    ensures IsLinked(Relinked(nodes, p, l), par + [p], labels + [l])
  {
    var q, w, n := par + [p], labels + [l], |par|;
    assert nodes[p] == NodeOf(par, labels, p);
    var r := Relinked(nodes, p, l);
    forall i | 0 <= i < |r| ensures r[i] == NodeOf(q, w, i) {
      if i < n {
        OldNode(nodes, par, labels, p, l, i);
      } else {
        KidsAppend(par, p, n);
        KidsBeyond(par, n);
      }
    }
  }

  lemma {:induction false} OldNode(nodes: seq<Node>, par: seq<int>, labels: seq<Label>, p: nat, l: Label, i: nat)
    requires IsLinked(nodes, par, labels) && Valid(par) && p < |par| && i < |par|
    requires nodes[p].firstChild != -1 ==> p < nodes[p].lastChild < |nodes|
    ensures Relinked(nodes, p, l)[i] == NodeOf(par + [p], labels + [l], i)
  {
    assert nodes[i] == NodeOf(par, labels, i) && nodes[p] == NodeOf(par, labels, p);
    KidsAppend(par, p, i);
    NextSibAppend(par, p, i);
    LastHasNoNext(par, i);
    if par[i] == p { var k := KidIndex(par, i); }
  }

  /** Changing a label changes one node's contents and no link. */
  lemma {:induction false} RelabelLinks(nodes: seq<Node>, par: seq<int>, labels: seq<Label>, i: nat, l: Label)
    requires IsLinked(nodes, par, labels) && i < |nodes|
    ensures IsLinked(nodes[i := nodes[i].(info := l)], par, labels[i := l])
  {
    var r := nodes[i := nodes[i].(info := l)];
    forall j | 0 <= j < |r| ensures r[j] == NodeOf(par, labels[i := l], j) {
      assert nodes[j] == NodeOf(par, labels, j);
    }
  }

  // ---- reading the arena by its links ----

  /** Links lead forward. */
  ghost predicate LinksForward(nodes: seq<Node>) {
    forall i :: 0 <= i < |nodes| ==>
      && (nodes[i].firstChild == -1 || i < nodes[i].firstChild < |nodes|)
      && (nodes[i].nextSibling == -1 || i < nodes[i].nextSibling < |nodes|)
  }

  /** The trees on the sibling chain from i, behind those already read. */
  ghost function ReadChain(nodes: seq<Node>, i: int, before: Forest<Label>): Forest<Label>
    requires LinksForward(nodes) && -1 <= i < |nodes|
    decreases if i == -1 then 0 else |nodes| - i
  {
    if i == -1 then before
    else
      var kids := ReadChain(nodes, nodes[i].firstChild, Empty);
      ReadChain(nodes, nodes[i].nextSibling, Snoc(before, nodes[i].info, kids))
  }

  /** The next sibling of a child is the next child. */
  lemma {:induction false} NextKid(par: seq<int>, v: int, i: nat)
    requires i < |Kids(par, v)|
    ensures NextSib(par, Kids(par, v)[i]) == if i + 1 < |Kids(par, v)| then Kids(par, v)[i + 1] else -1
    decreases |par|
  {
    var n, ks := |par| - 1, Kids(par, v);
    var q := par[..n];
    if i < |Kids(q, v)| {
      NextKid(q, v, i);
    }
  }

  lemma {:induction false} LinkedForward(nodes: seq<Node>, par: seq<int>, labels: seq<Label>)
    requires IsLinked(nodes, par, labels) && Valid(par)
    ensures LinksForward(nodes)
  {
    forall i | 0 <= i < |nodes|
      ensures nodes[i].firstChild == -1 || i < nodes[i].firstChild < |nodes|
      ensures nodes[i].nextSibling == -1 || i < nodes[i].nextSibling < |nodes|
    {
      assert nodes[i] == NodeOf(par, labels, i);
    }
  }

  lemma {:induction false} ReadKids(nodes: seq<Node>, par: seq<int>, labels: seq<Label>, v: int, i: nat)
    requires IsLinked(nodes, par, labels) && Valid(par) && LinksForward(nodes)
    requires -1 <= v < |par| && i <= |Kids(par, v)|
    ensures ReadChain(nodes, if i < |Kids(par, v)| then Kids(par, v)[i] else -1, Trees(par, labels, v, Kids(par, v)[..i]))
         == Below(par, labels, v)
    decreases |par| - v, |Kids(par, v)| - i
  {
    var ks := Kids(par, v);
    if i == |ks| {
      assert ks[..i] == ks;
    } else {
      var k := ks[i];
      assert nodes[k] == NodeOf(par, labels, k);
      NextKid(par, v, i);
      ReadKids(nodes, par, labels, k, 0);
      assert Trees(par, labels, k, Kids(par, k)[..0]) == Empty;
      assert ks[..i + 1][..i] == ks[..i];
      ReadKids(nodes, par, labels, v, i + 1);
    }
  }

  /** Reading the children of v by first child and next siblings gives the trees below v. */
  lemma {:induction false} ReadByLinks(nodes: seq<Node>, par: seq<int>, labels: seq<Label>, v: nat)
    requires IsLinked(nodes, par, labels) && Valid(par) && v < |par|
    ensures LinksForward(nodes)
    ensures ReadChain(nodes, nodes[v].firstChild, Empty) == Below(par, labels, v)
  {
    LinkedForward(nodes, par, labels);
    assert nodes[v] == NodeOf(par, labels, v);
    ReadKids(nodes, par, labels, v, 0);
    assert Trees(par, labels, v, Kids(par, v)[..0]) == Empty;
  }
}
