/** Rebuilding a comment forest from depth-annotated rows. */
module CommentTree {
  import opened Basics
  import opened Forests

  /** A row of the comments table. */
  datatype Comment = Comment(id: nat, userID: int, postID: int, parentID: Option<nat>, depth: nat,
                             upvotes: int, downvotes: int, body: string, isDeleted: bool)

  // ---- the builder as a function ----

  /** Parents of the rows taken so far, and the path to the last one. */
  datatype Thread = Thread(par: seq<int>, stack: seq<nat>)

  const NO_THREAD := Thread([], [])

  /** Attaches a row of depth d, unless the depth jumps. */
  function Attach(t: Thread, d: nat): Option<Thread> {
    if d == 0 then Some(Thread(t.par + [-1], [|t.par|]))
    else if d > |t.stack| then None
    else Some(Thread(t.par + [t.stack[d - 1]], t.stack[..d] + [|t.par|]))
  }

  function Attached(rows: seq<Comment>): Option<Thread> {
    if rows == [] then Some(NO_THREAD)
    else
      match Attached(rows[..|rows| - 1])
      case None => None
      case Some(t) => Attach(t, rows[|rows| - 1].depth)
  }

  // ---- when it succeeds ----

  /** The first row is a root, and no row lies more than one level below the row before it. */
  ghost predicate DepthsFit(rows: seq<Comment>) {
    forall i :: 0 <= i < |rows| ==> FitsAt(rows, i)
  }

  ghost predicate FitsAt(rows: seq<Comment>, i: nat)
    requires i < |rows|
  {
    rows[i].depth <= if i == 0 then 0 else rows[i - 1].depth + 1
  }

  /** The stack is the path to the last node, one node per level. */
  ghost predicate OnPath(t: Thread) {
    && Valid(t.par) && Preorder(t.par)
    && (forall k :: 0 <= k < |t.stack| ==> PathAt(t, k))
    && (t.par != [] ==> t.stack != [] && t.stack[|t.stack| - 1] == |t.par| - 1)
  }

  ghost predicate PathAt(t: Thread, k: nat)
    requires Valid(t.par) && k < |t.stack|
  {
    && t.stack[k] < |t.par| && Level(t.par, t.stack[k]) == k + 1
    && t.par[t.stack[k]] == (if k == 0 then -1 else t.stack[k - 1])
  }

  lemma {:induction false} PathAncestor(t: Thread, k: nat)
    requires OnPath(t) && k < |t.stack|
    ensures Anc(t.par, t.stack[k], |t.par| - 1)
    decreases |t.stack| - k
  {
    if k + 1 < |t.stack| {
      PathAncestor(t, k + 1);
      assert PathAt(t, k + 1);
      assert PathAt(t, k);
      AncTransitive(t.par, t.stack[k], t.stack[k + 1], |t.par| - 1);
    }
  }

  lemma {:induction false} AttachKeepsPath(t: Thread, d: nat)
    requires OnPath(t) && Attach(t, d).Some?
    ensures var r := Attach(t, d).value;
      OnPath(r) && |r.stack| == d + 1 && Level(r.par, |t.par|) == d + 1
  {
    hide Preorder, Anc;
    var r := Attach(t, d).value;
    AttachGrows(t, d);
    forall k | 0 <= k < |r.stack| ensures PathAt(r, k) {
      if k < d {
        assert PathAt(t, k);
        LevelPrefix(t.par, r.par, t.stack[k]);
      }
    }
  }

  /** The new row hangs on the path, one level below its parent. */
  lemma {:induction false} AttachGrows(t: Thread, d: nat)
    requires OnPath(t) && Attach(t, d).Some?
    ensures var r := Attach(t, d).value;
      Valid(r.par) && Preorder(r.par) && Level(r.par, |t.par|) == d + 1
  {
    hide Preorder, Anc;
    var r, n := Attach(t, d).value, |t.par|;
    var p := r.par[n];
    if d > 0 {
      assert PathAt(t, d - 1);
      PathAncestor(t, d - 1);
    } else if n > 0 {
      AncRoot(t.par, n - 1);
    }
    PreorderAppend(t.par, p);
    LevelPrefix(t.par, r.par, p);
  }

  /** Rows build a forest exactly when their depths fit; every node then lies at its row's depth. */
  lemma {:induction false} BuildsIffDepthsFit(rows: seq<Comment>)
    ensures Attached(rows).Some? <==> DepthsFit(rows)
    ensures Attached(rows).Some? ==>
      var t := Attached(rows).value;
      && OnPath(t) && |t.par| == |rows| && |t.stack| == (if rows == [] then 0 else rows[|rows| - 1].depth + 1)
      && forall i :: 0 <= i < |rows| ==> Level(t.par, i) == rows[i].depth + 1
  {
    hide OnPath, FitsAt, Level, Attach;
    if rows == [] {
      NothingBuilt();
    } else {
      var n := |rows| - 1;
      var front := rows[..n];
      BuildsIffDepthsFit(front);
      DepthsFitSnoc(rows);
      if Attached(front).Some? {
        BuildOne(rows);
      }
    }
  }

  lemma {:induction false} NothingBuilt()
    ensures OnPath(NO_THREAD) && DepthsFit([])
  {
  }

  lemma {:induction false} DepthsFitSnoc(rows: seq<Comment>)
    requires rows != []
    ensures DepthsFit(rows) <==> DepthsFit(rows[..|rows| - 1]) && FitsAt(rows, |rows| - 1)
  {
    var front := rows[..|rows| - 1];
    forall i | 0 <= i < |front| ensures FitsAt(front, i) == FitsAt(rows, i) {
    }
  }

  lemma {:induction false} BuildOne(rows: seq<Comment>)
    requires rows != [] && Attached(rows[..|rows| - 1]).Some?
    requires var n, t := |rows| - 1, Attached(rows[..|rows| - 1]).value;
      && OnPath(t) && |t.par| == n && |t.stack| == (if n == 0 then 0 else rows[n - 1].depth + 1)
      && forall i :: 0 <= i < n ==> Level(t.par, i) == rows[i].depth + 1
    ensures Attached(rows).Some? <==> FitsAt(rows, |rows| - 1)
    ensures Attached(rows).Some? ==>
      var r := Attached(rows).value;
      && OnPath(r) && |r.par| == |rows| && |r.stack| == rows[|rows| - 1].depth + 1
      && forall i :: 0 <= i < |rows| ==> Level(r.par, i) == rows[i].depth + 1
  {
    hide Level;
    var n, t := |rows| - 1, Attached(rows[..|rows| - 1]).value;
    if FitsAt(rows, n) {
      AttachKeepsPath(t, rows[n].depth);
      var r := Attached(rows).value;
      forall i | 0 <= i < n ensures Level(r.par, i) == rows[i].depth + 1 {
        LevelPrefix(t.par, r.par, i);
      }
    }
  }

  // ---- flattening and rebuilding are inverse ----

  ghost function Annotated(rows: seq<Comment>): seq<(nat, Comment)> {
    seq(|rows|, i requires 0 <= i < |rows| => (rows[i].depth, rows[i]))
  }

  /** The forest the rows describe. */
  ghost function ForestOf(rows: seq<Comment>): Forest<Comment>
    requires DepthsFit(rows)
  {
    BuildsIffDepthsFit(rows);
    Below(Attached(rows).value.par, rows, -1)
  }

  /** Listing the built forest in preorder, with depths, returns the rows. */
  lemma {:induction false} FlattenReturnsRows(rows: seq<Comment>)
    requires DepthsFit(rows)
    ensures Flatten(ForestOf(rows), 0) == Annotated(rows)
  {
    hide Level, Attached, Below, Flatten;
    BuildsIffDepthsFit(rows);
    var par := Attached(rows).value.par;
    ListingInIndexOrder(par, rows);
    LevelsListed(par, rows);
  }

  lemma {:induction false} LevelsListed(par: seq<int>, rows: seq<Comment>)
    requires Valid(par) && |par| == |rows| && forall i :: 0 <= i < |rows| ==> Level(par, i) == rows[i].depth + 1
    ensures Listing(par, rows) == Annotated(rows)
  {
    forall j | 0 <= j < |par| ensures Level(par, par[j]) == rows[j].depth {
      assert Level(par, j) == 1 + Level(par, par[j]);
    }
  }

  /** A forest whose comments carry their depth in it. */
  ghost predicate CarriesDepths(f: Forest<Comment>) {
    forall i :: 0 <= i < |Flatten(f, 0)| ==> Flatten(f, 0)[i].1.depth == Flatten(f, 0)[i].0
  }

  ghost function RowsOf(f: Forest<Comment>): seq<Comment> {
    seq(|Flatten(f, 0)|, i requires 0 <= i < |Flatten(f, 0)| => Flatten(f, 0)[i].1)
  }

  /** Rebuilding the listing of any forest returns that forest. */
  lemma {:induction false} RebuildReturnsForest(f: Forest<Comment>)
    requires CarriesDepths(f)
    ensures DepthsFit(RowsOf(f)) && ForestOf(RowsOf(f)) == f
  {
    var rows := RowsOf(f);
    FlattenSteps(f, 0);
    forall i | 0 <= i < |rows| ensures FitsAt(rows, i) {
      assert rows[i] == Flatten(f, 0)[i].1;
      if i > 0 { assert rows[i - 1] == Flatten(f, 0)[i - 1].1; }
    }
    FlattenReturnsRows(rows);
    assert Annotated(rows) == Flatten(f, 0);
    FlattenInjective(ForestOf(rows), f, 0);
  }

  /** The parent of a reply is the last row before it at the depth above; no row between is that shallow. */
  lemma {:induction false} ParentIsLatest(rows: seq<Comment>, j: nat)
    requires DepthsFit(rows) && j < |rows|
    ensures Attached(rows).Some? && |Attached(rows).value.par| == |rows|
    ensures var p := Attached(rows).value.par[j];
      if rows[j].depth == 0 then p == -1
      else
        && 0 <= p < j && rows[p].depth == rows[j].depth - 1
        && forall k :: p < k < j ==> rows[k].depth >= rows[j].depth
  {
    hide Level;
    BuildsIffDepthsFit(rows);
    StackIsLatest(rows);
    if j < |rows| - 1 {
      var front := rows[..|rows| - 1];
      DepthsFitSnoc(rows);
      BuildsIffDepthsFit(front);
      ParentIsLatest(front, j);
    } else {
      LastParent(rows);
    }
  }

  /** Each open level's node is the last row at that depth, with deeper rows behind it. */
  ghost predicate LatestAt(rows: seq<Comment>, t: Thread, k: nat)
    requires k < |t.stack|
  {
    var s := t.stack[k];
    s < |rows| && rows[s].depth == k && forall i :: s < i < |rows| ==> rows[i].depth > k
  }

  lemma {:induction false} StackIsLatest(rows: seq<Comment>)
    requires DepthsFit(rows)
    ensures Attached(rows).Some?
    ensures forall k :: 0 <= k < |Attached(rows).value.stack| ==> LatestAt(rows, Attached(rows).value, k)
  {
    BuildsIffDepthsFit(rows);
    if rows != [] {
      var n := |rows| - 1;
      var front := rows[..n];
      DepthsFitSnoc(rows);
      BuildsIffDepthsFit(front);
      StackIsLatest(front);
      StackStep(rows, front, Attached(front).value, Attached(rows).value);
    }
  }

  lemma {:induction false} StackStep(rows: seq<Comment>, front: seq<Comment>, t: Thread, r: Thread)
    requires rows != [] && front == rows[..|rows| - 1] && Attach(t, rows[|rows| - 1].depth) == Some(r) && |t.par| == |rows| - 1
    requires forall k :: 0 <= k < |t.stack| ==> LatestAt(front, t, k)
    ensures forall k :: 0 <= k < |r.stack| ==> LatestAt(rows, r, k)
  {
    var n := |rows| - 1;
    forall k | 0 <= k < |r.stack| ensures LatestAt(rows, r, k) {
      if k < rows[n].depth {
        assert LatestAt(front, t, k);
        assert r.stack[k] == t.stack[k];
        forall i | r.stack[k] < i < |rows| ensures rows[i].depth > k {
          if i < n { assert front[i].depth > k; }
        }
      }
    }
  }

  lemma {:induction false} LastParent(rows: seq<Comment>)
    requires DepthsFit(rows) && rows != [] && Attached(rows).Some? && |Attached(rows).value.par| == |rows|
    ensures var j := |rows| - 1;
      var p := Attached(rows).value.par[j];
      if rows[j].depth == 0 then p == -1
      else
        && 0 <= p < j && rows[p].depth == rows[j].depth - 1
        && forall k :: p < k < j ==> rows[k].depth >= rows[j].depth
  {
    var j := |rows| - 1;
    var front := rows[..j];
    DepthsFitSnoc(rows);
    BuildsIffDepthsFit(front);
    StackIsLatest(front);
    var t := Attached(front).value;
    if rows[j].depth > 0 {
      assert LatestAt(front, t, rows[j].depth - 1);
      forall i | 0 <= i < j ensures front[i] == rows[i] {
      }
    }
  }

  // ---- the builder as it runs ----

  class CommentNode {
    const row: Comment
    var replies: seq<CommentNode>

    constructor (row: Comment)
      ensures this.row == row && replies == []
    {
      this.row, replies := row, [];
    }
  }

  datatype Result = Roots(roots: seq<CommentNode>) | BadDepthJump(index: nat, id: nat, depth: nat, allowed: nat)

  ghost function Pick(nodes: seq<CommentNode>, ks: seq<nat>): (out: seq<CommentNode>)
    requires forall i :: 0 <= i < |ks| ==> ks[i] < |nodes|
  {
    seq(|ks|, i requires 0 <= i < |ks| => nodes[ks[i]])
  }

  /** One fresh node per row, each holding as replies the nodes of its children in order. */
  ghost predicate Linked(rows: seq<Comment>, nodes: seq<CommentNode>, par: seq<int>)
    reads nodes
  {
    && |nodes| == |rows| == |par|
    && (forall i, j :: 0 <= i < j < |nodes| ==> nodes[i] != nodes[j])
    && (forall i :: 0 <= i < |nodes| ==> nodes[i].row == rows[i])
    && (forall i :: 0 <= i < |nodes| ==> nodes[i].replies == Pick(nodes, Kids(par, i)))
  }

  lemma {:induction false} KidsOfNext(par: seq<int>, p: int)
    requires Valid(par) && -1 <= p < |par|
    ensures forall v :: Kids(par + [p], v) == if p == v then Kids(par, v) + [|par|] else Kids(par, v)
    ensures Kids(par, |par|) == []
  {
    forall v ensures Kids(par + [p], v) == if p == v then Kids(par, v) + [|par|] else Kids(par, v) {
      KidsAppend(par, p, v);
    }
    KidsBeyond(par, |par|);
  }

  /** A row that cannot be attached is the first whose depth does not fit. */
  lemma {:induction false} NotAttached(rows: seq<Comment>, i: nat)
    requires i < |rows| && Attached(rows[..i]).Some? && Attach(Attached(rows[..i]).value, rows[i].depth).None?
    ensures DepthsFit(rows[..i]) && !FitsAt(rows, i) && !DepthsFit(rows)
    ensures |Attached(rows[..i]).value.stack| == if i == 0 then 0 else rows[i - 1].depth + 1
  {
    hide OnPath, Level;
    BuildsIffDepthsFit(rows[..i]);
    BuildsIffDepthsFit(rows[..i + 1]);
    assert rows[..i + 1][..i] == rows[..i];
    DepthsFitSnoc(rows[..i + 1]);
    assert FitsAt(rows[..i + 1], i) == FitsAt(rows, i);
  }

  lemma {:induction false} PickAppend(nodes: seq<CommentNode>, c: CommentNode, ks: seq<nat>)
    requires forall i :: 0 <= i < |ks| ==> ks[i] < |nodes|
    ensures Pick(nodes + [c], ks) == Pick(nodes, ks)
    ensures Pick(nodes + [c], ks + [|nodes|]) == Pick(nodes, ks) + [c]
  {
  }

  /** The replies every node must hold once node |par| hangs below p. */
  lemma {:induction false} RepliesNext(nodes: seq<CommentNode>, comment: CommentNode, par: seq<int>, p: int, i: int)
    requires Valid(par) && |nodes| == |par| && -1 <= p < |par| && -1 <= i <= |par|
    ensures Pick(nodes + [comment], Kids(par + [p], i)) ==
      if i == |par| then [] else if i == p then Pick(nodes, Kids(par, i)) + [comment] else Pick(nodes, Kids(par, i))
  {
    hide Pick;
    KidsOfNext(par, p);
    NothingPicked(nodes + [comment]);
    PickAppend(nodes, comment, Kids(par, i));
  }

  /** Hangs a new node below its parent, if it has one. */
  method Hang(rows: seq<Comment>, ghost nodes: seq<CommentNode>, ghost par: seq<int>, comment: CommentNode,
              parent: CommentNode?, ghost p: int)
    requires Linked(rows, nodes, par) && Valid(par) && -1 <= p < |par|
    requires comment !in nodes && comment.replies == []
    requires parent == if p == -1 then null else nodes[p]
    modifies parent
    ensures Linked(rows + [comment.row], nodes + [comment], par + [p])
    ensures Pick(nodes + [comment], Kids(par + [p], -1))
         == if p == -1 then Pick(nodes, Kids(par, -1)) + [comment] else Pick(nodes, Kids(par, -1))
  {
    hide Kids, Pick, Valid;
    ghost var all := nodes + [comment];
    RepliesNext(nodes, comment, par, p, -1);
    if parent != null {
      parent.replies := parent.replies + [comment];
    }
    forall i | 0 <= i < |all| ensures all[i].replies == Pick(all, Kids(par + [p], i)) {
      RepliesNext(nodes, comment, par, p, i);
    }
  }

  lemma {:induction false} NothingPicked(nodes: seq<CommentNode>)
    ensures Pick(nodes, []) == [] && Kids([], -1) == []
  {
  }

  /** What attaching a row does to the thread. */
  lemma {:induction false} AttachedNext(rows: seq<Comment>, i: nat, t: Thread)
    requires i < |rows| && Attached(rows[..i]) == Some(t)
    ensures Attached(rows[..i + 1]) == Attach(t, rows[i].depth)
    ensures Valid(t.par) && |t.par| == i
    ensures forall k :: 0 <= k < |t.stack| ==> t.stack[k] < i
    ensures rows[..i + 1] == rows[..i] + [rows[i]]
  {
    assert rows[..i + 1][..i] == rows[..i];
    BuildsIffDepthsFit(rows[..i]);
    forall k | 0 <= k < |t.stack| ensures t.stack[k] < i {
      assert PathAt(t, k);
    }
  }

  /** Builds the tree, or reports the first row whose depth does not fit. */
  method PrepareCommentTree(rows: seq<Comment>) returns (result: Result, ghost nodes: seq<CommentNode>)
    ensures result.Roots? <==> DepthsFit(rows)
    ensures result.Roots? ==>
      && Attached(rows).Some? && fresh(nodes) && Linked(rows, nodes, Attached(rows).value.par)
      && result.roots == Pick(nodes, Kids(Attached(rows).value.par, -1))
    ensures result.BadDepthJump? ==>
      && result.index < |rows| && DepthsFit(rows[..result.index]) && !FitsAt(rows, result.index)
      && result.id == rows[result.index].id && result.depth == rows[result.index].depth
      && result.allowed == if result.index == 0 then 0 else rows[result.index - 1].depth + 1
  {
    hide Attached, Kids, Pick, Linked, DepthsFit, FitsAt;
    var roots: seq<CommentNode>, stack: seq<CommentNode> := [], [];
    nodes := [];
    ghost var t := NO_THREAD;
    StartLinked();
    assert rows[..0] == [];
    for i := 0 to |rows|
      invariant Attached(rows[..i]) == Some(t) && fresh(nodes) && |nodes| == |t.par| == i && Linked(rows[..i], nodes, t.par)
      invariant roots == Pick(nodes, Kids(t.par, -1))
      invariant (forall k :: 0 <= k < |t.stack| ==> t.stack[k] < i) && |stack| == |t.stack|
      invariant forall k :: 0 <= k < |stack| ==> stack[k] == nodes[t.stack[k]]
    {
      AttachedNext(rows, i, t);
      var comment := new CommentNode(rows[i]);
      var d := rows[i].depth;
      if d == 0 {
        Hang(rows[..i], nodes, t.par, comment, null, -1);
        roots := roots + [comment];
        stack := [comment];
      } else if d > |stack| {
        NotAttached(rows, i);
        return BadDepthJump(i, comment.row.id, d, |stack|), nodes;
      } else {
        var parent := stack[d - 1];
        Hang(rows[..i], nodes, t.par, comment, parent, t.stack[d - 1]);
        stack := if d == |stack| then stack + [comment] else stack[..d] + [comment];
      }
      nodes := nodes + [comment];
      t := Attach(t, d).value;
    }
    assert rows[..|rows|] == rows;
    BuildsIffDepthsFit(rows);
    return Roots(roots), nodes;
  }

  lemma {:induction false} StartLinked()
    ensures Attached([]) == Some(NO_THREAD) && Linked([], [], []) && Pick([], Kids([], -1)) == []
  {
  }
}
