/** Listing a thread: the rank-path ordering of the popularity query is a preorder of the reply
 *  forest, so the tree rebuilt from its rows is the one the parent IDs describe. */
module Threads {
  import opened Basics
  import opened CommentTree
  import opened CommentStore

  // ---- lexicographic order of rank paths ----

  /** The order of integer arrays: the first difference decides, a proper prefix comes first. */
  ghost predicate Less(a: seq<nat>, b: seq<nat>) {
    b != [] && (a == [] || a[0] < b[0] || (a[0] == b[0] && Less(a[1..], b[1..])))
  }

  lemma {:induction false} Total(a: seq<nat>, b: seq<nat>)
    ensures a == b || Less(a, b) || Less(b, a)
  {
    if a != [] && b != [] && a[0] == b[0] {
      Total(a[1..], b[1..]);
      assert a == [a[0]] + a[1..] && b == [b[0]] + b[1..];
    }
  }

  lemma {:induction false} OneWay(a: seq<nat>, b: seq<nat>)
    requires Less(a, b)
    ensures !Less(b, a) && a != b
  {
    if a != [] && a[0] == b[0] {
      OneWay(a[1..], b[1..]);
    }
  }

  lemma {:induction false} PrefixFirst(p: seq<nat>, r: nat)
    ensures Less(p, p + [r])
  {
    if p != [] {
      PrefixFirst(p[1..], r);
      assert (p + [r])[1..] == p[1..] + [r];
    }
  }

  /** What lies between a path and one of its extensions extends the path. */
  lemma {:induction false} BetweenExtends(p: seq<nat>, k: seq<nat>, r: nat)
    requires Less(p, k) && Less(k, p + [r])
    ensures p < k
  {
    if p != [] {
      assert (p + [r])[1..] == p[1..] + [r];
      BetweenExtends(p[1..], k[1..], r);
      assert p == [p[0]] + p[1..] && k == [k[0]] + k[1..];
    }
  }

  lemma {:induction false} SameFront(p: seq<nat>, a: nat, b: nat)
    ensures Less(p + [a], p + [b]) <==> a < b
  {
    if p != [] {
      SameFront(p[1..], a, b);
      assert (p + [a])[1..] == p[1..] + [a] && (p + [b])[1..] == p[1..] + [b];
    }
  }

  // ---- the query ----

  function Popularity(c: Comment): int {
    c.upvotes - c.downvotes
  }

  /** More popular first, then older first. */
  predicate Before(c: Comment, e: Comment) {
    Popularity(c) > Popularity(e) || (Popularity(c) == Popularity(e) && c.id < e.id)
  }

  datatype Query = Query(postID: int, rootLimit: nat, rootOffset: nat)

  /** The comments of the post under the same parent, or its roots. */
  function Siblings(db: Db, postID: int, parentID: Option<nat>): set<nat> {
    set id | id in db.comments && db.comments[id].postID == postID && db.comments[id].parentID == parentID
  }

  /** How many of the given comments come before this one. */
  function CountBefore(db: Db, ids: set<nat>, id: nat): nat
    requires id in db.comments && ids <= db.comments.Keys
  {
    |BeforeIn(db, ids, id)|
  }

  function BeforeIn(db: Db, ids: set<nat>, id: nat): set<nat>
    requires id in db.comments && ids <= db.comments.Keys
  {
    set k | k in ids && Before(db.comments[k], db.comments[id])
  }

  /** The page of roots: offset and limit applied to the roots in order. */
  function Page(db: Db, q: Query): set<nat> {
    var roots := Siblings(db, q.postID, None);
    set id | id in roots && q.rootOffset <= CountBefore(db, roots, id) < q.rootOffset + q.rootLimit
  }

  ghost predicate ParentBefore(db: Db, id: nat)
    requires id in db.comments && db.comments[id].parentID.Some?
  {
    db.comments[id].parentID.value < id && db.comments[id].parentID.value in db.comments
  }

  /** Rows the recursive query reaches: the page, and replies of the same post to rows reached. */
  ghost predicate Reached(db: Db, q: Query, id: nat)
    requires id in db.comments
    decreases id
  {
    match db.comments[id].parentID
    case None => id in Page(db, q)
    case Some(p) => ParentBefore(db, id) && db.comments[p].postID == db.comments[id].postID && Reached(db, q, p)
  }

  /** The comments a row's rank is counted among. */
  function Peers(db: Db, q: Query, id: nat): set<nat>
    requires id in db.comments
  {
    var c := db.comments[id];
    if c.parentID.None? then Page(db, q) else Siblings(db, c.postID, c.parentID)
  }

  lemma {:induction false} PeersExist(db: Db, q: Query, id: nat)
    requires id in db.comments
    ensures Peers(db, q, id) <= db.comments.Keys
  {
  }

  /** Position among the peers, from 1 on. */
  ghost function Rank(db: Db, q: Query, id: nat): nat
    requires id in db.comments
  {
    PeersExist(db, q, id);
    CountBefore(db, Peers(db, q, id), id) + 1
  }

  /** The rank path the query sorts by. */
  ghost function Path(db: Db, q: Query, id: nat): (p: seq<nat>)
    requires id in db.comments
    decreases id
  {
    match db.comments[id].parentID
    case None => [Rank(db, q, id)]
    case Some(p) => (if ParentBefore(db, id) then Path(db, q, p) else []) + [Rank(db, q, id)]
  }

  /** An answer of the query: the rows reached whose author exists, each once, in the order of
   *  their rank paths. */
  ghost predicate IsAnswer(db: Db, q: Query, rows: seq<Comment>)
  {
    && (forall i :: 0 <= i < |rows| ==> RowReached(db, q, rows[i]))
    && (forall i, j :: 0 <= i < j < |rows| ==> rows[i].id != rows[j].id)
    && (forall id :: id in db.comments && Reached(db, q, id) && db.comments[id].userID in db.users ==> Listed(db, rows, id))
    && (forall i, j :: 0 <= i < j < |rows| ==> InOrder(db, q, rows, i, j))
  }

  ghost predicate RowReached(db: Db, q: Query, c: Comment)
  {
    c.id in db.comments && db.comments[c.id] == c && Reached(db, q, c.id)
  }

  ghost predicate Listed(db: Db, rows: seq<Comment>, id: nat)
    requires id in db.comments
  {
    exists i :: 0 <= i < |rows| && rows[i] == db.comments[id]
  }

  ghost predicate InOrder(db: Db, q: Query, rows: seq<Comment>, i: nat, j: nat)
    requires i < |rows| && j < |rows|
  {
    rows[i].id in db.comments && rows[j].id in db.comments
    && !Less(Path(db, q, rows[j].id), Path(db, q, rows[i].id))
  }

  // ---- paths and depths ----

  lemma {:induction false} ParentIsBefore(cfg: Config, db: Db, id: nat)
    requires Inv(cfg, db) && id in db.comments && db.comments[id].parentID.Some?
    ensures ParentBefore(db, id)
  {
    assert LinkOk(cfg, db, id);
  }

  lemma {:induction false} PathLength(cfg: Config, db: Db, q: Query, id: nat)
    requires Inv(cfg, db) && id in db.comments
    ensures |Path(db, q, id)| == db.comments[id].depth + 1
    decreases id
  {
    hide OneReply, FewRoots, VotesOk, Rank;
    assert LinkOk(cfg, db, id);
    if db.comments[id].parentID.Some? {
      ParentIsBefore(cfg, db, id);
      PathLength(cfg, db, q, db.comments[id].parentID.value);
    }
  }

  /** Peers are ranked in their order. */
  lemma {:induction false} RankOrder(db: Db, ids: set<nat>, a: nat, b: nat)
    requires ids <= db.comments.Keys && a in ids && b in ids && a != b
    requires db.comments[a].id == a && db.comments[b].id == b
    ensures CountBefore(db, ids, a) < CountBefore(db, ids, b) <==> Before(db.comments[a], db.comments[b])
    ensures CountBefore(db, ids, a) != CountBefore(db, ids, b)
  {
    if Before(db.comments[a], db.comments[b]) {
      Ahead(db, ids, a, b);
    } else {
      Ahead(db, ids, b, a);
    }
  }

  lemma {:induction false} Ahead(db: Db, ids: set<nat>, a: nat, b: nat)
    requires ids <= db.comments.Keys && a in ids && b in ids && Before(db.comments[a], db.comments[b])
    ensures CountBefore(db, ids, a) < CountBefore(db, ids, b)
  {
    var x, y := BeforeIn(db, ids, a), BeforeIn(db, ids, b);
    assert x + {a} <= y && a !in x;
    Fewer(x + {a}, y);
  }

  /** Different rows have different paths; siblings' paths compare as the siblings do. */
  lemma {:induction false} PathsDiffer(cfg: Config, db: Db, q: Query, a: nat, b: nat)
    requires Inv(cfg, db) && a in db.comments && b in db.comments && a != b
    requires Reached(db, q, a) && Reached(db, q, b)
    ensures Path(db, q, a) != Path(db, q, b)
    decreases a
  {
    hide OneReply, FewRoots, VotesOk, Rank, Page, Siblings;
    PathLength(cfg, db, q, a);
    PathLength(cfg, db, q, b);
    assert LinkOk(cfg, db, a) && LinkOk(cfg, db, b);
    var p, r := db.comments[a].parentID, db.comments[b].parentID;
    if db.comments[a].depth == db.comments[b].depth {
      if p == r {
        SiblingRanks(cfg, db, q, a, b);
      } else if p.Some? && r.Some? {
        ParentIsBefore(cfg, db, a);
        ParentIsBefore(cfg, db, b);
        PathsDiffer(cfg, db, q, p.value, r.value);
        var x, y := Path(db, q, p.value), Path(db, q, r.value);
        assert (x + [Rank(db, q, a)])[..|x|] == x && (y + [Rank(db, q, b)])[..|y|] == y;
        PathLength(cfg, db, q, p.value);
        PathLength(cfg, db, q, r.value);
      }
    }
  }

  lemma {:induction false} SiblingRanks(cfg: Config, db: Db, q: Query, a: nat, b: nat)
    requires Inv(cfg, db) && a in db.comments && b in db.comments && a != b
    requires Reached(db, q, a) && Reached(db, q, b) && db.comments[a].parentID == db.comments[b].parentID
    ensures Path(db, q, a) != Path(db, q, b)
    ensures Less(Path(db, q, a), Path(db, q, b)) <==> Before(db.comments[a], db.comments[b])
  {
    hide OneReply, FewRoots, VotesOk, CountBefore, Page;
    assert RowOk(db, a) && RowOk(db, b) && LinkOk(cfg, db, a) && LinkOk(cfg, db, b);
    PeersExist(db, q, a);
    var p := db.comments[a].parentID;
    if p.Some? {
      ParentIsBefore(cfg, db, a);
      ParentIsBefore(cfg, db, b);
    }
    assert Peers(db, q, a) == Peers(db, q, b) && a in Peers(db, q, a) && b in Peers(db, q, a);
    RankOrder(db, Peers(db, q, a), a, b);
    var front := if p.Some? then Path(db, q, p.value) else [];
    SameFront(front, Rank(db, q, a), Rank(db, q, b));
    assert Path(db, q, a) == front + [Rank(db, q, a)];
    assert Path(db, q, b) == front + [Rank(db, q, b)];
    assert Path(db, q, a)[|front|] != Path(db, q, b)[|front|];
  }

  // ---- the answer is a preorder ----

  lemma {:induction false} ReachedParent(db: Db, q: Query, id: nat)
    requires id in db.comments && Reached(db, q, id) && db.comments[id].parentID.Some?
    ensures ParentBefore(db, id) && Reached(db, q, db.comments[id].parentID.value)
  {
  }

  /** The parent of a listed reply is listed before it, and everything between lies below that parent. */
  lemma {:induction false} ParentListed(cfg: Config, db: Db, q: Query, rows: seq<Comment>, j: nat) returns (i: nat)
    requires Inv(cfg, db) && IsAnswer(db, q, rows) && j < |rows| && rows[j].parentID.Some?
    ensures i < j && rows[i].id == rows[j].parentID.value && rows[i].depth == rows[j].depth - 1
    ensures forall k :: i < k < j ==> rows[k].depth >= rows[j].depth
  {
    hide Reached, Path, Rank, Less, OneReply, FewRoots, VotesOk, InOrder;
    var c := rows[j];
    assert RowReached(db, q, c);
    ReachedParent(db, q, c.id);
    var p := c.parentID.value;
    assert RowOk(db, p) && LinkOk(cfg, db, c.id) && RowOk(db, c.id);
    assert Listed(db, rows, p);
    i :| 0 <= i < |rows| && rows[i] == db.comments[p];
    PathStep(db, q, c.id);
    PrefixFirst(Path(db, q, p), Rank(db, q, c.id));
    if j < i {
      Ordered(db, q, rows, j, i);
    }
    forall k | i < k < j ensures rows[k].depth >= rows[j].depth {
      BetweenIsBelow(cfg, db, q, rows, i, k, j);
    }
  }

  lemma {:induction false} PathStep(db: Db, q: Query, id: nat)
    requires id in db.comments && db.comments[id].parentID.Some? && ParentBefore(db, id)
    ensures Path(db, q, id) == Path(db, q, db.comments[id].parentID.value) + [Rank(db, q, id)]
  {
  }

  lemma {:induction false} Ordered(db: Db, q: Query, rows: seq<Comment>, i: nat, j: nat)
    requires IsAnswer(db, q, rows) && i < j < |rows|
    ensures rows[i].id in db.comments && rows[j].id in db.comments
    ensures !Less(Path(db, q, rows[j].id), Path(db, q, rows[i].id))
  {
    hide Reached, Path, Less;
    assert InOrder(db, q, rows, i, j);
  }

  /** Rows in order have increasing paths. */
  lemma {:induction false} Increasing(cfg: Config, db: Db, q: Query, rows: seq<Comment>, i: nat, j: nat)
    requires Inv(cfg, db) && IsAnswer(db, q, rows) && i < j < |rows|
    ensures rows[i].id in db.comments && rows[j].id in db.comments
    ensures Less(Path(db, q, rows[i].id), Path(db, q, rows[j].id))
  {
    hide Reached, Path, Less, Inv, InOrder;
    Ordered(db, q, rows, i, j);
    assert RowReached(db, q, rows[i]) && RowReached(db, q, rows[j]);
    PathsDiffer(cfg, db, q, rows[i].id, rows[j].id);
    Total(Path(db, q, rows[i].id), Path(db, q, rows[j].id));
  }

  lemma {:induction false} BetweenIsBelow(cfg: Config, db: Db, q: Query, rows: seq<Comment>, i: nat, k: nat, j: nat)
    requires Inv(cfg, db) && IsAnswer(db, q, rows) && i < k < j < |rows|
    requires rows[j].parentID == Some(rows[i].id)
    ensures rows[k].depth >= rows[j].depth
  {
    hide Reached, Path, Rank, Less, OneReply, FewRoots, VotesOk, InOrder;
    Increasing(cfg, db, q, rows, i, k);
    Increasing(cfg, db, q, rows, k, j);
    assert RowReached(db, q, rows[i]) && RowReached(db, q, rows[k]) && RowReached(db, q, rows[j]);
    assert LinkOk(cfg, db, rows[j].id);
    ParentIsBefore(cfg, db, rows[j].id);
    PathStep(db, q, rows[j].id);
    BetweenExtends(Path(db, q, rows[i].id), Path(db, q, rows[k].id), Rank(db, q, rows[j].id));
    PathLength(cfg, db, q, rows[i].id);
    PathLength(cfg, db, q, rows[k].id);
    PathLength(cfg, db, q, rows[j].id);
  }

  /** Rows of an answer have depths the tree builder accepts. */
  lemma {:induction false} AnswerFits(cfg: Config, db: Db, q: Query, rows: seq<Comment>)
    requires Inv(cfg, db) && IsAnswer(db, q, rows)
    ensures DepthsFit(rows)
  {
    hide IsAnswer, OneReply, FewRoots, VotesOk;
    forall j | 0 <= j < |rows| ensures FitsAt(rows, j) {
      AnswerRow(cfg, db, q, rows, j);
      if rows[j].parentID.Some? {
        var i := ParentListed(cfg, db, q, rows, j);
        assert i == j - 1 || i < j - 1 < j;
      }
    }
  }

  lemma {:induction false} AnswerRow(cfg: Config, db: Db, q: Query, rows: seq<Comment>, j: nat)
    requires Inv(cfg, db) && IsAnswer(db, q, rows) && j < |rows|
    ensures RowReached(db, q, rows[j]) && (rows[j].parentID.None? <==> rows[j].depth == 0)
  {
    hide Reached, Listed, InOrder, OneReply, FewRoots, VotesOk;
    assert RowReached(db, q, rows[j]);
    assert LinkOk(cfg, db, rows[j].id);
  }

  /** Row p of the answer is the tree parent of row j: its ID is the parent ID. */
  ghost predicate ParentMatches(rows: seq<Comment>, par: seq<int>, j: nat)
    requires |par| == |rows| && j < |rows|
  {
    if par[j] == -1 then rows[j].parentID == None
    else 0 <= par[j] < j && rows[j].parentID == Some(rows[par[j]].id)
  }

  /** Siblings appear by popularity, equally popular ones by age. */
  ghost predicate SiblingsRanked(rows: seq<Comment>) {
    forall i, j :: 0 <= i < j < |rows| && rows[i].parentID == rows[j].parentID ==> Before(rows[i], rows[j])
  }

  lemma {:induction false} ParentsMatch(cfg: Config, db: Db, q: Query, rows: seq<Comment>, j: nat)
    requires Inv(cfg, db) && IsAnswer(db, q, rows) && DepthsFit(rows) && j < |rows|
    ensures Attached(rows).Some? && |Attached(rows).value.par| == |rows| && ParentMatches(rows, Attached(rows).value.par, j)
  {
    hide Attached, DepthsFit, Inv, IsAnswer, RowReached;
    ParentIsLatest(rows, j);
    AnswerRow(cfg, db, q, rows, j);
    if rows[j].parentID.Some? {
      var i := ParentListed(cfg, db, q, rows, j);
      var p := Attached(rows).value.par[j];
      assert p == i;
    }
  }

  /** In every reachable state, building the tree from an answer of the query never fails, every
   *  node's tree parent is the comment it replies to, and siblings come by popularity. */
  lemma {:induction false} ThreadsRebuild(cfg: Config, users: set<int>, posts: set<int>, rs: seq<Request>, q: Query, rows: seq<Comment>)
    requires IsAnswer(Run(cfg, EmptyDb(users, posts), rs), q, rows)
    ensures DepthsFit(rows) && Attached(rows).Some? && |Attached(rows).value.par| == |rows|
    ensures forall j :: 0 <= j < |rows| ==> ParentMatches(rows, Attached(rows).value.par, j)
    ensures SiblingsRanked(rows)
  {
    hide Run, Inv, IsAnswer, Attached, ParentMatches, DepthsFit;
    var db := Run(cfg, EmptyDb(users, posts), rs);
    CommentStore.RunInv(cfg, users, posts, rs);
    AnswerFits(cfg, db, q, rows);
    BuildsIffDepthsFit(rows);
    forall j | 0 <= j < |rows| ensures ParentMatches(rows, Attached(rows).value.par, j) {
      ParentsMatch(cfg, db, q, rows, j);
    }
    forall i, j | 0 <= i < j < |rows| && rows[i].parentID == rows[j].parentID ensures Before(rows[i], rows[j]) {
      SiblingOrder(cfg, db, q, rows, i, j);
    }
  }

  lemma {:induction false} SiblingOrder(cfg: Config, db: Db, q: Query, rows: seq<Comment>, i: nat, j: nat)
    requires Inv(cfg, db) && IsAnswer(db, q, rows) && i < j < |rows| && rows[i].parentID == rows[j].parentID
    ensures Before(rows[i], rows[j])
  {
    hide Reached, Path, Less, Inv, InOrder, Listed;
    Increasing(cfg, db, q, rows, i, j);
    assert RowReached(db, q, rows[i]) && RowReached(db, q, rows[j]);
    SiblingRanks(cfg, db, q, rows[i].id, rows[j].id);
  }

  // ---- every state has an answer ----

  lemma {:induction false} Chain(a: seq<nat>, b: seq<nat>, c: seq<nat>)
    requires Less(a, b) && Less(b, c)
    ensures Less(a, c)
  {
    if a != [] && a[0] == b[0] && b[0] == c[0] {
      Chain(a[1..], b[1..], c[1..]);
    }
  }

  ghost predicate AllReached(db: Db, q: Query, ids: set<nat>)
  {
    forall id :: id in ids ==> id in db.comments && Reached(db, q, id)
  }

  ghost predicate Ascending(db: Db, q: Query, ids: seq<nat>)
  {
    && (forall i :: 0 <= i < |ids| ==> ids[i] in db.comments)
    && forall i, j :: 0 <= i < j < |ids| ==> PathLess(db, q, ids[i], ids[j])
  }

  ghost predicate PathLess(db: Db, q: Query, a: nat, b: nat)
  {
    a in db.comments && b in db.comments && Less(Path(db, q, a), Path(db, q, b))
  }

  lemma {:induction false} Place(cfg: Config, db: Db, q: Query, ids: seq<nat>, x: nat) returns (out: seq<nat>)
    requires Inv(cfg, db) && Ascending(db, q, ids) && x !in ids
    requires AllReached(db, q, set id | id in ids) && x in db.comments && Reached(db, q, x)
    ensures Ascending(db, q, out) && forall id :: id in out <==> id in ids || id == x
  {
    hide Inv, Reached, Less, Path;
    if ids == [] {
      out := [x];
    } else {
      var n := |ids| - 1;
      var last, front := ids[n], ids[..n];
      assert last in (set id | id in ids);
      PathsDiffer(cfg, db, q, last, x);
      Total(Path(db, q, last), Path(db, q, x));
      if PathLess(db, q, last, x) {
        out := ids + [x];
        forall i | 0 <= i < n ensures PathLess(db, q, ids[i], x) {
          assert PathLess(db, q, ids[i], last);
          Chain(Path(db, q, ids[i]), Path(db, q, last), Path(db, q, x));
        }
      } else {
        assert PathLess(db, q, x, last);
        assert forall id :: id in front ==> id in ids;
        assert AllReached(db, q, set id | id in front) by {
          forall id | id in front ensures id in db.comments && Reached(db, q, id) { assert id in (set k | k in ids); }
        }
        assert last !in front by { NotTwice(db, q, ids); }
        var rest := Place(cfg, db, q, front, x);
        out := rest + [last];
        forall i | 0 <= i < |rest| ensures PathLess(db, q, rest[i], last) {
          assert rest[i] in rest;
          if rest[i] != x {
            var k :| 0 <= k < n && ids[k] == rest[i];
            assert PathLess(db, q, ids[k], ids[n]);
          }
        }
      }
    }
  }

  lemma {:induction false} NotTwice(db: Db, q: Query, ids: seq<nat>)
    requires Ascending(db, q, ids) && ids != []
    ensures ids[|ids| - 1] !in ids[..|ids| - 1]
  {
    hide Path;
    var n := |ids| - 1;
    forall i | 0 <= i < n ensures ids[i] != ids[n] {
      assert PathLess(db, q, ids[i], ids[n]);
      OneWay(Path(db, q, ids[i]), Path(db, q, ids[n]));
    }
  }

  lemma {:induction false} SortByPath(cfg: Config, db: Db, q: Query, ids: set<nat>) returns (out: seq<nat>)
    requires Inv(cfg, db) && AllReached(db, q, ids)
    ensures Ascending(db, q, out) && forall id :: id in out <==> id in ids
    decreases |ids|
  {
    hide Inv, Reached, Ascending;
    if ids == {} {
      out := [];
      assert Ascending(db, q, []) by { EmptyAscends(db, q); }
    } else {
      var x :| x in ids;
      var rest := SortByPath(cfg, db, q, ids - {x});
      assert (set id | id in rest) == ids - {x};
      out := Place(cfg, db, q, rest, x);
    }
  }

  lemma {:induction false} EmptyAscends(db: Db, q: Query)
    ensures Ascending(db, q, [])
  {
  }

  /** The query has an answer in every state the transactions keep. */
  lemma {:induction false} AnswerExists(cfg: Config, db: Db, q: Query) returns (rows: seq<Comment>)
    requires Inv(cfg, db)
    ensures IsAnswer(db, q, rows)
  {
    hide OneReply, FewRoots, VotesOk, Reached, Less, Path, LinkOk;
    var all := set id | id in db.comments && Reached(db, q, id);
    var ids := SortByPath(cfg, db, q, all);
    forall i | 0 <= i < |ids| ensures ids[i] in all {
      assert ids[i] in ids;
    }
    rows := seq(|ids|, i requires 0 <= i < |ids| => db.comments[ids[i]]);
    forall i | 0 <= i < |rows| ensures RowReached(db, q, rows[i]) && rows[i].id == ids[i] {
      assert RowOk(db, ids[i]);
    }
    forall i, j | 0 <= i < j < |rows| ensures rows[i].id != rows[j].id && InOrder(db, q, rows, i, j) {
      assert PathLess(db, q, ids[i], ids[j]);
      OneWay(Path(db, q, ids[i]), Path(db, q, ids[j]));
    }
    forall id | id in db.comments && Reached(db, q, id) ensures Listed(db, rows, id) {
      assert id in ids;
      var i :| 0 <= i < |ids| && ids[i] == id;
      assert rows[i] == db.comments[id];
    }
  }
}
