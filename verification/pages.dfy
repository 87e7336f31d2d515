/** Paging through a post: which roots an answer of the popularity query lists, and what comes with them. */
module Pages {
  import opened Basics
  import opened CommentTree
  import opened CommentStore
  import opened Threads

  // ---- the order of comments ----

  /** More points, or as many points and an older ID. */
  predicate Outranks(c: Comment, e: Comment) {
    var p, r := c.upvotes - c.downvotes, e.upvotes - e.downvotes;
    p > r || (p == r && c.id < e.id)
  }

  /** Every comment of the set carries its own ID. */
  ghost predicate Named(db: Db, ids: set<nat>) {
    forall id :: id in ids ==> id in db.comments && db.comments[id].id == id
  }

  /** The comment of the set that all others come before. */
  lemma {:induction false} LastOf(db: Db, ids: set<nat>) returns (m: nat)
    requires Named(db, ids) && ids != {}
    ensures m in ids && forall k :: k in ids && k != m ==> Before(db.comments[k], db.comments[m])
    decreases |ids|
  {
    var x :| x in ids;
    m := x;
    if ids != {x} {
      assert ids == {x} + (ids - {x});
      var y := LastOf(db, ids - {x});
      if Before(db.comments[x], db.comments[y]) { m := y; }
    }
  }

  /** The comments of the set at places lo up to hi. */
  ghost function Places(db: Db, ids: set<nat>, lo: nat, hi: nat): set<nat>
    requires ids <= db.comments.Keys
  {
    set id | id in ids && lo <= CountBefore(db, ids, id) < hi
  }

  /** Taking the last comment away leaves the places of the others. */
  lemma {:induction false} WithoutLast(db: Db, ids: set<nat>, m: nat)
    requires Named(db, ids) && m in ids && forall k :: k in ids && k != m ==> Before(db.comments[k], db.comments[m])
    ensures CountBefore(db, ids, m) == |ids| - 1
    ensures forall k :: k in ids && k != m ==> CountBefore(db, ids, k) == CountBefore(db, ids - {m}, k)
  {
    assert BeforeIn(db, ids, m) == ids - {m};
    forall k | k in ids && k != m ensures CountBefore(db, ids, k) == CountBefore(db, ids - {m}, k) {
      assert BeforeIn(db, ids, k) == BeforeIn(db, ids - {m}, k);
    }
  }

  /** Each place below the number of comments is taken by exactly one. */
  lemma {:induction false} PlacesSize(db: Db, ids: set<nat>, lo: nat, hi: nat)
    requires Named(db, ids) && lo <= hi
    ensures ids <= db.comments.Keys && |Places(db, ids, lo, hi)| == AtMost(hi, |ids|) - AtMost(lo, |ids|)
    decreases |ids|
  {
    hide CountBefore;
    if ids == {} {
      assert Places(db, ids, lo, hi) == {};
    } else {
      var m := LastOf(db, ids);
      var rest := ids - {m};
      WithoutLast(db, ids, m);
      PlacesSize(db, rest, lo, hi);
      var here := if lo <= |ids| - 1 < hi then {m} else {};
      assert Places(db, ids, lo, hi) == Places(db, rest, lo, hi) + here;
    }
  }

  function AtMost(a: int, b: int): int {
    if a < b then a else b
  }

  // ---- the roots of an answer ----

  /** The root comments of a post. */
  ghost function PostRoots(db: Db, postID: int): set<nat> {
    set id | id in db.comments && db.comments[id].parentID.None? && db.comments[id].postID == postID
  }

  /** The IDs of the rows without a parent. */
  ghost function RootRows(rows: seq<Comment>): set<nat> {
    set i | 0 <= i < |rows| && rows[i].parentID.None? :: rows[i].id
  }

  lemma {:induction false} RootsNamed(cfg: Config, db: Db, q: Query)
    requires Inv(cfg, db)
    ensures Siblings(db, q.postID, None) == PostRoots(db, q.postID) && Named(db, PostRoots(db, q.postID))
  {
    hide OneReply, FewRoots, VotesOk, LinkOk;
    forall id | id in PostRoots(db, q.postID) ensures db.comments[id].id == id {
      assert RowOk(db, id);
    }
  }

  /** The root rows of an answer are the roots at the places of the page. */
  lemma {:induction false} RootRowsArePage(cfg: Config, db: Db, q: Query, rows: seq<Comment>)
    requires Inv(cfg, db) && IsAnswer(db, q, rows)
    ensures PostRoots(db, q.postID) <= db.comments.Keys
    ensures RootRows(rows) == Places(db, PostRoots(db, q.postID), q.rootOffset, q.rootOffset + q.rootLimit)
  {
    hide OneReply, FewRoots, VotesOk, LinkOk, CountBefore, InOrder;
    RootsNamed(cfg, db, q);
    var page := Places(db, PostRoots(db, q.postID), q.rootOffset, q.rootOffset + q.rootLimit);
    forall id | id in RootRows(rows) ensures id in page {
      var i :| 0 <= i < |rows| && rows[i].parentID.None? && rows[i].id == id;
      assert RowReached(db, q, rows[i]);
    }
    forall id | id in page ensures id in RootRows(rows) {
      assert Reached(db, q, id) && RowOk(db, id);
      assert Listed(db, rows, id);
    }
  }

  /** All comments in order: b comes before c, in the database's own numbers. */
  ghost predicate AllOutrank(db: Db, a: set<nat>, b: set<nat>) {
    forall x, y :: x in a && y in b && x in db.comments && y in db.comments ==> Outranks(db.comments[x], db.comments[y])
  }

  /** The page of an answer: as many roots as the limit allows of those that the offset leaves; exactly
   *  `rootOffset` roots of the post outrank all of them, and they outrank all the others. */
  lemma {:induction false} PageOfRoots(cfg: Config, db: Db, q: Query, rows: seq<Comment>) returns (skipped: set<nat>)
    requires Inv(cfg, db) && IsAnswer(db, q, rows)
    ensures var roots, page := PostRoots(db, q.postID), RootRows(rows);
      && page <= roots && |page| == AtMost(q.rootLimit, |roots| - AtMost(q.rootOffset, |roots|))
      && skipped <= roots - page && |skipped| == AtMost(q.rootOffset, |roots|)
      && AllOutrank(db, skipped, page + (roots - page - skipped)) && AllOutrank(db, page, roots - page - skipped)
  {
    hide Inv, IsAnswer, CountBefore, Outranks, AllOutrank, Places, PostRoots, RootRows;
    var roots, page := PostRoots(db, q.postID), RootRows(rows);
    RootsNamed(cfg, db, q);
    RootRowsArePage(cfg, db, q, rows);
    PlacesSize(db, roots, q.rootOffset, q.rootOffset + q.rootLimit);
    PlacesSize(db, roots, 0, q.rootOffset);
    skipped := Places(db, roots, 0, q.rootOffset);
    PlacesApart(db, roots, q.rootOffset, q.rootOffset + q.rootLimit);
    EarlierOutrank(db, roots, skipped, roots - skipped, q.rootOffset);
    assert roots - skipped == page + (roots - page - skipped);
    EarlierOutrank(db, roots, page, roots - page - skipped, q.rootOffset + q.rootLimit);
  }

  lemma {:induction false} PlacesApart(db: Db, ids: set<nat>, lo: nat, hi: nat)
    requires ids <= db.comments.Keys && lo <= hi
    ensures var first, page := Places(db, ids, 0, lo), Places(db, ids, lo, hi);
      && first <= ids && page <= ids && first !! page
      && (forall x :: x in first ==> CountBefore(db, ids, x) < lo)
      && (forall x :: x in ids - first ==> CountBefore(db, ids, x) >= lo)
      && (forall x :: x in page ==> CountBefore(db, ids, x) < hi)
      && (forall x :: x in ids - page - first ==> CountBefore(db, ids, x) >= hi)
  {
    hide CountBefore;
  }

  lemma {:induction false} EarlierOutrank(db: Db, ids: set<nat>, a: set<nat>, b: set<nat>, k: nat)
    requires Named(db, ids) && a <= ids && b <= ids && ids <= db.comments.Keys
    requires forall x :: x in a ==> CountBefore(db, ids, x) < k
    requires forall x :: x in b ==> CountBefore(db, ids, x) >= k
    ensures AllOutrank(db, a, b)
  {
    hide CountBefore, Outranks, Named;
    forall x, y | x in a && y in b ensures Outranks(db.comments[x], db.comments[y]) {
      RankMeans(db, ids, x, y);
    }
  }

  lemma {:induction false} RankMeans(db: Db, ids: set<nat>, x: nat, y: nat)
    requires Named(db, ids) && x in ids && y in ids && ids <= db.comments.Keys && CountBefore(db, ids, x) < CountBefore(db, ids, y)
    ensures Outranks(db.comments[x], db.comments[y])
  {
    hide CountBefore;
    RankOrder(db, ids, x, y);
  }

  /** Answers to consecutive pages share no root, and their roots are those of one page of twice the
   *  length; so are those of any two adjacent pages. */
  lemma {:induction false} AdjacentPages(cfg: Config, db: Db, q: Query, r: Query, both: Query,
                                         rows: seq<Comment>, more: seq<Comment>, joint: seq<Comment>)
    requires Inv(cfg, db) && IsAnswer(db, q, rows) && IsAnswer(db, r, more) && IsAnswer(db, both, joint)
    requires q.postID == r.postID == both.postID && r.rootOffset == q.rootOffset + q.rootLimit
    requires both.rootOffset == q.rootOffset && both.rootLimit == q.rootLimit + r.rootLimit
    ensures RootRows(rows) !! RootRows(more) && RootRows(rows) + RootRows(more) == RootRows(joint)
  {
    hide Inv, IsAnswer, CountBefore, PostRoots, RootRows;
    RootRowsArePage(cfg, db, q, rows);
    RootRowsArePage(cfg, db, r, more);
    RootRowsArePage(cfg, db, both, joint);
  }

  /** Turning pages of any fixed length, every root of the post is met on exactly one of them. */
  lemma {:induction false} OnePageEach(cfg: Config, db: Db, postID: int, length: nat, root: nat) returns (k: nat)
    requires Inv(cfg, db) && root in PostRoots(db, postID) && length > 0
    ensures k * length < |PostRoots(db, postID)|
    ensures forall j: nat, rows :: IsAnswer(db, Query(postID, length, j * length), rows) ==> (root in RootRows(rows) <==> j == k)
  {
    hide Inv, IsAnswer, CountBefore, RootRows, PostRoots;
    var q := Query(postID, length, 0);
    RootsNamed(cfg, db, q);
    var roots := PostRoots(db, postID);
    var at := CountBefore(db, roots, root);
    PlaceBelow(db, roots, root);
    k := at / length;
    InPage(at, length, k, k);
    forall j: nat, rows | IsAnswer(db, Query(postID, length, j * length), rows) ensures root in RootRows(rows) <==> j == k {
      RootRowsArePage(cfg, db, Query(postID, length, j * length), rows);
      InPage(at, length, k, j);
    }
  }

  lemma {:induction false} PlaceBelow(db: Db, ids: set<nat>, id: nat)
    requires Named(db, ids) && id in ids && ids <= db.comments.Keys
    ensures CountBefore(db, ids, id) < |ids|
  {
    Fewer(BeforeIn(db, ids, id), ids - {id});
  }

  lemma {:induction false} InPage(at: nat, length: nat, k: nat, j: nat)
    requires length > 0 && k == at / length
    ensures k * length <= at
    ensures j * length <= at < j * length + length <==> j == k
  {
    assert at == k * length + at % length;
    if j < k {
      assert (j + 1) * length <= k * length;
    } else if j > k {
      assert (k + 1) * length <= j * length;
    }
  }

  // ---- what comes with a root ----

  /** The root of the thread a comment belongs to. */
  ghost function RootOf(db: Db, id: nat): nat
    requires id in db.comments
    decreases id
  {
    match db.comments[id].parentID
    case None => id
    case Some(p) => if ParentBefore(db, id) then RootOf(db, p) else id
  }

  ghost function RowIDs(rows: seq<Comment>): set<nat> {
    set i | 0 <= i < |rows| :: rows[i].id
  }

  lemma {:induction false} ReachedIff(cfg: Config, db: Db, q: Query, id: nat)
    requires Inv(cfg, db) && id in db.comments
    ensures RootOf(db, id) in db.comments && db.comments[RootOf(db, id)].parentID == None
    ensures db.comments[RootOf(db, id)].postID == db.comments[id].postID
    ensures Reached(db, q, id) <==> RootOf(db, id) in Page(db, q)
    decreases id
  {
    hide OneReply, FewRoots, VotesOk, Page;
    assert LinkOk(cfg, db, id);
    if db.comments[id].parentID.Some? {
      ParentIsBefore(cfg, db, id);
      ReachedIff(cfg, db, q, db.comments[id].parentID.value);
    }
  }

  /** A comment is listed, exactly once, if and only if the root of its thread is. */
  lemma {:induction false} ListedIff(cfg: Config, db: Db, q: Query, rows: seq<Comment>, id: nat)
    requires Inv(cfg, db) && IsAnswer(db, q, rows) && id in db.comments
    ensures id in RowIDs(rows) <==> RootOf(db, id) in RootRows(rows)
    ensures forall i, j :: 0 <= i < j < |rows| && rows[i].id == id ==> rows[j].id != id
    ensures forall i :: 0 <= i < |rows| && rows[i].id == id ==> rows[i] == db.comments[id]
  {
    hide OneReply, FewRoots, VotesOk, LinkOk, InOrder, Reached, Page, RootOf, Places, PostRoots;
    ReachedIff(cfg, db, q, id);
    ReachedIff(cfg, db, q, RootOf(db, id));
    var root := RootOf(db, id);
    assert RowOk(db, id) && RowOk(db, root);
    RowListed(cfg, db, q, rows, id);
    RowListed(cfg, db, q, rows, root);
    RootIsItself(db, root);
    assert root in RowIDs(rows) <==> root in RootRows(rows) by { RootRowIs(db, q, rows, root); }
    forall i | 0 <= i < |rows| && rows[i].id == id ensures rows[i] == db.comments[id] {
      assert RowReached(db, q, rows[i]);
    }
  }

  lemma {:induction false} RootIsItself(db: Db, id: nat)
    requires id in db.comments && db.comments[id].parentID == None
    ensures RootOf(db, id) == id
  {
  }

  lemma {:induction false} RootRowIs(db: Db, q: Query, rows: seq<Comment>, id: nat)
    requires IsAnswer(db, q, rows) && id in db.comments && db.comments[id].parentID == None
    ensures id in RowIDs(rows) <==> id in RootRows(rows)
  {
    hide Reached;
    if id in RowIDs(rows) {
      var i :| 0 <= i < |rows| && rows[i].id == id;
      assert RowReached(db, q, rows[i]);
    }
  }

  lemma {:induction false} RowListed(cfg: Config, db: Db, q: Query, rows: seq<Comment>, id: nat)
    requires Inv(cfg, db) && IsAnswer(db, q, rows) && id in db.comments
    ensures id in RowIDs(rows) <==> Reached(db, q, id)
  {
    hide OneReply, FewRoots, VotesOk, LinkOk, InOrder, Reached;
    assert RowOk(db, id);
    if Reached(db, q, id) {
      assert Listed(db, rows, id);
      var i :| 0 <= i < |rows| && rows[i] == db.comments[id];
      assert rows[i].id in RowIDs(rows);
    }
    if id in RowIDs(rows) {
      var i :| 0 <= i < |rows| && rows[i].id == id;
      assert RowReached(db, q, rows[i]);
    }
  }

  /** The first page, if it has room for all roots, lists exactly the comments of the post. */
  lemma {:induction false} WholePost(cfg: Config, db: Db, q: Query, rows: seq<Comment>)
    requires Inv(cfg, db) && IsAnswer(db, q, rows)
    requires q.rootOffset == 0 && q.rootLimit >= |PostRoots(db, q.postID)|
    ensures RowIDs(rows) == set id | id in db.comments && db.comments[id].postID == q.postID
  {
    hide Inv, IsAnswer, CountBefore, RootRows, RootOf, RowIDs, Reached;
    RootsNamed(cfg, db, q);
    RootRowsArePage(cfg, db, q, rows);
    var roots := PostRoots(db, q.postID);
    forall id | id in roots ensures id in RootRows(rows) { PlaceBelow(db, roots, id); }
    assert RootRows(rows) == roots;
    forall id | id in db.comments ensures id in RowIDs(rows) <==> db.comments[id].postID == q.postID {
      ListedIff(cfg, db, q, rows, id);
      ReachedIff(cfg, db, q, id);
    }
    forall id | id in RowIDs(rows) ensures id in db.comments { RowsStored(db, q, rows, id); }
  }

  lemma {:induction false} RowsStored(db: Db, q: Query, rows: seq<Comment>, id: nat)
    requires IsAnswer(db, q, rows) && id in RowIDs(rows)
    ensures id in db.comments
  {
    hide Reached;
    var i :| 0 <= i < |rows| && rows[i].id == id;
    assert RowReached(db, q, rows[i]);
  }

  /** Under one parent, and among the roots, rows come by points, those with as many points by age. */
  lemma {:induction false} RowsRanked(cfg: Config, db: Db, q: Query, rows: seq<Comment>, i: nat, j: nat)
    requires Inv(cfg, db) && IsAnswer(db, q, rows) && i < j < |rows| && rows[i].parentID == rows[j].parentID
    ensures Outranks(rows[i], rows[j])
  {
    hide Inv, IsAnswer;
    SiblingOrder(cfg, db, q, rows, i, j);
  }
}
