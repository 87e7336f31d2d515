/** The comment tables and the transactions that change them. */
module CommentStore {
  import opened Basics
  import opened CommentTree

  datatype Config = Config(maxNestingDepth: int, maxRootsPerUser: int)

  datatype Failure =
    | NotFound | WrongPost | ParentDeleted | TooDeep | OwnComment | TooManyRoots | MissingRelation | RepeatedReply
    | NotOwner | Corrupted | InvalidVote | RepeatedVote | CommentDeleted

  datatype Outcome = Done | Failed(failure: Failure)

  /** Comments by ID, votes by user and comment, the ID sequence, and the rows foreign keys refer to. */
  datatype Db = Db(comments: map<nat, Comment>, votes: map<(int, nat), int>, nextID: nat, users: set<int>, posts: set<int>)

  datatype Request =
    | Insert(userID: int, postID: int, body: string, parentID: Option<nat>, upvotes: int, downvotes: int)
    | Delete(commentID: nat, userID: int, postID: int)
    | Vote(commentID: nat, userID: int, vote: int)
    | RemoveVote(commentID: nat, userID: int)

  // ---- inserting ----

  /** The root comments of a user under a post. */
  function RootsOf(db: Db, postID: int, userID: int): set<nat> {
    set id | id in db.comments && db.comments[id].parentID == None && db.comments[id].postID == postID
             && db.comments[id].userID == userID
  }

  /** A live reply of a user to a comment. */
  predicate HasReply(db: Db, userID: int, parent: nat) {
    exists id | id in db.comments :: IsReply(db.comments[id], userID, parent)
  }

  predicate IsReply(c: Comment, userID: int, parent: nat) {
    c.userID == userID && c.parentID == Some(parent) && !c.isDeleted
  }

  function InsertGuard(cfg: Config, db: Db, r: Request): Outcome
    requires r.Insert?
  {
    match r.parentID
    case Some(p) =>
      if p !in db.comments then Failed(NotFound)
      else
        var parent := db.comments[p];
        if parent.postID != r.postID then Failed(WrongPost)
        else if parent.isDeleted then Failed(ParentDeleted)
        else if parent.depth + 1 >= cfg.maxNestingDepth then Failed(TooDeep)
        else if parent.userID == r.userID then Failed(OwnComment)
        else Done
    case None =>
      if |RootsOf(db, r.postID, r.userID)| >= cfg.maxRootsPerUser then Failed(TooManyRoots) else Done
  }

  /** What the tables' own constraints say to a new row. */
  function RowGuard(db: Db, r: Request): Outcome
    requires r.Insert?
  {
    if r.userID !in db.users || r.postID !in db.posts then Failed(MissingRelation)
    else if r.parentID.Some? && HasReply(db, r.userID, r.parentID.value) then Failed(RepeatedReply)
    else Done
  }

  function NewRow(db: Db, r: Request): Comment
    requires r.Insert? && (r.parentID.Some? ==> r.parentID.value in db.comments)
  {
    Comment(db.nextID, r.userID, r.postID, r.parentID,
            if r.parentID.Some? then db.comments[r.parentID.value].depth + 1 else 0, r.upvotes, r.downvotes, r.body, false)
  }

  /** A refused row still uses up an ID of the sequence. */
  function Inserted(cfg: Config, db: Db, r: Request): (Db, Outcome)
    requires r.Insert?
  {
    if InsertGuard(cfg, db, r) != Done then (db, InsertGuard(cfg, db, r))
    else if RowGuard(db, r) != Done then (db.(nextID := db.nextID + 1), RowGuard(db, r))
    else (db.(comments := db.comments[db.nextID := NewRow(db, r)], nextID := db.nextID + 1), Done)
  }

  // ---- deleting ----

  predicate HasChildren(db: Db, id: nat) {
    exists k | k in db.comments :: db.comments[k].parentID == Some(id)
  }

  /** The rows left when a comment goes; its votes go with it. */
  function Without(db: Db, id: nat): Db {
    db.(comments := map k | k in db.comments && k != id :: db.comments[k],
        votes := map v | v in db.votes && v.1 != id :: db.votes[v])
  }

  function SoftDeleted(c: Comment): Comment {
    c.(body := "[deleted]", isDeleted := true)
  }

  function Deleted(db: Db, r: Request): (Db, Outcome)
    requires r.Delete?
  {
    if r.commentID !in db.comments then (db, Failed(NotFound))
    else
      var c := db.comments[r.commentID];
      if c.userID != r.userID then (db, Failed(NotOwner))
      else if c.postID != r.postID then (db, Failed(WrongPost))
      else if c.isDeleted then (db, Done)
      else if !HasChildren(db, r.commentID) then (Without(db, r.commentID), Done)
      else (db.(comments := db.comments[r.commentID := SoftDeleted(c)]), Done)
  }

  // ---- voting ----

  function VoteOf(db: Db, userID: int, id: nat): int {
    if (userID, id) in db.votes then db.votes[(userID, id)] else 0
  }

  function Delta(vote: int, which: int): int {
    if vote == which then 1 else 0
  }

  function Voted(db: Db, r: Request): (Db, Outcome)
    requires r.Vote?
  {
    if r.vote != 1 && r.vote != -1 then (db, Failed(InvalidVote))
    else if r.userID !in db.users || r.commentID !in db.comments then (db, Failed(MissingRelation))
    else
      var was, c := VoteOf(db, r.userID, r.commentID), db.comments[r.commentID];
      if was == r.vote then (db, Failed(RepeatedVote))
      else if c.isDeleted then (db, Failed(CommentDeleted))
      else
        var counted := c.(upvotes := c.upvotes + Delta(r.vote, 1) - Delta(was, 1),
                          downvotes := c.downvotes + Delta(r.vote, -1) - Delta(was, -1));
        (db.(comments := db.comments[r.commentID := counted], votes := db.votes[(r.userID, r.commentID) := r.vote]), Done)
  }

  /** Takes a vote back, also from a deleted comment. */
  function VoteRemoved(db: Db, r: Request): (Db, Outcome)
    requires r.RemoveVote?
  {
    if (r.userID, r.commentID) !in db.votes || r.commentID !in db.comments then (db, Done)
    else
      var was, c := db.votes[(r.userID, r.commentID)], db.comments[r.commentID];
      var counted := c.(upvotes := c.upvotes - Delta(was, 1), downvotes := c.downvotes - Delta(was, -1));
      (db.(comments := db.comments[r.commentID := counted], votes := db.votes - {(r.userID, r.commentID)}), Done)
  }

  // ---- runs ----

  function Apply(cfg: Config, db: Db, r: Request): Db {
    match r
    case Insert(_, _, _, _, _, _) => Inserted(cfg, db, r).0
    case Delete(_, _, _) => Deleted(db, r).0
    case Vote(_, _, _) => Voted(db, r).0
    case RemoveVote(_, _) => VoteRemoved(db, r).0
  }

  /** The tables after a list of transactions, one after the other. */
  function Run(cfg: Config, db: Db, rs: seq<Request>): Db {
    if rs == [] then db else Apply(cfg, Run(cfg, db, rs[..|rs| - 1]), rs[|rs| - 1])
  }

  function EmptyDb(users: set<int>, posts: set<int>): Db {
    Db(map[], map[], 0, users, posts)
  }

  // ---- what every transaction keeps ----

  /** A row stands on its own: its ID was drawn, and its author and post exist. */
  ghost predicate RowOk(db: Db, id: nat)
    requires id in db.comments
  {
    var c := db.comments[id];
    c.id == id && id < db.nextID && c.userID in db.users && c.postID in db.posts
  }

  /** A reply lies one level below an older parent of the same post by another user; a root at depth 0. */
  ghost predicate LinkOk(cfg: Config, db: Db, id: nat)
    requires id in db.comments
  {
    var c := db.comments[id];
    match c.parentID
    case None => c.depth == 0
    case Some(p) =>
      && p < id && p in db.comments
      && db.comments[p].postID == c.postID && db.comments[p].userID != c.userID
      && c.depth == db.comments[p].depth + 1 && c.depth < cfg.maxNestingDepth
  }

  ghost predicate RowsOk(cfg: Config, db: Db) {
    forall id :: id in db.comments ==> RowOk(db, id) && LinkOk(cfg, db, id)
  }

  /** Both are live replies of one user to one comment. */
  ghost predicate SameReply(c: Comment, e: Comment) {
    c.parentID.Some? && IsReply(c, c.userID, c.parentID.value) && IsReply(e, c.userID, c.parentID.value)
  }

  /** No user has two live replies to the same comment. */
  ghost predicate OneReply(db: Db) {
    forall a, b :: a in db.comments && b in db.comments && a != b ==> !SameReply(db.comments[a], db.comments[b])
  }

  ghost predicate FewRoots(cfg: Config, db: Db) {
    forall p, u :: RootsOf(db, p, u) == {} || |RootsOf(db, p, u)| <= cfg.maxRootsPerUser
  }

  ghost predicate VotesOk(db: Db) {
    forall v :: v in db.votes ==> VoteOk(db, v)
  }

  ghost predicate VoteOk(db: Db, v: (int, nat))
    requires v in db.votes
  {
    v.0 in db.users && v.1 in db.comments && (db.votes[v] == 1 || db.votes[v] == -1)
  }

  ghost predicate Inv(cfg: Config, db: Db) {
    RowsOk(cfg, db) && OneReply(db) && FewRoots(cfg, db) && VotesOk(db)
  }

  lemma {:induction false} NextIsFresh(cfg: Config, db: Db)
    requires RowsOk(cfg, db)
    ensures db.nextID !in db.comments
  {
    forall id | id in db.comments ensures id < db.nextID {
      assert RowOk(db, id);
    }
  }

  lemma {:induction false} InsertRows(cfg: Config, db: Db, r: Request)
    requires r.Insert? && RowsOk(cfg, db) && VotesOk(db)
    ensures var d := Inserted(cfg, db, r).0; RowsOk(cfg, d) && VotesOk(d)
  {
    hide HasReply, RootsOf;
    var d := Inserted(cfg, db, r).0;
    forall id | id in d.comments ensures RowOk(d, id) && LinkOk(cfg, d, id) {
      if id in db.comments { assert RowOk(db, id) && LinkOk(cfg, db, id); }
      if r.parentID.Some? && r.parentID.value in db.comments { assert RowOk(db, r.parentID.value); }
    }
    NextIsFresh(cfg, db);
    forall v | v in d.votes ensures VoteOk(d, v) {
      assert VoteOk(db, v);
    }
  }

  lemma {:induction false} InsertUnique(cfg: Config, db: Db, r: Request)
    requires r.Insert? && RowsOk(cfg, db) && OneReply(db)
    ensures OneReply(Inserted(cfg, db, r).0)
  {
    hide InsertGuard;
    NextIsFresh(cfg, db);
  }

  lemma {:induction false} InsertRoots(cfg: Config, db: Db, r: Request)
    requires r.Insert? && RowsOk(cfg, db) && FewRoots(cfg, db)
    ensures FewRoots(cfg, Inserted(cfg, db, r).0)
  {
    hide RowGuard, RowsOk, FewRoots, RootsOf;
    var d := Inserted(cfg, db, r).0;
    NextIsFresh(cfg, db);
    if d.comments == db.comments {
      SameRoots(cfg, db, d);
    } else {
      AddedRoots(cfg, db, d, NewRow(db, r));
    }
  }

  lemma {:induction false} SameRoots(cfg: Config, db: Db, d: Db)
    requires FewRoots(cfg, db) && d.comments == db.comments
    ensures FewRoots(cfg, d)
  {
    forall p, u ensures RootsOf(d, p, u) == {} || |RootsOf(d, p, u)| <= cfg.maxRootsPerUser {
      assert RootsOf(d, p, u) == RootsOf(db, p, u);
    }
  }

  lemma {:induction false} AddedRoots(cfg: Config, db: Db, d: Db, c: Comment)
    requires FewRoots(cfg, db) && c.id !in db.comments && d.comments == db.comments[c.id := c]
    requires c.parentID == None ==> |RootsOf(db, c.postID, c.userID)| < cfg.maxRootsPerUser
    ensures FewRoots(cfg, d)
  {
    forall p, u ensures RootsOf(d, p, u) == {} || |RootsOf(d, p, u)| <= cfg.maxRootsPerUser {
      if c.parentID == None && p == c.postID && u == c.userID {
        assert RootsOf(d, p, u) == RootsOf(db, p, u) + {c.id};
      } else {
        assert RootsOf(d, p, u) == RootsOf(db, p, u);
      }
    }
  }

  /** A table with the same rows, or fewer, apart from texts, counters and deletion marks. */
  ghost predicate Shrinks(db: Db, d: Db) {
    && d.nextID == db.nextID && d.users == db.users && d.posts == db.posts
    && forall id :: id in d.comments ==> id in db.comments && SameLinks(db.comments[id], d.comments[id])
  }

  ghost predicate SameLinks(c: Comment, e: Comment) {
    && e.id == c.id && e.userID == c.userID && e.postID == c.postID && e.parentID == c.parentID && e.depth == c.depth
    && (c.isDeleted ==> e.isDeleted)
  }

  /** Parents outlive their replies. */
  ghost predicate KeepsParents(db: Db, d: Db) {
    forall id :: id in d.comments && id in db.comments && db.comments[id].parentID.Some? ==>
      (db.comments[id].parentID.value in db.comments ==> db.comments[id].parentID.value in d.comments)
  }

  lemma {:induction false} ShrinkKeeps(cfg: Config, db: Db, d: Db)
    requires RowsOk(cfg, db) && OneReply(db) && FewRoots(cfg, db) && Shrinks(db, d) && KeepsParents(db, d)
    ensures RowsOk(cfg, d) && OneReply(d) && FewRoots(cfg, d)
  {
    forall id | id in d.comments ensures RowOk(d, id) && LinkOk(cfg, d, id) {
      assert RowOk(db, id) && LinkOk(cfg, db, id);
      assert SameLinks(db.comments[id], d.comments[id]);
    }
    forall p, u ensures RootsOf(d, p, u) == {} || |RootsOf(d, p, u)| <= cfg.maxRootsPerUser {
      assert RootsOf(d, p, u) <= RootsOf(db, p, u);
      Fewer(RootsOf(d, p, u), RootsOf(db, p, u));
    }
  }

  lemma {:induction false} Fewer(a: set<nat>, b: set<nat>)
    requires a <= b
    ensures |a| <= |b|
  {
    assert b == a + (b - a);
  }

  lemma {:induction false} DeleteInv(cfg: Config, db: Db, r: Request)
    requires r.Delete? && Inv(cfg, db)
    ensures Inv(cfg, Deleted(db, r).0)
  {
    hide RowsOk, OneReply, FewRoots;
    var d := Deleted(db, r).0;
    ShrinkKeeps(cfg, db, d);
    forall v | v in d.votes ensures VoteOk(d, v) {
      assert VoteOk(db, v);
    }
  }

  lemma {:induction false} VoteInv(cfg: Config, db: Db, r: Request)
    requires (r.Vote? || r.RemoveVote?) && Inv(cfg, db)
    ensures Inv(cfg, Apply(cfg, db, r))
  {
    hide RowsOk, OneReply, FewRoots, VotesOk, Shrinks, KeepsParents;
    VoteShrinks(cfg, db, r);
    VoteKeepsVotes(cfg, db, r);
    ShrinkKeeps(cfg, db, Apply(cfg, db, r));
  }

  lemma {:induction false} VoteShrinks(cfg: Config, db: Db, r: Request)
    requires (r.Vote? || r.RemoveVote?) && RowsOk(cfg, db)
    ensures var d := Apply(cfg, db, r); Shrinks(db, d) && KeepsParents(db, d)
  {
  }

  lemma {:induction false} VoteKeepsVotes(cfg: Config, db: Db, r: Request)
    requires (r.Vote? || r.RemoveVote?) && VotesOk(db)
    ensures VotesOk(Apply(cfg, db, r))
  {
    var d := Apply(cfg, db, r);
    forall v | v in d.votes ensures VoteOk(d, v) {
      if v in db.votes { assert VoteOk(db, v); }
    }
  }

  lemma {:induction false} ApplyInv(cfg: Config, db: Db, r: Request)
    requires Inv(cfg, db)
    ensures Inv(cfg, Apply(cfg, db, r))
  {
    hide RowsOk, OneReply, FewRoots, VotesOk, Inserted, Deleted, Voted, VoteRemoved;
    match r
    case Insert(_, _, _, _, _, _) =>
      InsertRows(cfg, db, r);
      InsertUnique(cfg, db, r);
      InsertRoots(cfg, db, r);
    case Delete(_, _, _) => DeleteInv(cfg, db, r);
    case _ => VoteInv(cfg, db, r);
  }

  /** In every state reachable by transactions run one after the other: replies lie one level below
   *  an existing parent of the same post by another user, below the maximum depth; no user has two
   *  live replies to one comment or more roots than allowed; votes are +1 or -1. */
  lemma {:induction false} RunInv(cfg: Config, users: set<int>, posts: set<int>, rs: seq<Request>)
    ensures Inv(cfg, Run(cfg, EmptyDb(users, posts), rs))
  {
    hide Inv, Apply;
    if rs == [] {
      EmptyInv(cfg, users, posts);
    } else {
      RunInv(cfg, users, posts, rs[..|rs| - 1]);
      ApplyInv(cfg, Run(cfg, EmptyDb(users, posts), rs[..|rs| - 1]), rs[|rs| - 1]);
    }
  }

  lemma {:induction false} EmptyInv(cfg: Config, users: set<int>, posts: set<int>)
    ensures Inv(cfg, EmptyDb(users, posts))
  {
    forall p, u ensures RootsOf(EmptyDb(users, posts), p, u) == {} {
    }
  }

  /** A row disappears only when its own author deletes it, under its post, alive and without replies. */
  lemma {:induction false} OnlyLeavesGo(cfg: Config, db: Db, r: Request, id: nat)
    requires id in db.comments && id !in Apply(cfg, db, r).comments
    ensures r.Delete? && r.commentID == id && r.userID == db.comments[id].userID && r.postID == db.comments[id].postID
    ensures !db.comments[id].isDeleted && !HasChildren(db, id)
    ensures Apply(cfg, db, r) == Without(db, id)
  {
    hide HasChildren, InsertGuard, RowGuard;
  }

  // ---- vote conservation ----

  /** The users whose stored vote on a comment has this value. */
  ghost function Voters(db: Db, id: nat, which: int): set<int> {
    set u | u in db.users && (u, id) in db.votes && db.votes[(u, id)] == which
  }

  datatype Balance = Balance(up: int, down: int)

  /** Counters less the stored votes. */
  ghost function BalanceOf(db: Db, id: nat): Balance
    requires id in db.comments
  {
    Balance(db.comments[id].upvotes - |Voters(db, id, 1)|, db.comments[id].downvotes - |Voters(db, id, -1)|)
  }

  lemma {:induction false} VoteStored(db: Db, d: Db, id: nat, u: int, vote: int, which: int)
    requires u in db.users && d.users == db.users && d.votes == db.votes[(u, id) := vote] && which != 0
    ensures |Voters(d, id, which)| == |Voters(db, id, which)| + Delta(vote, which) - Delta(VoteOf(db, u, id), which)
  {
    var was, now := Voters(db, id, which), Voters(d, id, which);
    assert now == (was - {u}) + (if vote == which then {u} else {});
    assert VoteOf(db, u, id) == which <==> u in was;
  }

  lemma {:induction false} VoteDropped(db: Db, d: Db, id: nat, u: int, which: int)
    requires u in db.users && d.users == db.users && d.votes == db.votes - {(u, id)} && which != 0
    ensures |Voters(d, id, which)| == |Voters(db, id, which)| - Delta(VoteOf(db, u, id), which)
  {
    var was, now := Voters(db, id, which), Voters(d, id, which);
    assert now == was - {u};
    assert VoteOf(db, u, id) == which <==> u in was;
  }

  /** No transaction changes the balance of a comment that stays, committed or rolled back. */
  lemma {:induction false} ApplyBalance(cfg: Config, db: Db, r: Request, id: nat)
    requires Inv(cfg, db) && id in db.comments && id in Apply(cfg, db, r).comments
    ensures BalanceOf(Apply(cfg, db, r), id) == BalanceOf(db, id)
  {
    hide RowsOk, OneReply, FewRoots, InsertGuard, RowGuard, HasChildren;
    var d := Apply(cfg, db, r);
    assert id < db.nextID by { DrawnID(cfg, db, id); }
    if (r.Vote? || r.RemoveVote?) && r.commentID == id && d != db {
      if r.Vote? {
        VoteStored(db, d, id, r.userID, r.vote, 1);
        VoteStored(db, d, id, r.userID, r.vote, -1);
      } else {
        assert VoteOk(db, (r.userID, id));
        VoteDropped(db, d, id, r.userID, 1);
        VoteDropped(db, d, id, r.userID, -1);
      }
    } else {
      assert Voters(d, id, 1) == Voters(db, id, 1);
      assert Voters(d, id, -1) == Voters(db, id, -1);
    }
  }

  lemma {:induction false} DrawnID(cfg: Config, db: Db, id: nat)
    requires RowsOk(cfg, db) && id in db.comments
    ensures id < db.nextID
  {
    assert RowOk(db, id);
  }

  /** IDs of removed comments never come back. */
  lemma {:induction false} GoneForGood(cfg: Config, db: Db, r: Request, id: nat)
    requires id < db.nextID && id !in db.comments
    ensures var d := Apply(cfg, db, r); id < d.nextID && id !in d.comments
  {
    hide InsertGuard, RowGuard, HasChildren;
  }

  lemma {:induction false} RunGone(cfg: Config, db: Db, rs: seq<Request>, id: nat)
    requires id < db.nextID && id !in db.comments
    ensures var d := Run(cfg, db, rs); id < d.nextID && id !in d.comments
  {
    hide Apply;
    if rs != [] {
      RunGone(cfg, db, rs[..|rs| - 1], id);
      GoneForGood(cfg, Run(cfg, db, rs[..|rs| - 1]), rs[|rs| - 1], id);
    }
  }

  lemma {:induction false} NextOnlyGrows(cfg: Config, db: Db, rs: seq<Request>)
    ensures Run(cfg, db, rs).nextID >= db.nextID
  {
    hide InsertGuard, RowGuard, HasChildren;
    if rs != [] {
      NextOnlyGrows(cfg, db, rs[..|rs| - 1]);
    }
  }

  lemma {:induction false} RunFromInv(cfg: Config, db: Db, rs: seq<Request>)
    requires Inv(cfg, db)
    ensures Inv(cfg, Run(cfg, db, rs))
  {
    hide Inv, Apply;
    if rs != [] {
      RunFromInv(cfg, db, rs[..|rs| - 1]);
      ApplyInv(cfg, Run(cfg, db, rs[..|rs| - 1]), rs[|rs| - 1]);
    }
  }

  /** Over any run, a comment that is there at both ends has the same balance at both. */
  lemma {:induction false} RunBalance(cfg: Config, db: Db, rs: seq<Request>, id: nat)
    requires Inv(cfg, db) && id in db.comments && id in Run(cfg, db, rs).comments
    ensures BalanceOf(Run(cfg, db, rs), id) == BalanceOf(db, id)
  {
    hide Inv, Apply, BalanceOf;
    if rs != [] {
      var n := |rs| - 1;
      var m := Run(cfg, db, rs[..n]);
      RunFromInv(cfg, db, rs[..n]);
      NextOnlyGrows(cfg, db, rs[..n]);
      assert id < db.nextID by { InvDrawn(cfg, db, id); }
      if id !in m.comments {
        GoneForGood(cfg, m, rs[n], id);
      }
      RunBalance(cfg, db, rs[..n], id);
      ApplyBalance(cfg, m, rs[n], id);
    }
  }

  lemma {:induction false} InvDrawn(cfg: Config, db: Db, id: nat)
    requires Inv(cfg, db) && id in db.comments
    ensures id < db.nextID
  {
    DrawnID(cfg, db, id);
  }

  /** As long as a comment exists, its counters less the counters it was created with are the
   *  numbers of stored +1 and -1 votes on it: across first votes, flips, repeats and removals. */
  lemma {:induction false} VoteConservation(cfg: Config, db: Db, r: Request, rs: seq<Request>)
    requires Inv(cfg, db) && r.Insert? && Inserted(cfg, db, r).1 == Done
    ensures var id, d := db.nextID, Run(cfg, Apply(cfg, db, r), rs);
      id in d.comments ==>
        && d.comments[id].upvotes - r.upvotes == |Voters(d, id, 1)|
        && d.comments[id].downvotes - r.downvotes == |Voters(d, id, -1)|
  {
    hide RowsOk, OneReply, FewRoots, InsertGuard, RowGuard, Run, Voters;
    var id, born := db.nextID, Apply(cfg, db, r);
    ApplyInv(cfg, db, r);
    NextIsFresh(cfg, db);
    NoVotesYet(db, id, 1);
    NoVotesYet(db, id, -1);
    SameVoters(db, born, id);
    if id in Run(cfg, born, rs).comments {
      RunBalance(cfg, born, rs, id);
    }
  }

  lemma {:induction false} NoVotesYet(db: Db, id: nat, which: int)
    requires VotesOk(db) && id !in db.comments
    ensures Voters(db, id, which) == {}
  {
    forall v | v in db.votes ensures v.1 != id {
      assert VoteOk(db, v);
    }
  }

  lemma {:induction false} SameVoters(db: Db, d: Db, id: nat)
    requires d.votes == db.votes && d.users == db.users
    ensures Voters(d, id, 1) == Voters(db, id, 1) && Voters(d, id, -1) == Voters(db, id, -1)
  {
  }

  // ---- the transactions as they run ----

  class Store {
    const config: Config
    const users: set<int>
    const posts: set<int>
    var comments: map<nat, Comment>
    var votes: map<(int, nat), int>
    var nextID: nat

    constructor (config: Config, users: set<int>, posts: set<int>)
      ensures Value() == EmptyDb(users, posts) && this.config == config
    {
      this.config, this.users, this.posts := config, users, posts;
      comments, votes, nextID := map[], map[], 0;
    }

    ghost function Value(): Db
      reads this
    {
      Db(comments, votes, nextID, users, posts)
    }

    // ---- queries ----

    method RootCommentCountForUser(postID: int, userID: int) returns (count: nat)
      ensures count == |RootsOf(Value(), postID, userID)|
    {
      var db := Db(comments, votes, nextID, users, posts);
      return |RootsOf(db, postID, userID)|;
    }

    /** Inserts a row, unless a foreign key or the unique reply index objects; the ID is used up either way. */
    method CreateComment(userID: int, postID: int, body: string, parentID: Option<nat>, depth: nat, upvotes: int, downvotes: int)
      returns (outcome: Outcome, row: Comment)
      requires parentID.Some? ==> parentID.value in comments
      modifies this`comments, this`nextID
      ensures var r := Insert(userID, postID, body, parentID, upvotes, downvotes);
        && outcome == RowGuard(old(Value()), r) && nextID == old(nextID) + 1
        && row == Comment(old(nextID), userID, postID, parentID, depth, upvotes, downvotes, body, false)
        && comments == if outcome == Done then old(comments)[old(nextID) := row] else old(comments)
    {
      row := Comment(nextID, userID, postID, parentID, depth, upvotes, downvotes, body, false);
      var db := Db(comments, votes, nextID, users, posts);
      nextID := nextID + 1;
      if userID !in users || postID !in posts {
        return Failed(MissingRelation), row;
      }
      if parentID.Some? && HasReply(db, userID, parentID.value) {
        return Failed(RepeatedReply), row;
      }
      comments := comments[row.id := row];
      return Done, row;
    }

    /** The target's row, whether it has replies, and whether it was removed. */
    method DeleteCommentIfLeaf(id: nat, userID: int, postID: int) returns (row: Comment, hasChildren: bool, deleted: bool)
      requires id in comments
      modifies this`comments, this`votes
      ensures row == old(comments)[id] && hasChildren == HasChildren(old(Value()), id)
      ensures deleted == (row.userID == userID && row.postID == postID && !row.isDeleted && !hasChildren)
      ensures Value() == if deleted then Without(old(Value()), id) else old(Value())
    {
      row := comments[id];
      var db := Db(comments, votes, nextID, users, posts);
      hasChildren := HasChildren(db, id);
      deleted := row.userID == userID && row.postID == postID && !row.isDeleted && !hasChildren;
      if deleted {
        var left := Without(db, id);
        comments, votes := left.comments, left.votes;
      }
    }

    /** Stores a vote and returns the one it replaces, or 0. */
    method UpsertCommentVote(userID: int, id: nat, vote: int) returns (outcome: Outcome, original: int)
      modifies this`votes
      ensures outcome == if userID in users && id in comments then Done else Failed(MissingRelation)
      ensures original == VoteOf(old(Value()), userID, id)
      ensures votes == if outcome == Done then old(votes)[(userID, id) := vote] else old(votes)
    {
      original := if (userID, id) in votes then votes[(userID, id)] else 0;
      if userID !in users || id !in comments {
        return Failed(MissingRelation), original;
      }
      votes := votes[(userID, id) := vote];
      return Done, original;
    }

    /** Adds to the counters of a comment that is not deleted. */
    method UpdateCommentPopularity(id: nat, upDelta: int, downDelta: int) returns (found: bool)
      modifies this`comments
      ensures found == (id in old(comments) && !old(comments)[id].isDeleted)
      ensures comments == if found
        then old(comments)[id := old(comments)[id].(upvotes := old(comments)[id].upvotes + upDelta,
                                                    downvotes := old(comments)[id].downvotes + downDelta)]
        else old(comments)
    {
      if id !in comments || comments[id].isDeleted {
        return false;
      }
      var c := comments[id];
      comments := comments[id := c.(upvotes := c.upvotes + upDelta, downvotes := c.downvotes + downDelta)];
      return true;
    }

    // ---- transactions ----

    method InsertCommentTx(userID: int, postID: int, body: string, parentID: Option<nat>, upvotes: int, downvotes: int)
      returns (outcome: Outcome, row: Option<Comment>)
      modifies this`comments, this`nextID
      ensures (Value(), outcome) == Inserted(config, old(Value()), Insert(userID, postID, body, parentID, upvotes, downvotes))
      ensures row == if outcome == Done then Some(comments[old(nextID)]) else None
    {
      hide HasReply, RootsOf;
      var depth := 0;
      if parentID.Some? {
        if parentID.value !in comments {
          return Failed(NotFound), None;
        }
        var parent := comments[parentID.value];
        if parent.postID != postID {
          return Failed(WrongPost), None;
        }
        if parent.isDeleted {
          return Failed(ParentDeleted), None;
        }
        if parent.depth + 1 >= config.maxNestingDepth {
          return Failed(TooDeep), None;
        }
        if parent.userID == userID {
          return Failed(OwnComment), None;
        }
        depth := parent.depth + 1;
      } else {
        var count := RootCommentCountForUser(postID, userID);
        if count >= config.maxRootsPerUser {
          return Failed(TooManyRoots), None;
        }
      }
      var created;
      outcome, created := CreateComment(userID, postID, body, parentID, depth, upvotes, downvotes);
      row := if outcome == Done then Some(created) else None;
    }

    method DeleteCommentTx(id: nat, userID: int, postID: int) returns (outcome: Outcome)
      modifies this`comments, this`votes
      ensures (Value(), outcome) == Deleted(old(Value()), Delete(id, userID, postID))
      ensures outcome != Failed(Corrupted)
    {
      hide HasChildren, Without;
      if id !in comments {
        return Failed(NotFound);
      }
      var row, hasChildren, deleted := DeleteCommentIfLeaf(id, userID, postID);
      if row.userID != userID {
        return Failed(NotOwner);
      }
      if row.postID != postID {
        return Failed(WrongPost);
      }
      if deleted || row.isDeleted {
        return Done;
      }
      if hasChildren {
        comments := comments[id := SoftDeleted(comments[id])];
        return Done;
      }
      assert false;
      return Failed(Corrupted);
    }

    method VoteCommentTx(userID: int, id: nat, vote: int) returns (outcome: Outcome)
      modifies this`comments, this`votes
      ensures (Value(), outcome) == Voted(old(Value()), Vote(id, userID, vote))
    {
      var savedComments, savedVotes := comments, votes;
      outcome := VoteSteps(userID, id, vote);
      if outcome != Done {
        comments, votes := savedComments, savedVotes;
      }
    }

    /** The body of the transaction; a failure leaves work for the rollback. */
    method VoteSteps(userID: int, id: nat, vote: int) returns (outcome: Outcome)
      modifies this`comments, this`votes
      ensures outcome == Voted(old(Value()), Vote(id, userID, vote)).1
      ensures outcome == Done ==> Value() == Voted(old(Value()), Vote(id, userID, vote)).0
    {
      if vote != -1 && vote != 1 {
        return Failed(InvalidVote);
      }
      var stored, original := UpsertCommentVote(userID, id, vote);
      if stored != Done {
        return stored;
      }
      if original == vote {
        return Failed(RepeatedVote);
      }
      var upDelta, downDelta := 0, 0;
      if vote == 1 { upDelta := upDelta + 1; } else { downDelta := downDelta + 1; }
      if original == 1 { upDelta := upDelta - 1; } else if original == -1 { downDelta := downDelta - 1; }
      var found := UpdateCommentPopularity(id, upDelta, downDelta);
      return if found then Done else Failed(CommentDeleted);
    }
  }
}
