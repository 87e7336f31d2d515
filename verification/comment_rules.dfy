/** What each transaction on comments accepts and leaves behind, row by row, and how transactions undo
 *  and overrule each other. */
module CommentRules {
  import opened Basics
  import opened CommentTree
  import opened CommentStore

  // ---- inserting ----

  /** A reply may be posted: below a live comment of another user under the same post, not too deep,
   *  and only one live reply a user. */
  ghost predicate MayReply(cfg: Config, db: Db, userID: int, postID: int, p: nat) {
    && p in db.comments
    && var parent := db.comments[p];
       && !parent.isDeleted && parent.postID == postID && parent.userID != userID
       && parent.depth < cfg.maxNestingDepth - 1
       && forall id :: id in db.comments && db.comments[id].parentID == Some(p) && db.comments[id].userID == userID
            ==> db.comments[id].isDeleted
  }

  /** The IDs of a user's roots under a post. */
  ghost function RootsBy(db: Db, userID: int, postID: int): set<nat> {
    set id | id in db.comments && db.comments[id].userID == userID && db.comments[id].postID == postID
             && db.comments[id].parentID.None?
  }

  ghost predicate MayPost(cfg: Config, db: Db, userID: int, postID: int, parentID: Option<nat>) {
    && userID in db.users && postID in db.posts
    && match parentID
       case Some(p) => MayReply(cfg, db, userID, postID, p)
       case None => |RootsBy(db, userID, postID)| < cfg.maxRootsPerUser
  }

  /** An insertion succeeds exactly when the comment may be posted. Then there is one more row, under a
   *  new ID, with the author, post, parent, body and counters requested, one level below its parent;
   *  no other row, and no vote, has changed. A refused one changes no row and no vote. */
  lemma {:induction false} InsertMeans(cfg: Config, db: Db, r: Request)
    requires Inv(cfg, db) && r.Insert?
    ensures var (d, o) := Inserted(cfg, db, r);
      && (o == Done <==> MayPost(cfg, db, r.userID, r.postID, r.parentID))
      && d.votes == db.votes && d.users == db.users && d.posts == db.posts
      && (o != Done ==> d.comments == db.comments)
      && (o == Done ==>
            && db.nextID !in db.comments && d.nextID == db.nextID + 1
            && d.comments.Keys == db.comments.Keys + {db.nextID}
            && (forall id :: id in db.comments ==> d.comments[id] == db.comments[id])
            && IsNewRow(db, d.comments[db.nextID], r))
  {
    hide OneReply, FewRoots, VotesOk, LinkOk, RowOk;
    assert RootsBy(db, r.userID, r.postID) == RootsOf(db, r.postID, r.userID);
    NextIsFresh(cfg, db);
    if r.parentID.Some? { ReplyFree(db, r.userID, r.parentID.value); }
  }

  /** The new row of a request. */
  ghost predicate IsNewRow(db: Db, c: Comment, r: Request)
    requires r.Insert?
  {
    && c.id == db.nextID && c.userID == r.userID && c.postID == r.postID && c.parentID == r.parentID && c.body == r.body
    && c.upvotes == r.upvotes && c.downvotes == r.downvotes && !c.isDeleted
    && match r.parentID
       case None => c.depth == 0
       case Some(p) => p in db.comments && c.depth == db.comments[p].depth + 1
  }

  lemma {:induction false} ReplyFree(db: Db, userID: int, p: nat)
    ensures !HasReply(db, userID, p) <==>
      forall id :: id in db.comments && db.comments[id].parentID == Some(p) && db.comments[id].userID == userID
        ==> db.comments[id].isDeleted
  {
    if HasReply(db, userID, p) {
      var id :| id in db.comments && IsReply(db.comments[id], userID, p);
      assert db.comments[id].parentID == Some(p);
    } else {
      forall id | id in db.comments && db.comments[id].parentID == Some(p) && db.comments[id].userID == userID
        ensures db.comments[id].isDeleted
      {
        assert !IsReply(db.comments[id], userID, p);
      }
    }
  }

  // ---- deleting ----

  /** A deletion succeeds exactly when the comment is the user's own, under the post given. A comment
   *  with replies stays, in its place and with its counters, but its body is masked; one without is
   *  gone with its votes; one already deleted stays as it is. Nothing else changes. */
  lemma {:induction false} DeleteMeans(db: Db, r: Request)
    requires r.Delete?
    ensures var (d, o) := Deleted(db, r);
      && (o == Done <==> r.commentID in db.comments && db.comments[r.commentID].userID == r.userID
                         && db.comments[r.commentID].postID == r.postID)
      && (o != Done ==> d == db)
      && d.users == db.users && d.posts == db.posts && d.nextID == db.nextID
      && (forall id :: id in db.comments && id != r.commentID ==> id in d.comments && d.comments[id] == db.comments[id])
      && (forall v :: v in db.votes && v.1 != r.commentID ==> v in d.votes && d.votes[v] == db.votes[v])
      && d.comments.Keys <= db.comments.Keys && d.votes.Keys <= db.votes.Keys
    ensures var (d, o) := Deleted(db, r);
      o == Done ==>
        var id, was := r.commentID, db.comments[r.commentID];
        var answered := exists k :: k in db.comments && db.comments[k].parentID == Some(id);
        && (was.isDeleted ==> d == db)
        && (!was.isDeleted && answered ==>
              id in d.comments && d.comments[id] == was.(body := "[deleted]", isDeleted := true) && d.votes == db.votes)
        && (!was.isDeleted && !answered ==> id !in d.comments && forall v :: v in d.votes ==> v.1 != id)
  {
  }

  /** The body of a deleted comment is masked. */
  ghost predicate Masked(db: Db) {
    forall id :: id in db.comments && db.comments[id].isDeleted ==> db.comments[id].body == "[deleted]"
  }

  lemma {:induction false} ApplyMasks(cfg: Config, db: Db, r: Request)
    requires Masked(db)
    ensures Masked(Apply(cfg, db, r))
  {
    hide InsertGuard, RowGuard, HasChildren;
  }

  /** In every reachable state no deleted comment shows what its author wrote. */
  lemma {:induction false} DeletedAreMasked(cfg: Config, users: set<int>, posts: set<int>, rs: seq<Request>)
    ensures Masked(Run(cfg, EmptyDb(users, posts), rs))
  {
    hide Apply, Masked;
    if rs == [] {
      NothingToMask(users, posts);
    } else {
      DeletedAreMasked(cfg, users, posts, rs[..|rs| - 1]);
      ApplyMasks(cfg, Run(cfg, EmptyDb(users, posts), rs[..|rs| - 1]), rs[|rs| - 1]);
    }
  }

  lemma {:induction false} NothingToMask(users: set<int>, posts: set<int>)
    ensures Masked(EmptyDb(users, posts))
  {
  }

  // ---- voting ----

  /** What a user's vote on a comment adds to its counters. */
  ghost function Ups(db: Db, u: int, id: nat): int {
    if (u, id) in db.votes && db.votes[(u, id)] == 1 then 1 else 0
  }

  ghost function Downs(db: Db, u: int, id: nat): int {
    if (u, id) in db.votes && db.votes[(u, id)] == -1 then 1 else 0
  }

  /** Apart from one user's vote on one comment, and that comment's counters, nothing has changed. */
  ghost predicate OnlyVote(db: Db, d: Db, u: int, id: nat) {
    && d.users == db.users && d.posts == db.posts && d.nextID == db.nextID && d.comments.Keys == db.comments.Keys
    && (forall v :: v != (u, id) ==> (v in d.votes <==> v in db.votes) && (v in db.votes ==> d.votes[v] == db.votes[v]))
    && (forall k :: k in db.comments && k != id ==> d.comments[k] == db.comments[k])
    && (id in db.comments ==>
          var was, now := db.comments[id], d.comments[id];
          && now == was.(upvotes := now.upvotes, downvotes := now.downvotes)
          && now.upvotes - was.upvotes == Ups(d, u, id) - Ups(db, u, id)
          && now.downvotes - was.downvotes == Downs(d, u, id) - Downs(db, u, id))
  }

  /** A vote succeeds exactly when it is up or down, its user and comment exist, the comment is live, and
   *  it is not the vote already stored. Then it is the vote stored, and the counters have moved by what
   *  it adds and by what the vote before it no longer adds. */
  lemma {:induction false} VoteMeans(db: Db, r: Request)
    requires r.Vote?
    ensures var (d, o) := Voted(db, r);
      && (o == Done <==>
            && (r.vote == 1 || r.vote == -1) && r.userID in db.users && r.commentID in db.comments
            && !db.comments[r.commentID].isDeleted
            && ((r.userID, r.commentID) in db.votes ==> db.votes[(r.userID, r.commentID)] != r.vote))
      && (o != Done ==> d == db)
      && (o == Done ==> (r.userID, r.commentID) in d.votes && d.votes[(r.userID, r.commentID)] == r.vote
                        && OnlyVote(db, d, r.userID, r.commentID))
  {
  }

  /** Taking a vote back: it is no longer stored, and no longer counted. */
  lemma {:induction false} RemoveVoteMeans(db: Db, r: Request)
    requires r.RemoveVote? && VotesOk(db)
    ensures var (d, o) := VoteRemoved(db, r);
      o == Done && (r.userID, r.commentID) !in d.votes && OnlyVote(db, d, r.userID, r.commentID)
  {
    if (r.userID, r.commentID) in db.votes {
      assert VoteOk(db, (r.userID, r.commentID));
    }
  }

  /** A vote and its removal leave everything as it was, if there was no vote before. */
  lemma {:induction false} VoteAndBack(db: Db, u: int, id: nat, vote: int)
    requires (u, id) !in db.votes && Voted(db, Vote(id, u, vote)).1 == Done
    ensures VoteRemoved(Voted(db, Vote(id, u, vote)).0, RemoveVote(id, u)).0 == db
  {
    var d := Voted(db, Vote(id, u, vote)).0;
    var e := VoteRemoved(d, RemoveVote(id, u)).0;
    assert e.votes == db.votes;
    assert e.comments == db.comments by {
      assert e.comments[id] == db.comments[id];
    }
  }

  /** Only the last vote counts: changing one's mind is as if the second vote had been the only one. */
  lemma {:induction false} SecondVoteCounts(db: Db, u: int, id: nat)
    requires (u, id) !in db.votes && Voted(db, Vote(id, u, 1)).1 == Done
    ensures var up, down := Voted(db, Vote(id, u, 1)).0, Voted(db, Vote(id, u, -1)).0;
      && Voted(up, Vote(id, u, -1)).1 == Done && Voted(up, Vote(id, u, -1)).0 == down
      && Voted(down, Vote(id, u, 1)).1 == Done && Voted(down, Vote(id, u, 1)).0 == up
  {
    var up, down := Voted(db, Vote(id, u, 1)).0, Voted(db, Vote(id, u, -1)).0;
    var a, b := Voted(up, Vote(id, u, -1)).0, Voted(down, Vote(id, u, 1)).0;
    assert a.votes == down.votes && b.votes == up.votes;
    assert a.comments[id] == down.comments[id] && b.comments[id] == up.comments[id];
    assert a.comments == down.comments && b.comments == up.comments;
  }

  /** A stored vote stands until its user votes again, takes it back, or the comment is gone. */
  lemma {:induction false} VoteStands(cfg: Config, db: Db, r: Request, u: int, id: nat)
    requires Inv(cfg, db) && (u, id) in db.votes
    requires r != RemoveVote(id, u) && (r.Vote? ==> r.userID != u || r.commentID != id)
    ensures var d := Apply(cfg, db, r);
      id in d.comments ==> (u, id) in d.votes && d.votes[(u, id)] == db.votes[(u, id)]
  {
    hide InsertGuard, RowGuard, HasChildren, RowsOk, OneReply, FewRoots;
    assert VoteOk(db, (u, id));
  }
}
