/** Votes on posts: the two statements that store and remove them, and the counters they keep. */
module PostVotes {

  datatype Counters = Counters(upvotes: int, downvotes: int)

  /** Posts by ID, votes by user and post; each pair has at most one vote. */
  datatype Tables = Tables(posts: map<int, Counters>, votes: map<(int, int), int>, users: set<int>)

  datatype Request = Cast(userID: int, postID: int, vote: int) | Remove(userID: int, postID: int)

  predicate Exists(t: Tables, r: Request) {
    r.userID in t.users && r.postID in t.posts
  }

  function Bumped(t: Tables, postID: int, up: int, down: int): map<int, Counters> {
    if postID !in t.posts then t.posts
    else
      var c := t.posts[postID];
      t.posts[postID := Counters(c.upvotes + up, c.downvotes + down)]
  }

  /** A stored vote of another value is replaced, a missing one added; a repeated one changes nothing. */
  function Voted(t: Tables, r: Request): Tables
    requires r.Cast?
  {
    var key := (r.userID, r.postID);
    if key in t.votes then
      if t.votes[key] == r.vote then t
      else t.(votes := t.votes[key := r.vote],
              posts := Bumped(t, r.postID, if r.vote == 1 then 1 else -1, if r.vote == -1 then 1 else -1))
    else if !Exists(t, r) then t
    else t.(votes := t.votes[key := r.vote],
            posts := Bumped(t, r.postID, if r.vote == 1 then 1 else 0, if r.vote == -1 then 1 else 0))
  }

  function Removed(t: Tables, r: Request): Tables
    requires r.Remove?
  {
    var key := (r.userID, r.postID);
    if key !in t.votes then t
    else
      var was := t.votes[key];
      t.(votes := t.votes - {key},
         posts := Bumped(t, r.postID, if was == 1 then -1 else 0, if was == -1 then -1 else 0))
  }

  function Apply(t: Tables, r: Request): Tables {
    match r
    case Cast(_, _, _) => Voted(t, r)
    case Remove(_, _) => Removed(t, r)
  }

  function Run(t: Tables, rs: seq<Request>): Tables {
    if rs == [] then t else Apply(Run(t, rs[..|rs| - 1]), rs[|rs| - 1])
  }

  predicate IsVote(v: int) {
    v == 1 || v == -1
  }

  /** Foreign keys hold and every stored vote is +1 or -1. */
  ghost predicate Ok(t: Tables) {
    forall k :: k in t.votes ==> k.0 in t.users && k.1 in t.posts && IsVote(t.votes[k])
  }

  ghost function Voters(t: Tables, postID: int, which: int): set<int> {
    set u | u in t.users && (u, postID) in t.votes && t.votes[(u, postID)] == which
  }

  /** Counters less the stored votes. */
  ghost function BalanceOf(t: Tables, postID: int): Counters
    requires postID in t.posts
  {
    Counters(t.posts[postID].upvotes - |Voters(t, postID, 1)|, t.posts[postID].downvotes - |Voters(t, postID, -1)|)
  }

  function Worth(t: Tables, key: (int, int), which: int): int {
    if key in t.votes && t.votes[key] == which then 1 else 0
  }

  /** The two tables hold the same votes apart from one. */
  ghost predicate DifferAt(t: Tables, d: Tables, key: (int, int)) {
    && d.users == t.users
    && forall k :: k != key ==> (k in d.votes <==> k in t.votes) && (k in t.votes ==> d.votes[k] == t.votes[k])
  }

  lemma {:induction false} VoterCount(t: Tables, d: Tables, key: (int, int), which: int)
    requires key.0 in t.users && DifferAt(t, d, key)
    ensures |Voters(d, key.1, which)| == |Voters(t, key.1, which)| + Worth(d, key, which) - Worth(t, key, which)
  {
    var u := key.0;
    var was, now := Voters(t, key.1, which), Voters(d, key.1, which);
    assert u in was <==> Worth(t, key, which) == 1;
    assert u in now <==> Worth(d, key, which) == 1;
    forall x | x != u ensures x in now <==> x in was {
      assert (x, key.1) != key;
    }
    assert now - {u} == was - {u};
    SizeApart(was, u);
    SizeApart(now, u);
  }

  lemma {:induction false} SizeApart(s: set<int>, u: int)
    ensures |s| == |s - {u}| + (if u in s then 1 else 0)
  {
    if u in s {
      assert s == (s - {u}) + {u};
    } else {
      assert s == s - {u};
    }
  }

  lemma {:induction false} OtherVoters(t: Tables, d: Tables, key: (int, int), postID: int, which: int)
    requires DifferAt(t, d, key) && postID != key.1
    ensures Voters(d, postID, which) == Voters(t, postID, which)
  {
    forall x ensures x in Voters(d, postID, which) <==> x in Voters(t, postID, which) {
      assert (x, postID) != key;
    }
  }

  /** The statement replaces a stored vote of another value. */
  predicate Replaces(t: Tables, r: Request)
    requires r.Cast?
  {
    (r.userID, r.postID) in t.votes && t.votes[(r.userID, r.postID)] != r.vote
  }

  /** Casting keeps a post's balance if and only if it does not replace a vote, or both the old and
   *  the new vote are +1 or -1. */
  lemma {:induction false} CastKeepsBalance(t: Tables, r: Request)
    requires r.Cast? && Exists(t, r)
    ensures BalanceOf(Voted(t, r), r.postID) == BalanceOf(t, r.postID)
      <==> !Replaces(t, r) || (IsVote(r.vote) && IsVote(t.votes[(r.userID, r.postID)]))
  {
    hide Voters;
    var d, key := Voted(t, r), (r.userID, r.postID);
    VoterCount(t, d, key, 1);
    VoterCount(t, d, key, -1);
  }

  /** Taking a vote back always keeps it. */
  lemma {:induction false} RemoveKeepsBalance(t: Tables, r: Request)
    requires r.Remove? && Exists(t, r)
    ensures BalanceOf(Removed(t, r), r.postID) == BalanceOf(t, r.postID)
  {
    hide Voters;
    var d, key := Removed(t, r), (r.userID, r.postID);
    VoterCount(t, d, key, 1);
    VoterCount(t, d, key, -1);
  }

  lemma {:induction false} ApplyKeeps(t: Tables, r: Request, postID: int)
    requires Ok(t) && postID in t.posts && (r.Cast? ==> IsVote(r.vote))
    ensures var d := Apply(t, r);
      Ok(d) && d.posts.Keys == t.posts.Keys && BalanceOf(d, postID) == BalanceOf(t, postID)
  {
    hide Voters;
    var d, key := Apply(t, r), (r.userID, r.postID);
    if d != t {
      if postID == r.postID {
        if r.Cast? { CastKeepsBalance(t, r); } else { RemoveKeepsBalance(t, r); }
      } else {
        OtherVoters(t, d, key, postID, 1);
        OtherVoters(t, d, key, postID, -1);
      }
    }
  }

  /** Over any run of +1 and -1 votes and removals, counters minus their initial values move exactly
   *  with the numbers of stored votes. */
  lemma {:induction false} RunBalance(t: Tables, rs: seq<Request>, postID: int)
    requires Ok(t) && postID in t.posts
    requires forall i :: 0 <= i < |rs| ==> rs[i].Cast? ==> IsVote(rs[i].vote)
    ensures var d := Run(t, rs);
      Ok(d) && postID in d.posts && BalanceOf(d, postID) == BalanceOf(t, postID)
  {
    hide Ok, BalanceOf, Apply;
    if rs != [] {
      RunBalance(t, rs[..|rs| - 1], postID);
      ApplyKeeps(Run(t, rs[..|rs| - 1]), rs[|rs| - 1], postID);
    }
  }

  /** One user upvotes a post and then casts 0: the counters end at 0 and -1 with no vote of either
   *  kind stored. */
  lemma {:induction false} NeutralVoteBreaksBalance()
    ensures var t := Tables(map[7 := Counters(0, 0)], map[], {1});
      var d := Run(t, [Cast(1, 7, 1), Cast(1, 7, 0)]);
      && Ok(t) && BalanceOf(t, 7) == Counters(0, 0)
      && 7 in d.posts && d.posts[7] == Counters(0, -1) && BalanceOf(d, 7) == Counters(0, -1)
  {
    var t := Tables(map[7 := Counters(0, 0)], map[], {1});
    var a, b := Cast(1, 7, 1), Cast(1, 7, 0);
    assert [a, b][..1] == [a] && [a][..0] == [];
    assert Run(t, []) == t;
    var d := Apply(Apply(t, a), b);
    assert Run(t, [a]) == Apply(t, a) && Run(t, [a, b]) == d;
    assert Voters(t, 7, 1) == {} && Voters(t, 7, -1) == {} && Voters(d, 7, 1) == {} && Voters(d, 7, -1) == {};
  }

  // ---- what is stored ----

  /** Casting stores the vote cast, if user and post exist or a vote is there to be replaced, and
   *  touches no other vote and no other post; the counters of the post move only with a new vote. */
  lemma {:induction false} CastStores(t: Tables, r: Request)
    requires r.Cast?
    ensures var d, key := Voted(t, r), (r.userID, r.postID);
      && DifferAt(t, d, key) && d.posts.Keys == t.posts.Keys
      && (forall p :: p in t.posts && p != r.postID ==> d.posts[p] == t.posts[p])
      && (key in d.votes <==> key in t.votes || Exists(t, r)) && (key in d.votes ==> d.votes[key] == r.vote)
      && (key in t.votes && t.votes[key] == r.vote ==> d == t)
      && (key in t.votes && t.votes[key] == -r.vote && IsVote(r.vote) && r.postID in t.posts ==>
            && d.posts[r.postID].upvotes == t.posts[r.postID].upvotes + r.vote
            && d.posts[r.postID].downvotes == t.posts[r.postID].downvotes - r.vote)
  {
  }

  /** Casting the same vote again changes nothing. */
  lemma {:induction false} CastTwice(t: Tables, r: Request)
    requires r.Cast?
    ensures Voted(Voted(t, r), r) == Voted(t, r)
  {
  }

  /** A vote and its removal leave everything as it was, if there was no vote before. */
  lemma {:induction false} CastAndBack(t: Tables, u: int, p: int, vote: int)
    requires (u, p) !in t.votes && IsVote(vote)
    ensures Removed(Voted(t, Cast(u, p, vote)), Remove(u, p)) == t
  {
    var e := Removed(Voted(t, Cast(u, p, vote)), Remove(u, p));
    assert e.votes == t.votes;
    if p in t.posts { assert e.posts[p] == t.posts[p]; }
    assert e.posts == t.posts;
  }

  /** Removing takes the user's vote on the post away, and no other. */
  lemma {:induction false} RemoveDrops(t: Tables, r: Request)
    requires r.Remove?
    ensures var d, key := Removed(t, r), (r.userID, r.postID);
      && DifferAt(t, d, key) && key !in d.votes && d.posts.Keys == t.posts.Keys
      && (forall p :: p in t.posts && p != r.postID ==> d.posts[p] == t.posts[p])
      && (key !in t.votes ==> d == t)
  {
  }

  // ---- the statements as they run ----

  class PostStore {
    const users: set<int>
    var posts: map<int, Counters>
    var votes: map<(int, int), int>

    ghost function Value(): Tables
      reads this
    {
      Tables(posts, votes, users)
    }

    constructor (users: set<int>, posts: map<int, Counters>)
      ensures Value() == Tables(posts, map[], users)
    {
      this.users, this.posts, votes := users, posts, map[];
    }

    method Bump(postID: int, up: int, down: int)
      modifies `posts
      ensures posts == Bumped(old(Value()), postID, up, down)
    {
      if postID in posts {
        posts := posts[postID := Counters(posts[postID].upvotes + up, posts[postID].downvotes + down)];
      }
    }

    method VotePost(userID: int, postID: int, vote: int)
      modifies `posts, `votes
      ensures Value() == Voted(old(Value()), Cast(userID, postID, vote))
    {
      var key := (userID, postID);
      if key in votes {
        if votes[key] != vote {
          votes := votes[key := vote];
          Bump(postID, if vote == 1 then 1 else -1, if vote == -1 then 1 else -1);
        }
      } else if userID in users && postID in posts {
        votes := votes[key := vote];
        Bump(postID, if vote == 1 then 1 else 0, if vote == -1 then 1 else 0);
      }
    }

    method DeletePostVote(userID: int, postID: int)
      modifies `posts, `votes
      ensures Value() == Removed(old(Value()), Remove(userID, postID))
    {
      var key := (userID, postID);
      if key in votes {
        var was := votes[key];
        votes := votes - {key};
        Bump(postID, if was == 1 then -1 else 0, if was == -1 then -1 else 0);
      }
    }
  }
}
