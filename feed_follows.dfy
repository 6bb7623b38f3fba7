/** handler_feed_follows.go: following a feed by URL, listing the feeds the
    current user follows, and unfollowing. */
module FeedFollows {
  import opened Common
  import opened Store

  /** The checks FollowHandler and UnfollowFeedFollow make before any lookup:
      no argument, more than one, a bad URL. */
  function UrlGate(lib: Lib, args: seq<string>): (r: Option<Reason>)
    ensures r.None? <==> |args| == 1 && IsValidUrl(lib.parseUrl, args[0])
    ensures |args| == 0 ==> r == Some(NoArgument)
    ensures |args| > 1 ==> r == Some(TooManyArguments)
    ensures |args| == 1 && !IsValidUrl(lib.parseUrl, args[0]) ==> r == Some(InvalidUrl)
  {
    if |args| == 0 then Some(NoArgument)
    else if |args| > 1 then Some(TooManyArguments)
    else if !IsValidUrl(lib.parseUrl, args[0]) then Some(InvalidUrl)
    else None
  }

  // ---------------------------------------------------------------------------
  // FollowHandler

  /** The follows and the result after CreateFeedFollow(f) answers `reply`:
      a new row, or a duplicate taken as success ("already following"), or
      any other error returned. */
  function Followed(follows: set<Follow>, f: Follow, reply: Option<DbError>): (r: (set<Follow>, Status))
    ensures r.1 == Done <==> reply.None? || IsUniqueViolation(reply.value)
    ensures r.1 != Done ==> r.1 == Failed(StoreFailed(CreateFeedFollow, reply.value))
    ensures r.0 == if reply.None? then follows + {f} else follows
  {
    match reply
    case None => (follows + {f}, Done)
    case Some(e) => if IsUniqueViolation(e) then (follows, Done) else (follows, Failed(StoreFailed(CreateFeedFollow, e)))
  }

  /** The store answers CreateFeedFollow(f) with a unique-constraint violation
      exactly when it already holds the pair. */
  predicate ExactFollowReply(follows: set<Follow>, f: Follow, reply: Option<DbError>) {
    && (reply.None? <==> f !in follows)
    && (reply.Some? ==> IsUniqueViolation(reply.value))
  }

  /** Following twice: both calls succeed and the second changes nothing. */
  lemma FollowTwiceIsIdempotent(follows: set<Follow>, f: Follow, first: Option<DbError>, second: Option<DbError>)
    requires ExactFollowReply(follows, f, first)
    requires ExactFollowReply(Followed(follows, f, first).0, f, second)
    ensures Followed(follows, f, first).1 == Done
    ensures Followed(follows, f, first).0 == follows + {f}
    ensures Followed(Followed(follows, f, first).0, f, second) == (follows + {f}, Done)
  {
  }

  /** PostgreSQL's duplicate-key message counts as "already following";
      sql.ErrNoRows does not. */
  lemma DuplicateFollowIsSuccess(follows: set<Follow>, f: Follow, constraint: string)
    ensures Followed(follows, f,
      Some(DbFailure("ERROR: " + UniqueViolation + " \"" + constraint + "\" (SQLSTATE 23505)"))) == (follows, Done)
    ensures Followed(follows, f, Some(NoRows)) == (follows, Failed(StoreFailed(CreateFeedFollow, NoRows)))
  {
    PostgresDuplicateIsUniqueViolation(constraint);
  }

  /** FollowHandler with GetFeedId's reply, GetUser's reply (whose error is
      discarded, leaving the zero user) and CreateFeedFollow's reply. */
  method FollowHandler(db: Db, lib: Lib, args: seq<string>, feedIdReply: Result<Uuid, DbError>,
                       userReply: Result<User, DbError>, followReply: Option<DbError>) returns (status: Status)
    modifies db
    ensures UrlGate(lib, args).Some? ==> status == Failed(UrlGate(lib, args).value) && db.follows == old(db.follows)
    ensures UrlGate(lib, args).None? && feedIdReply.Err? ==>
      status == Failed(StoreFailed(GetFeedId, feedIdReply.error)) && db.follows == old(db.follows)
    ensures UrlGate(lib, args).None? && feedIdReply.Ok? ==>
      (db.follows, status) == Followed(old(db.follows), Follow(UserOrZero(userReply).id, feedIdReply.value), followReply)
    ensures db.users == old(db.users) && db.feeds == old(db.feeds) && db.posts == old(db.posts)
  {
    if |args| == 0 {
      return Failed(NoArgument);
    }
    if |args| > 1 {
      return Failed(TooManyArguments);
    }
    if !IsValidUrl(lib.parseUrl, args[0]) {
      return Failed(InvalidUrl);
    }
    if feedIdReply.Err? {
      return Failed(StoreFailed(GetFeedId, feedIdReply.error));
    }
    var feedId := feedIdReply.value;
    var user := UserOrZero(userReply);
    var err := db.CreateFeedFollow(Follow(user.id, feedId), followReply);
    if err.Some? {
      if IsUniqueViolation(err.value) {
        return Done;
      }
      return Failed(StoreFailed(CreateFeedFollow, err.value));
    }
    return Done;
  }

  // ---------------------------------------------------------------------------
  // FeedFollowingHandler

  /** The feed names FeedFollowingHandler lists for the user GetUser gives
      (the zero user when it fails), or why it fails. */
  function FeedFollowing(args: seq<string>, userReply: Result<User, DbError>,
                         followsFor: Uuid -> Result<seq<string>, DbError>): (r: Result<seq<string>, Reason>)
    ensures |args| > 0 ==> r == Err(TakesNoArguments)
    ensures r.Ok? <==> |args| == 0 && followsFor(UserOrZero(userReply).id).Ok?
    ensures r.Ok? ==> r.value == followsFor(UserOrZero(userReply).id).value
    ensures |args| == 0 && r.Err? ==> r.error == StoreFailed(GetFeedFollowsForUser, followsFor(UserOrZero(userReply).id).error)
  {
    if |args| > 0 then Err(TakesNoArguments)
    else match followsFor(UserOrZero(userReply).id)
      case Err(e) => Err(StoreFailed(GetFeedFollowsForUser, e))
      case Ok(names) => Ok(names)
  }

  // ---------------------------------------------------------------------------
  // UnfollowFeedFollow

  /** The follows and the result after DeleteFeedFollowRow(f) answers `fault`:
      the pair removed, or the error returned with nothing removed. */
  function Unfollowed(follows: set<Follow>, f: Follow, fault: Option<DbError>): (r: (set<Follow>, Status))
    ensures r.1 == Done <==> fault.None?
    ensures fault.Some? ==> r == (follows, Failed(StoreFailed(DeleteFeedFollowRow, fault.value)))
    ensures fault.None? ==> f !in r.0 && r.0 <= follows && forall g | g in follows && g != f :: g in r.0
  {
    match fault
    case None => (follows - {f}, Done)
    case Some(e) => (follows, Failed(StoreFailed(DeleteFeedFollowRow, e)))
  }

  /** UnfollowFeedFollow with GetFeedId's reply, the current user's id (the
      function that computes it is not part of this model) and
      DeleteFeedFollowRow's fault. */
  method UnfollowFeedFollow(db: Db, lib: Lib, args: seq<string>, feedIdReply: Result<Uuid, DbError>,
                            userId: Uuid, deleteFault: Option<DbError>) returns (status: Status)
    modifies db
    ensures UrlGate(lib, args).Some? ==> status == Failed(UrlGate(lib, args).value) && db.follows == old(db.follows)
    ensures UrlGate(lib, args).None? && feedIdReply == Err(NoRows) ==>
      status == Failed(NoFeedFound) && db.follows == old(db.follows)
    ensures UrlGate(lib, args).None? && feedIdReply.Err? && feedIdReply.error != NoRows ==>
      status == Failed(StoreFailed(GetFeedId, feedIdReply.error)) && db.follows == old(db.follows)
    ensures UrlGate(lib, args).None? && feedIdReply.Ok? ==>
      (db.follows, status) == Unfollowed(old(db.follows), Follow(userId, feedIdReply.value), deleteFault)
    ensures db.users == old(db.users) && db.feeds == old(db.feeds) && db.posts == old(db.posts)
  {
    if |args| == 0 {
      return Failed(NoArgument);
    }
    if |args| > 1 {
      return Failed(TooManyArguments);
    }
    if !IsValidUrl(lib.parseUrl, args[0]) {
      return Failed(InvalidUrl);
    }
    if feedIdReply.Err? {
      if feedIdReply.error == NoRows {
        return Failed(NoFeedFound);
      }
      return Failed(StoreFailed(GetFeedId, feedIdReply.error));
    }
    var err := db.DeleteFeedFollowRow(Follow(userId, feedIdReply.value), deleteFault);
    if err.Some? {
      return Failed(StoreFailed(DeleteFeedFollowRow, err.value));
    }
    return Done;
  }

  /** Following a feed not yet followed and then unfollowing it, both store
      calls succeeding, gives back the follows there were; a duplicate follow
      followed by an unfollow removes the pair that was already there. */
  lemma FollowThenUnfollowRestores(follows: set<Follow>, f: Follow, dup: DbError)
    requires IsUniqueViolation(dup)
    ensures f !in follows ==> Unfollowed(Followed(follows, f, None).0, f, None) == (follows, Done)
    ensures Unfollowed(Followed(follows, f, Some(dup)).0, f, None) == (follows - {f}, Done)
  {
  }
}
