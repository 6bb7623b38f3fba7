/** handler_feeds.go: listing the feeds with their owners, this file's
    add-feed handler, and its print-only scrape handler. */
module Feeds {
  import opened Common
  import opened Store
  import Rss
  import Agg
  import Commands

  // ---------------------------------------------------------------------------
  // PrintFeedsHandler

  /** The index of the first feed whose owner lookup fails, or the number of
      feeds when every lookup succeeds. */
  function FirstFailedLookup(userById: Uuid -> Result<User, DbError>, feeds: seq<Feed>): (k: nat)
    ensures k <= |feeds|
    ensures forall j | 0 <= j < k :: userById(feeds[j].userId).Ok?
    ensures k < |feeds| ==> userById(feeds[k].userId).Err?
    decreases |feeds|
  {
    if feeds == [] then 0
    else if userById(feeds[0].userId).Err? then 0
    else
      var k := FirstFailedLookup(userById, feeds[1..]);
      assert forall j | 1 <= j < |feeds| :: feeds[j] == feeds[1..][j - 1];
      k + 1
  }

  /** PrintFeedsHandler with GetFeeds' reply and GetUserById's answers. It
      returns the feeds printed, each with its owner, and the number of
      GetUserById calls made. */
  method PrintFeedsHandler(args: seq<string>, feedsReply: Result<seq<Feed>, DbError>,
                           userById: Uuid -> Result<User, DbError>)
    returns (status: Status, printed: seq<(Feed, User)>, lookups: nat)
    ensures |args| > 0 ==> status == Failed(TakesNoArguments) && lookups == 0 && printed == []
    ensures |args| == 0 && feedsReply.Err? ==>
      status == Failed(StoreFailed(GetFeeds, feedsReply.error)) && lookups == 0 && printed == []
    ensures |args| == 0 && feedsReply.Ok? ==>
      var feeds := feedsReply.value;
      var k := FirstFailedLookup(userById, feeds);
      && |printed| == k
      && (forall i | 0 <= i < k :: printed[i] == (feeds[i], userById(feeds[i].userId).value))
      && (k == |feeds| ==> status == Done && lookups == |feeds|)
      && (k < |feeds| ==>
            status == Failed(StoreFailed(GetUserById, userById(feeds[k].userId).error)) && lookups == k + 1)
  {
    printed, lookups := [], 0;
    if |args| > 0 {
      return Failed(TakesNoArguments), printed, lookups;
    }
    if feedsReply.Err? {
      return Failed(StoreFailed(GetFeeds, feedsReply.error)), printed, lookups;
    }
    var feeds := feedsReply.value;
    if |feeds| == 0 {
      return Done, printed, lookups;
    }
    for i := 0 to |feeds|
      invariant lookups == i == |printed|
      invariant forall j | 0 <= j < i :: userById(feeds[j].userId).Ok?
      invariant forall j | 0 <= j < i :: printed[j] == (feeds[j], userById(feeds[j].userId).value)
      invariant FirstFailedLookup(userById, feeds) >= i
    {
      var user := userById(feeds[i].userId);
      lookups := lookups + 1;
      if user.Err? {
        return Failed(StoreFailed(GetUserById, user.error)), printed, lookups;
      }
      printed := printed + [(feeds[i], user.value)];
    }
    return Done, printed, lookups;
  }

  // ---------------------------------------------------------------------------
  // AddFeedHandler (this file's version)

  /** The checks this AddFeedHandler makes, in its order: no argument, more
      than 2, a blank name, fewer than 2, a bad URL. */
  function AddFeedGate(lib: Lib, args: seq<string>): (r: Option<Reason>)
    ensures r.None? <==> |args| == 2 && !Blank(args[0]) && IsValidUrl(lib.parseUrl, args[1])
    ensures |args| == 0 ==> r == Some(NoArgument)
    ensures |args| > 2 ==> r == Some(TooManyArguments)
    ensures 1 <= |args| <= 2 && Blank(args[0]) ==> r == Some(BlankFeedName)
    ensures |args| == 1 && !Blank(args[0]) ==> r == Some(TooFewArguments)
    ensures |args| == 2 && !Blank(args[0]) && !IsValidUrl(lib.parseUrl, args[1]) ==> r == Some(InvalidUrl)
  {
    if |args| == 0 then Some(NoArgument)
    else if |args| > 2 then Some(TooManyArguments)
    else if Blank(args[0]) then Some(BlankFeedName)
    else if |args| < 2 then Some(TooFewArguments)
    else if !IsValidUrl(lib.parseUrl, args[1]) then Some(InvalidUrl)
    else None
  }

  /** When some user exists, the two AddFeedHandler versions accept the same
      argument lists; they differ only in which error they report. */
  lemma AddFeedGatesAcceptAlike(lib: Lib, users: seq<User>, args: seq<string>)
    requires |users| > 0
    ensures AddFeedGate(lib, args).None? <==> Commands.AddFeedGate(lib, users, args).None?
  {
  }

  /** One blank argument: commands.go reports too few arguments, this version
      a blank feed name. */
  lemma AddFeedGatesDifferOnOneBlankArgument(lib: Lib, users: seq<User>, name: string)
    requires |users| > 0 && Blank(name)
    ensures Commands.AddFeedGate(lib, users, [name]) == Some(TooFewArguments)
    ensures AddFeedGate(lib, [name]) == Some(BlankFeedName)
  {
  }

  /** AddFeedHandler with GetUser's reply (whose error is discarded, leaving
      the zero user), the new feed's id (uuid.New), the clock reading and the
      store's replies. The user the middleware passes in is overwritten before
      use, so it is not a parameter here. */
  method AddFeedHandler(db: Db, lib: Lib, args: seq<string>, userReply: Result<User, DbError>,
                        newId: Uuid, now: Instant, createReply: Option<DbError>, followReply: Option<DbError>)
    returns (status: Status)
    modifies db
    ensures AddFeedGate(lib, args).Some? ==>
      status == Failed(AddFeedGate(lib, args).value)
      && db.feeds == old(db.feeds) && db.follows == old(db.follows)
    ensures AddFeedGate(lib, args).None? ==>
      var f := Feed(newId, args[0], args[1], UserOrZero(userReply).id, Some(now));
      && (createReply.Some? ==>
            status == Failed(StoreFailed(CreateFeed, createReply.value))
            && db.feeds == old(db.feeds) && db.follows == old(db.follows))
      && (createReply.None? ==>
            && db.feeds == old(db.feeds)[newId := f]
            && (followReply.None? ==> status == Done && db.follows == old(db.follows) + {Follow(f.userId, f.id)})
            && (followReply.Some? ==>
                  status == Failed(StoreFailed(CreateFeedFollow, followReply.value)) && db.follows == old(db.follows)))
    ensures db.users == old(db.users) && db.posts == old(db.posts)
  {
    if |args| == 0 {
      return Failed(NoArgument);
    }
    if |args| > 2 {
      return Failed(TooManyArguments);
    }
    if Blank(args[0]) {
      return Failed(BlankFeedName);
    }
    if |args| < 2 {
      return Failed(TooFewArguments);
    }
    if !IsValidUrl(lib.parseUrl, args[1]) {
      return Failed(InvalidUrl);
    }
    var user := UserOrZero(userReply);
    var feed := Feed(newId, args[0], args[1], user.id, Some(now));
    var err := db.CreateFeed(feed, createReply);
    if err.Some? {
      return Failed(StoreFailed(CreateFeed, err.value));
    }
    err := db.CreateFeedFollow(Follow(feed.userId, feed.id), followReply);
    if err.Some? {
      return Failed(StoreFailed(CreateFeedFollow, err.value));
    }
    return Done;
  }

  // ---------------------------------------------------------------------------
  // ScrapeFeedsHander (this file's print-only version)

  /** The item titles of a document, in order. */
  function Titles(items: seq<Rss.RssItem>): (r: seq<string>)
    ensures |r| == |items| && forall i | 0 <= i < |items| :: r[i] == items[i].title
  {
    seq(|items|, i requires 0 <= i < |items| => items[i].title)
  }

  /** This version takes no argument, then runs the same three stages as the
      ingestion cycle with the same effect on the feeds and the same errors,
      but creates no post: it only lists the fetched item titles. */
  method ScrapeFeedsHander(db: Db, lib: Lib, args: seq<string>, t: Agg.Tick) returns (status: Status, titles: seq<string>)
    modifies db
    ensures |args| != 0 ==> status == Failed(TakesNoArguments) && titles == [] && db.feeds == old(db.feeds)
    ensures |args| == 0 ==>
      var a := Agg.Cycle(lib, old(db.feeds), old(db.posts), t);
      && db.feeds == a.feeds
      && (status.Failed? <==> a.outcome.CycleFailed?)
      && (status.Failed? ==> status.reason == a.outcome.reason && titles == [])
      && (status == Done ==> titles == Titles(Rss.Fetched(lib, t.next.value.url, t.exchange).value.items))
    ensures db.users == old(db.users) && db.follows == old(db.follows) && db.posts == old(db.posts)
  {
    titles := [];
    if |args| != 0 {
      return Failed(TakesNoArguments), titles;
    }
    if t.next.Err? {
      return Failed(StoreFailed(GetNextFeedToFetch, t.next.error)), titles;
    }
    var nextFeed := t.next.value;
    var err := db.MarkFeedFetched(nextFeed.id, t.now, t.markFault);
    if err.Some? {
      return Failed(StoreFailed(MarkFeedFetched, err.value)), titles;
    }
    var feedData := Rss.FetchFeed(lib, nextFeed.url, t.exchange);
    if feedData.Err? {
      return Failed(FetchFailed(feedData.error)), titles;
    }
    var items := feedData.value.items;
    for i := 0 to |items|
      invariant titles == Titles(items[..i])
    {
      titles := titles + [items[i].title];
    }
    assert items[..|items|] == items;
    return Done, titles;
  }
}
