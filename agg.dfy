/** handler_agg.go: the aggregation command (argument and duration gate, then
    one ingestion cycle per tick), the ingestion cycle itself, the browse
    command and its digit test. */
module Agg {
  import opened Common
  import opened Store
  import Rss

  // ---------------------------------------------------------------------------
  // AggHandler's argument gate

  /** The polling interval AggHandler accepts, or why it refuses to start. */
  function Interval(lib: Lib, args: seq<string>): (r: Result<Duration, Reason>)
    ensures r.Ok? <==> |args| == 1 && lib.parseDuration(args[0]).Some?
    ensures r.Ok? ==> r.value == lib.parseDuration(args[0]).value
    ensures |args| == 0 ==> r == Err(NoArgument)
    ensures |args| > 1 ==> r == Err(TooManyArguments)
    ensures |args| == 1 && lib.parseDuration(args[0]).None? ==> r == Err(InvalidDuration)
  {
    if |args| == 0 then Err(NoArgument)
    else if |args| > 1 then Err(TooManyArguments)
    else match lib.parseDuration(args[0])
      case None => Err(InvalidDuration)
      case Some(d) => Ok(d)
  }

  // ---------------------------------------------------------------------------
  // The item walk of one cycle, as a specification

  /** What the item walk of one cycle works with: the feed being ingested, the
      clock reading, the title test (the handler's `Blank`), the date parser
      and the store's answers to CreatePost. */
  datatype Walk = Walk(
    feedId: Uuid,
    now: Instant,
    blank: string -> bool,
    parseDate: string -> Option<Instant>,
    policy: PostPolicy)

  /** The walk's state after some items: the two counters, the store's posts,
      the posts submitted so far, and whether a date failed to parse (panic). */
  datatype Progress = Progress(saved: nat, skipped: nat, posts: map<string, Post>, submitted: seq<Post>, panicked: bool)

  /** The post built from an item whose date parsed to `published`. */
  function PostOf(w: Walk, it: Rss.RssItem, published: Instant): (p: Post)
    ensures w.parseDate(it.pubDate) == Some(published) ==> Carries(w, p, it)
    ensures p.createdAt == w.now
  {
    Post(w.feedId, it.title, it.link, it.description, published, w.now)
  }

  /** One iteration of the item loop. */
  function Step(w: Walk, pr: Progress, it: Rss.RssItem): (r: Progress)
    ensures pr.panicked ==> r == pr
    ensures r.saved + r.skipped <= pr.saved + pr.skipped + 1
    ensures pr.posts.Keys <= r.posts.Keys
    ensures |pr.submitted| <= |r.submitted| <= |pr.submitted| + 1 && r.submitted[..|pr.submitted|] == pr.submitted
  {
    if pr.panicked then pr
    else if w.blank(it.title) then pr.(skipped := pr.skipped + 1)
    else match w.parseDate(it.pubDate)
      case None => pr.(panicked := true)
      case Some(t) =>
        var p := PostOf(w, it, t);
        var reply := w.policy(pr.posts, p);
        if reply.None? then
          pr.(saved := pr.saved + 1, posts := pr.posts[p.url := p], submitted := pr.submitted + [p])
        else if IsUniqueViolation(reply.value) then
          pr.(skipped := pr.skipped + 1, submitted := pr.submitted + [p])
        else
          pr.(submitted := pr.submitted + [p])
  }

  /** The item loop over `items`, in document order, from a store holding `posts`. */
  function Ingest(w: Walk, posts: map<string, Post>, items: seq<Rss.RssItem>): (r: Progress)
    ensures |r.submitted| <= |items|
    decreases |items|
  {
    if items == [] then Progress(0, 0, posts, [], false)
    else Step(w, Ingest(w, posts, items[..|items| - 1]), items[|items| - 1])
  }

  /** How many items have a blank title. */
  function BlankCount(blank: string -> bool, items: seq<Rss.RssItem>): (n: nat)
    ensures n <= |items|
    ensures n == 0 <==> forall k | 0 <= k < |items| :: !blank(items[k].title)
    decreases |items|
  {
    if items == [] then 0
    else BlankCount(blank, items[..|items| - 1]) + (if blank(items[|items| - 1].title) then 1 else 0)
  }

  /** The items whose title is not blank, in document order. */
  function Titled(blank: string -> bool, items: seq<Rss.RssItem>): (r: seq<Rss.RssItem>)
    ensures |r| == |items| - BlankCount(blank, items)
    ensures forall k | 0 <= k < |r| :: !blank(r[k].title)
    ensures forall x | x in r :: x in items
    ensures forall k | 0 <= k < |items| && !blank(items[k].title) :: items[k] in r
    decreases |items|
  {
    if items == [] then []
    else Titled(blank, items[..|items| - 1]) + (if blank(items[|items| - 1].title) then [] else [items[|items| - 1]])
  }

  /** Post `p` is the one built from item `it` in walk `w`. */
  ghost predicate Carries(w: Walk, p: Post, it: Rss.RssItem) {
    && p.feedId == w.feedId && p.title == it.title && p.url == it.link
    && p.description == it.description && w.parseDate(it.pubDate) == Some(p.publishedAt)
  }

  /** Once the walk has panicked, the remaining items change nothing. */
  lemma {:induction false} IngestAfterPanic(w: Walk, posts: map<string, Post>, items: seq<Rss.RssItem>, n: nat)
    requires n <= |items| && Ingest(w, posts, items[..n]).panicked
    ensures Ingest(w, posts, items) == Ingest(w, posts, items[..n])
    decreases |items|
  {
    if n < |items| {
      var prefix := items[..|items| - 1];
      assert prefix[..n] == items[..n];
      IngestAfterPanic(w, posts, prefix, n);
    } else {
      assert items[..n] == items;
    }
  }

  /** Every titled item is submitted, in order, whatever the store answered for
      the items before it: no per-item store failure stops the loop. The post
      carries the item's title, link and description and the feed's id. The
      loop stops early only at the first titled item whose date does not parse. */
  lemma {:induction false} SubmittedFollowTitledItems(w: Walk, posts: map<string, Post>, items: seq<Rss.RssItem>)
    ensures var r := Ingest(w, posts, items);
      && |r.submitted| <= |Titled(w.blank, items)|
      && (!r.panicked ==> |r.submitted| == |Titled(w.blank, items)|)
      && (r.panicked ==> |r.submitted| < |Titled(w.blank, items)| && w.parseDate(Titled(w.blank, items)[|r.submitted|].pubDate).None?)
      && forall k | 0 <= k < |r.submitted| :: Carries(w, r.submitted[k], Titled(w.blank, items)[k])
    decreases |items|
  {
    if items != [] {
      var prefix, last := items[..|items| - 1], items[|items| - 1];
      SubmittedFollowTitledItems(w, posts, prefix);
      var prev := Ingest(w, posts, prefix);
      var before := Titled(w.blank, prefix);
      assert Titled(w.blank, items) == before + (if w.blank(last.title) then [] else [last]);
      if !prev.panicked && !w.blank(last.title) && w.parseDate(last.pubDate).Some? {
        var r := Ingest(w, posts, items);
        assert r.submitted == prev.submitted + [PostOf(w, last, w.parseDate(last.pubDate).value)];
      }
    }
  }

  /** A pubDate that does not parse aborts the walk: the loop panics exactly
      when some titled item's date does not parse. */
  lemma PanicsIffUnparsableDate(w: Walk, posts: map<string, Post>, items: seq<Rss.RssItem>)
    ensures Ingest(w, posts, items).panicked <==>
      exists k | 0 <= k < |Titled(w.blank, items)| :: w.parseDate(Titled(w.blank, items)[k].pubDate).None?
  {
    SubmittedFollowTitledItems(w, posts, items);
    var r := Ingest(w, posts, items);
    if !r.panicked {
      forall k | 0 <= k < |Titled(w.blank, items)| ensures w.parseDate(Titled(w.blank, items)[k].pubDate).Some? {
        assert Carries(w, r.submitted[k], Titled(w.blank, items)[k]);
      }
    }
  }

  /** The counters: each item adds at most one to `saved + skipped`; every
      blank-titled item is counted as skipped; only submitted posts are saved. */
  lemma {:induction false} IngestCounts(w: Walk, posts: map<string, Post>, items: seq<Rss.RssItem>)
    ensures var r := Ingest(w, posts, items);
      && r.saved + r.skipped <= |items|
      && r.saved <= |r.submitted|
      && (!r.panicked ==> r.skipped >= |items| - |Titled(w.blank, items)|)
    decreases |items|
  {
    if items != [] {
      IngestCounts(w, posts, items[..|items| - 1]);
    }
  }

  /** One titled item whose date parses meets one of three CreatePost
      outcomes: a save adds one to `saved` and stores the post, a duplicate
      adds one to `skipped`, and any other error changes neither counter nor
      the store. The post is submitted in all three cases. */
  lemma StepOutcomes(w: Walk, pr: Progress, it: Rss.RssItem, t: Instant)
    requires !pr.panicked && !w.blank(it.title) && w.parseDate(it.pubDate) == Some(t)
    ensures var p := PostOf(w, it, t);
      var reply := w.policy(pr.posts, p);
      var r := Step(w, pr, it);
      && r.submitted == pr.submitted + [p] && !r.panicked
      && (reply.None? ==> r.saved == pr.saved + 1 && r.skipped == pr.skipped && r.posts == pr.posts[p.url := p])
      && (reply.Some? && IsUniqueViolation(reply.value) ==>
            r.saved == pr.saved && r.skipped == pr.skipped + 1 && r.posts == pr.posts)
      && (reply.Some? && !IsUniqueViolation(reply.value) ==>
            r.saved == pr.saved && r.skipped == pr.skipped && r.posts == pr.posts)
  {
  }

  /** The store refuses every post with an error other than a duplicate. */
  ghost predicate FailsEveryPost(policy: PostPolicy) {
    forall posts: map<string, Post>, p: Post ::
      policy(posts, p).Some? && !IsUniqueViolation(policy(posts, p).value)
  }

  /** When every CreatePost fails with an error that is not a duplicate, the
      loop goes on but saves nothing, leaves the store alone, and skips only
      the blank-titled items. */
  lemma {:induction false} FailingStoreSavesNothing(w: Walk, posts: map<string, Post>, items: seq<Rss.RssItem>)
    requires FailsEveryPost(w.policy)
    ensures var r := Ingest(w, posts, items);
      && r.saved == 0 && r.posts == posts
      && (!r.panicked ==> r.skipped == BlankCount(w.blank, items))
    decreases |items|
  {
    if items != [] {
      FailingStoreSavesNothing(w, posts, items[..|items| - 1]);
    }
  }

  /** The walk never removes a stored url. */
  lemma {:induction false} IngestKeepsUrls(w: Walk, posts: map<string, Post>, items: seq<Rss.RssItem>)
    ensures posts.Keys <= Ingest(w, posts, items).posts.Keys
    decreases |items|
  {
    if items != [] {
      IngestKeepsUrls(w, posts, items[..|items| - 1]);
    }
  }

  /** With a store that rejects exactly the urls it holds, every saved post is a
      new url, stored posts are never overwritten, and every submitted url is
      held afterwards. */
  lemma {:induction false} IngestAgainstExactStore(w: Walk, posts: map<string, Post>, items: seq<Rss.RssItem>)
    requires RejectsExactlyHeld(w.policy)
    ensures var r := Ingest(w, posts, items);
      && |r.posts| == |posts| + r.saved
      && (forall u | u in posts :: u in r.posts && r.posts[u] == posts[u])
      && (forall k | 0 <= k < |r.submitted| :: r.submitted[k].url in r.posts)
    decreases |items|
  {
    if items != [] {
      IngestAgainstExactStore(w, posts, items[..|items| - 1]);
    }
  }

  /** When the store already holds every titled item's link and every date
      parses, the walk saves nothing, skips every item and leaves the store alone. */
  lemma {:induction false} HeldItemsAreSkipped(w: Walk, posts: map<string, Post>, items: seq<Rss.RssItem>)
    requires RejectsExactlyHeld(w.policy)
    requires forall k | 0 <= k < |Titled(w.blank, items)| ::
      Titled(w.blank, items)[k].link in posts && w.parseDate(Titled(w.blank, items)[k].pubDate).Some?
    ensures var r := Ingest(w, posts, items);
      r.saved == 0 && r.skipped == |items| && r.posts == posts && !r.panicked
    decreases |items|
  {
    if items != [] {
      var prefix, last := items[..|items| - 1], items[|items| - 1];
      var before := Titled(w.blank, prefix);
      assert Titled(w.blank, items) == before + (if w.blank(last.title) then [] else [last]);
      assert forall k | 0 <= k < |before| :: before[k] == Titled(w.blank, items)[k];
      HeldItemsAreSkipped(w, posts, prefix);
      if !w.blank(last.title) {
        assert last == Titled(w.blank, items)[|Titled(w.blank, prefix)|];
      }
    }
  }

  /** Re-running the same item list against a store that rejects exactly the
      urls it holds adds nothing to `saved`: every item is skipped, as a blank
      title or as a duplicate. The second run may use another clock reading and
      store (with the same behaviour) but the same title test and date parser. */
  lemma RerunSavesNothing(w: Walk, w2: Walk, posts: map<string, Post>, items: seq<Rss.RssItem>)
    requires RejectsExactlyHeld(w.policy) && RejectsExactlyHeld(w2.policy) && w2.parseDate == w.parseDate
    requires w2.blank == w.blank
    requires !Ingest(w, posts, items).panicked
    ensures var r1 := Ingest(w, posts, items);
      var r2 := Ingest(w2, r1.posts, items);
      r2.saved == 0 && r2.skipped == |items| && r2.posts == r1.posts && !r2.panicked
  {
    var r1 := Ingest(w, posts, items);
    SubmittedFollowTitledItems(w, posts, items);
    IngestAgainstExactStore(w, posts, items);
    forall k | 0 <= k < |Titled(w.blank, items)|
      ensures Titled(w.blank, items)[k].link in r1.posts && w2.parseDate(Titled(w.blank, items)[k].pubDate).Some?
    {
      assert Carries(w, r1.submitted[k], Titled(w.blank, items)[k]);
    }
    HeldItemsAreSkipped(w2, r1.posts, items);
  }

  // ---------------------------------------------------------------------------
  // One ingestion cycle (ScrapeFeedsHander), as a specification

  /** What one tick sees: the store's choice of next feed (its SQL is not
      shown), the store's answer to MarkFeedFetched, the clock, the network
      exchange and the store's answers to CreatePost. */
  datatype Tick = Tick(
    next: Result<Feed, DbError>,
    markFault: Option<DbError>,
    now: Instant,
    exchange: Rss.Exchange,
    policy: PostPolicy)

  /** How a cycle ends: with an error, after walking every item, or in a panic. */
  datatype Outcome = CycleFailed(reason: Reason) | Ingested(saved: nat, skipped: nat) | Panicked

  datatype After = After(outcome: Outcome, feeds: map<Uuid, Feed>, posts: map<string, Post>)

  function WalkOf(lib: Lib, f: Feed, t: Tick): Walk {
    Walk(f.id, t.now, Blank, lib.parseRfc1123z, t.policy)
  }

  /** One cycle: next feed, then mark it fetched, then fetch it, then walk its items. */
  function Cycle(lib: Lib, feeds: map<Uuid, Feed>, posts: map<string, Post>, t: Tick): (a: After)
    ensures a.feeds.Keys == feeds.Keys
    ensures a.outcome.CycleFailed? ==> a.posts == posts
  {
    match t.next
    case Err(e) => After(CycleFailed(StoreFailed(GetNextFeedToFetch, e)), feeds, posts)
    case Ok(f) =>
      if t.markFault.Some? then After(CycleFailed(StoreFailed(MarkFeedFetched, t.markFault.value)), feeds, posts)
      else
        var marked := Marked(feeds, f.id, t.now);
        match Rss.Fetched(lib, f.url, t.exchange)
        case Err(e) => After(CycleFailed(FetchFailed(e)), marked, posts)
        case Ok(doc) =>
          var r := Ingest(WalkOf(lib, f, t), posts, doc.items);
          After(if r.panicked then Panicked else Ingested(r.saved, r.skipped), marked, r.posts)
  }

  /** The stages run in order and a failed stage skips the later ones: without
      a next feed nothing is marked or fetched, and what the mark and the
      network would have done does not matter; a failed mark leaves the feeds
      alone and nothing is fetched; a failed fetch happens after the mark. No
      failed stage creates a post. */
  lemma StagesRunInOrder(lib: Lib, feeds: map<Uuid, Feed>, posts: map<string, Post>, t: Tick,
                         otherMark: Option<DbError>, otherExchange: Rss.Exchange)
    ensures var a := Cycle(lib, feeds, posts, t);
      && (t.next.Err? ==>
            a == After(CycleFailed(StoreFailed(GetNextFeedToFetch, t.next.error)), feeds, posts)
            && a == Cycle(lib, feeds, posts, t.(markFault := otherMark, exchange := otherExchange)))
      && (t.next.Ok? && t.markFault.Some? ==>
            a == After(CycleFailed(StoreFailed(MarkFeedFetched, t.markFault.value)), feeds, posts)
            && a == Cycle(lib, feeds, posts, t.(exchange := otherExchange)))
      && (t.next.Ok? && t.markFault.None? ==>
            a.feeds == Marked(feeds, t.next.value.id, t.now))
      && (a.outcome.CycleFailed? ==> a.posts == posts)
  {
  }

  /** A cycle never loses a stored url, and counts within the number of items fetched. */
  lemma CycleCounts(lib: Lib, feeds: map<Uuid, Feed>, posts: map<string, Post>, t: Tick)
    ensures var a := Cycle(lib, feeds, posts, t);
      && posts.Keys <= a.posts.Keys
      && (a.outcome.Ingested? ==>
            var items := Rss.Fetched(lib, t.next.value.url, t.exchange).value.items;
            a.outcome.saved + a.outcome.skipped <= |items|
            && a.outcome.skipped >= |items| - |Titled(Blank, items)|)
  {
    if t.next.Ok? && t.markFault.None? && Rss.Fetched(lib, t.next.value.url, t.exchange).Ok? {
      var items := Rss.Fetched(lib, t.next.value.url, t.exchange).value.items;
      IngestCounts(WalkOf(lib, t.next.value, t), posts, items);
      IngestKeepsUrls(WalkOf(lib, t.next.value, t), posts, items);
    }
  }

  /** Two ticks that fetch the same feed and get the same document from a store
      that rejects exactly the urls it holds: the second cycle saves nothing and
      counts every item as skipped. */
  lemma SecondCycleSavesNothing(lib: Lib, feeds: map<Uuid, Feed>, posts: map<string, Post>, t1: Tick, t2: Tick)
    requires RejectsExactlyHeld(t1.policy) && RejectsExactlyHeld(t2.policy)
    requires t2.next == t1.next && t2.exchange == t1.exchange && t2.markFault.None?
    requires Cycle(lib, feeds, posts, t1).outcome.Ingested?
    ensures var a1 := Cycle(lib, feeds, posts, t1);
      var a2 := Cycle(lib, a1.feeds, a1.posts, t2);
      && a2.outcome == Ingested(0, |Rss.Fetched(lib, t1.next.value.url, t1.exchange).value.items|)
      && a2.posts == a1.posts
  {
    var f := t1.next.value;
    var items := Rss.Fetched(lib, f.url, t1.exchange).value.items;
    RerunSavesNothing(WalkOf(lib, f, t1), WalkOf(lib, f, t2), posts, items);
  }

  // ---------------------------------------------------------------------------
  // The cycle as the handler runs it

  /** The handler's loop over the fetched items, against the store: the result
      and the new posts are the walk's, and nothing else in the store changes. */
  method SaveItems(db: Db, w: Walk, items: seq<Rss.RssItem>) returns (o: Outcome)
    modifies db
    ensures var r := Ingest(w, old(db.posts), items);
      && o == (if r.panicked then Panicked else Ingested(r.saved, r.skipped))
      && db.posts == r.posts
    ensures db.users == old(db.users) && db.feeds == old(db.feeds) && db.follows == old(db.follows)
  {
    ghost var posts0 := db.posts;
    ghost var submitted: seq<Post> := [];
    var saved, skipped := 0, 0;
    for i := 0 to |items|
      invariant Ingest(w, posts0, items[..i]) == Progress(saved, skipped, db.posts, submitted, false)
      invariant db.users == old(db.users) && db.feeds == old(db.feeds) && db.follows == old(db.follows)
    {
      var feedItem := items[i];
      assert items[..i + 1][..i] == items[..i];
      if w.blank(feedItem.title) {
        skipped := skipped + 1;
      } else {
        var publicationTime := w.parseDate(feedItem.pubDate);
        if publicationTime.None? {
          IngestAfterPanic(w, posts0, items, i + 1);
          return Panicked;
        }
        var p := Post(w.feedId, feedItem.title, feedItem.link, feedItem.description, publicationTime.value, w.now);
        var reply := db.CreatePost(p, w.policy);
        if reply.Some? {
          if IsUniqueViolation(reply.value) {
            skipped := skipped + 1;
          }
        } else {
          saved := saved + 1;
        }
        submitted := submitted + [p];
      }
    }
    assert items[..|items|] == items;
    return Ingested(saved, skipped);
  }

  method ScrapeFeedsHander(db: Db, lib: Lib, t: Tick) returns (o: Outcome)
    modifies db
    ensures After(o, db.feeds, db.posts) == Cycle(lib, old(db.feeds), old(db.posts), t)
    ensures db.users == old(db.users) && db.follows == old(db.follows)
  {
    if t.next.Err? {
      return CycleFailed(StoreFailed(GetNextFeedToFetch, t.next.error));
    }
    var nextFeed := t.next.value;
    var err := db.MarkFeedFetched(nextFeed.id, t.now, t.markFault);
    if err.Some? {
      return CycleFailed(StoreFailed(MarkFeedFetched, err.value));
    }
    var feedData := Rss.FetchFeed(lib, nextFeed.url, t.exchange);
    if feedData.Err? {
      return CycleFailed(FetchFailed(feedData.error));
    }
    o := SaveItems(db, WalkOf(lib, nextFeed, t), feedData.value.items);
  }

  // ---------------------------------------------------------------------------
  // The ticker loop

  /** After some ticks: how many cycles ran, whether one panicked (which ends
      the process), and the store's feeds and posts. */
  datatype Ticking = Ticking(cycles: nat, crashed: bool, feeds: map<Uuid, Feed>, posts: map<string, Post>)

  /** One cycle per tick, each cycle's error discarded, until a cycle panics. */
  function Ticked(lib: Lib, feeds: map<Uuid, Feed>, posts: map<string, Post>, ticks: seq<Tick>): (r: Ticking)
    ensures r.feeds.Keys == feeds.Keys
    decreases |ticks|
  {
    if ticks == [] then Ticking(0, false, feeds, posts)
    else
      var prev := Ticked(lib, feeds, posts, ticks[..|ticks| - 1]);
      if prev.crashed then prev
      else
        var a := Cycle(lib, prev.feeds, prev.posts, ticks[|ticks| - 1]);
        Ticking(prev.cycles + 1, a.outcome.Panicked?, a.feeds, a.posts)
  }

  /** Every tick runs exactly one cycle, and a cycle that returns an error never
      ends the loop: only a panic stops it early, at the cycle that panicked. */
  lemma {:induction false} EveryTickRunsOneCycle(lib: Lib, feeds: map<Uuid, Feed>, posts: map<string, Post>, ticks: seq<Tick>)
    ensures var r := Ticked(lib, feeds, posts, ticks);
      && r.cycles <= |ticks|
      && (!r.crashed ==> r.cycles == |ticks|)
      && (r.crashed ==> 1 <= r.cycles && Ticked(lib, feeds, posts, ticks[..r.cycles - 1]).crashed == false)
      && (r.crashed ==>
            var p := Ticked(lib, feeds, posts, ticks[..r.cycles - 1]);
            Cycle(lib, p.feeds, p.posts, ticks[r.cycles - 1]).outcome.Panicked?)
    decreases |ticks|
  {
    if ticks != [] {
      var prefix := ticks[..|ticks| - 1];
      EveryTickRunsOneCycle(lib, feeds, posts, prefix);
      var prev := Ticked(lib, feeds, posts, prefix);
      if prev.crashed {
        assert prefix[..prev.cycles - 1] == ticks[..prev.cycles - 1];
        assert prefix[prev.cycles - 1] == ticks[prev.cycles - 1];
      } else {
        assert ticks[..|ticks| - 1] == prefix;
      }
    }
  }

  /** Once a cycle has panicked, later ticks change nothing. */
  lemma {:induction false} TickedAfterCrash(lib: Lib, feeds: map<Uuid, Feed>, posts: map<string, Post>, ticks: seq<Tick>, n: nat)
    requires n <= |ticks| && Ticked(lib, feeds, posts, ticks[..n]).crashed
    ensures Ticked(lib, feeds, posts, ticks) == Ticked(lib, feeds, posts, ticks[..n])
    decreases |ticks|
  {
    if n < |ticks| {
      var prefix := ticks[..|ticks| - 1];
      assert prefix[..n] == ticks[..n];
      TickedAfterCrash(lib, feeds, posts, prefix, n);
    } else {
      assert ticks[..n] == ticks;
    }
  }

  /** How AggHandler ends: refused before the loop, a panic from NewTicker on a
      non-positive interval, a panic from a cycle, or still running when the
      process is stopped after the given ticks. */
  datatype AggRun = Refused(reason: Reason) | TickerPanicked | Crashed(cycles: nat) | Stopped(cycles: nat)

  /** AggHandler with the ticks that fire before the process is stopped. */
  method AggHandler(db: Db, lib: Lib, args: seq<string>, ticks: seq<Tick>) returns (r: AggRun)
    modifies db
    ensures Interval(lib, args).Err? ==>
      r == Refused(Interval(lib, args).error) && db.feeds == old(db.feeds) && db.posts == old(db.posts)
    ensures Interval(lib, args).Ok? && Interval(lib, args).value <= 0 ==>
      r == TickerPanicked && db.feeds == old(db.feeds) && db.posts == old(db.posts)
    ensures Interval(lib, args).Ok? && Interval(lib, args).value > 0 ==>
      var run := Ticked(lib, old(db.feeds), old(db.posts), ticks);
      && r == (if run.crashed then Crashed(run.cycles) else Stopped(run.cycles))
      && db.feeds == run.feeds && db.posts == run.posts
    ensures db.users == old(db.users) && db.follows == old(db.follows)
  {
    if |args| == 0 {
      return Refused(NoArgument);
    }
    if |args| > 1 {
      return Refused(TooManyArguments);
    }
    var timeBetweenRequests := lib.parseDuration(args[0]);
    if timeBetweenRequests.None? {
      return Refused(InvalidDuration);
    }
    if timeBetweenRequests.value <= 0 {
      return TickerPanicked;
    }
    for i := 0 to |ticks|
      invariant Ticked(lib, old(db.feeds), old(db.posts), ticks[..i]) == Ticking(i, false, db.feeds, db.posts)
      invariant db.users == old(db.users) && db.follows == old(db.follows)
    {
      assert ticks[..i + 1][..i] == ticks[..i];
      var o := ScrapeFeedsHander(db, lib, ticks[i]);
      if o.Panicked? {
        TickedAfterCrash(lib, old(db.feeds), old(db.posts), ticks, i + 1);
        return Crashed(i + 1);
      }
    }
    assert ticks[..|ticks|] == ticks;
    return Stopped(|ticks|);
  }

  // ---------------------------------------------------------------------------
  // containsOnlyNumericDigits and the browse limit

  /** Every rune of `s` is a digit by the given digit test. */
  predicate AllDigits(isDigit: char -> bool, s: string) {
    forall i | 0 <= i < |s| :: isDigit(s[i])
  }

  /** containsOnlyNumericDigits, with unicode.IsDigit as `isDigit`: the first
      non-digit stops the scan. */
  method ContainsOnlyNumericDigits(isDigit: char -> bool, numericStr: string) returns (b: bool)
    ensures b <==> forall i | 0 <= i < |numericStr| :: isDigit(numericStr[i])
    ensures numericStr == "" ==> b
  {
    for i := 0 to |numericStr|
      invariant forall k | 0 <= k < i :: isDigit(numericStr[k])
    {
      if !isDigit(numericStr[i]) {
        return false;
      }
    }
    return true;
  }

  /** The value of a non-empty run of ASCII digits. */
  function DecimalValue(s: string): (r: nat)
    requires forall i | 0 <= i < |s| :: '0' <= s[i] <= '9'
    ensures s != [] ==> r <= Power10(|s|) - 1
    decreases |s|
  {
    if s == [] then 0
    else DecimalValue(s[..|s| - 1]) * 10 + (s[|s| - 1] as int - '0' as int)
  }

  function Power10(n: nat): (r: nat)
    ensures r >= 1
  {
    if n == 0 then 1 else 10 * Power10(n - 1)
  }

  const MinInt64 := -0x8000_0000_0000_0000
  const MaxInt64 := 0x7FFF_FFFF_FFFF_FFFF

  predicate IsAsciiDigits(s: string) {
    s != [] && forall i | 0 <= i < |s| :: '0' <= s[i] <= '9'
  }

  /** strconv.Atoi on a 64-bit platform: an optional sign and at least one
      ASCII digit, whose value must fit in an int64; None is the error. */
  function Atoi(s: string): (r: Option<int>)
    ensures r.Some? ==> MinInt64 <= r.value <= MaxInt64
    ensures r.Some? ==> IsAsciiDigits(s) || (|s| >= 2 && (s[0] == '+' || s[0] == '-') && IsAsciiDigits(s[1..]))
    ensures IsAsciiDigits(s) ==> r == if DecimalValue(s) <= MaxInt64 then Some(DecimalValue(s)) else None
    ensures |s| >= 2 && s[0] == '+' && IsAsciiDigits(s[1..]) ==>
      r == if DecimalValue(s[1..]) <= MaxInt64 then Some(DecimalValue(s[1..])) else None
    ensures |s| >= 2 && s[0] == '-' && IsAsciiDigits(s[1..]) ==>
      r == if DecimalValue(s[1..]) <= -MinInt64 then Some(-(DecimalValue(s[1..]) as int)) else None
  {
    if s != [] && (s[0] == '+' || s[0] == '-') then
      var digits := s[1..];
      if !IsAsciiDigits(digits) then None
      else
        var v: int := DecimalValue(digits);
        var n := if s[0] == '-' then -v else v;
        if MinInt64 <= n <= MaxInt64 then Some(n) else None
    else if !IsAsciiDigits(s) then None
    else if DecimalValue(s) <= MaxInt64 then Some(DecimalValue(s))
    else None
  }

  /** Go's conversion int32(n): the low 32 bits, read as two's complement. */
  function Int32(n: int): (r: int)
    ensures -0x8000_0000 <= r < 0x8000_0000
    ensures (r - n) % 0x1_0000_0000 == 0
    ensures -0x8000_0000 <= n < 0x8000_0000 ==> r == n
  {
    (n + 0x8000_0000) % 0x1_0000_0000 - 0x8000_0000
  }

  /** The LIMIT BrowseFeedsHandler asks GetUserPosts for, why it refuses, or a
      panic when Atoi fails on an argument that passed the digit test. */
  datatype Limit = Limit(n: int) | LimitRefused(reason: Reason) | LimitPanic

  /** BrowseFeedsHandler's argument handling: "2" when no argument is given. */
  function BrowseLimit(lib: Lib, args: seq<string>): (r: Limit)
    ensures |args| > 1 ==> r == LimitRefused(TooManyArguments)
    ensures |args| == 1 && !AllDigits(lib.isDigit, args[0]) ==> r == LimitRefused(NotNumeric)
    ensures r.LimitRefused? ==>
      || |args| > 1
      || (|args| == 1 && !AllDigits(lib.isDigit, args[0]))
      || (|args| == 0 && !lib.isDigit('2'))
    ensures r.Limit? ==> -0x8000_0000 <= r.n < 0x8000_0000
  {
    var a := if |args| == 0 then ["2"] else args;
    if |a| > 1 then LimitRefused(TooManyArguments)
    else if !AllDigits(lib.isDigit, a[0]) then LimitRefused(NotNumeric)
    else match Atoi(a[0])
      case None => LimitPanic
      case Some(n) => Limit(Int32(n))
  }

  /** With no argument the limit is 2 (given that unicode.IsDigit('2')). */
  lemma DefaultLimitIsTwo(lib: Lib)
    requires lib.isDigit('2')
    ensures BrowseLimit(lib, []) == Limit(2)
  {
  }

  /** The empty argument passes the digit test (vacuously) and then makes
      Atoi fail: the handler panics. */
  lemma EmptyLimitPanics(lib: Lib)
    ensures BrowseLimit(lib, [""]) == LimitPanic
  {
  }

  /** A digit the test accepts but that is not an ASCII digit (unicode.IsDigit
      holds for every decimal-digit code point) also reaches Atoi and panics. */
  lemma NonAsciiDigitPanics(lib: Lib, arg: string, i: nat)
    requires AllDigits(lib.isDigit, arg)
    requires i < |arg| && !('0' <= arg[i] <= '9') && arg[i] != '+' && arg[i] != '-'
    ensures BrowseLimit(lib, [arg]) == LimitPanic
  {
  }

  /** A limit beyond the int32 range is wrapped, not refused: the store gets
      the low 32 bits of the number. */
  lemma LimitWrapsToInt32(lib: Lib, arg: string)
    requires AllDigits(lib.isDigit, arg) && Atoi(arg).Some?
    ensures BrowseLimit(lib, [arg]) == Limit(Int32(Atoi(arg).value))
    ensures (BrowseLimit(lib, [arg]).n - Atoi(arg).value) % 0x1_0000_0000 == 0
  {
  }

  // ---------------------------------------------------------------------------
  // BrowseFeedsHandler's listing

  /** One row of GetUserPosts: the feed's name and the post's columns. */
  datatype PostRow = PostRow(
    feedName: string,
    title: string,
    url: string,
    publishedAt: Option<Instant>,
    description: Option<string>)

  /** What is printed for one post: its number, feed, title, publication date
      when valid, url and description when printed. */
  datatype Shown = Shown(
    number: nat,
    feed: string,
    title: string,
    published: Option<Instant>,
    url: string,
    description: Option<string>)

  /** A printed description: at most 100 characters, longer ones cut to their
      first 100 followed by "...". */
  function Excerpt(desc: string): (r: string)
    ensures |r| <= 103
    ensures |r| <= 100 ==> r == desc
    ensures |r| > 100 ==> |desc| > 100 && r[..100] == desc[..100] && r[100..] == "..."
  {
    if |desc| > 100 then desc[..100] + "..." else desc
  }

  /** Cutting is idempotent: a printed description prints unchanged. */
  lemma ExcerptIdempotent(desc: string)
    ensures Excerpt(Excerpt(desc)) == Excerpt(desc)
  {
  }

  /** A description prints unchanged exactly when it has at most 100
      characters, or is 100 characters followed by "..." already. */
  lemma ExcerptUnchangedIff(desc: string)
    ensures Excerpt(desc) == desc <==> |desc| <= 100 || (|desc| == 103 && desc[100..] == "...")
  {
  }

  /** The description line of one row: printed only for a valid, non-empty
      description. */
  function DescriptionShown(d: Option<string>): (r: Option<string>)
    ensures r.Some? <==> d.Some? && |d.value| > 0
    ensures r.Some? ==> r.value == Excerpt(d.value)
  {
    if d.Some? && |d.value| > 0 then Some(Excerpt(d.value)) else None
  }

  /** How BrowseFeedsHandler ends. */
  datatype Browse = Listed(shown: seq<Shown>) | BrowseFailed(reason: Reason) | BrowsePanicked

  /** BrowseFeedsHandler with the store's replies: GetUser (whose error is
      discarded) and GetUserPosts for a user id and LIMIT (its SQL is not shown). */
  method BrowseFeedsHandler(lib: Lib, args: seq<string>, userReply: Result<User, DbError>,
                            userPosts: (Uuid, int) -> Result<seq<PostRow>, DbError>) returns (r: Browse)
    ensures BrowseLimit(lib, args).LimitRefused? ==> r == BrowseFailed(BrowseLimit(lib, args).reason)
    ensures BrowseLimit(lib, args).LimitPanic? ==> r == BrowsePanicked
    ensures BrowseLimit(lib, args).Limit? ==>
      match userPosts(UserOrZero(userReply).id, BrowseLimit(lib, args).n)
      case Err(e) => r == BrowseFailed(StoreFailed(GetUserPosts, e))
      case Ok(rows) =>
        && r.Listed? && |r.shown| == |rows|
        && forall i | 0 <= i < |rows| ::
          r.shown[i] == Shown(i + 1, rows[i].feedName, rows[i].title, rows[i].publishedAt, rows[i].url,
                              DescriptionShown(rows[i].description))
  {
    var a := args;
    if |a| == 0 {
      a := a + ["2"];
    }
    if |a| > 1 {
      return BrowseFailed(TooManyArguments);
    }
    var numeric := ContainsOnlyNumericDigits(lib.isDigit, a[0]);
    if !numeric {
      return BrowseFailed(NotNumeric);
    }
    var user := UserOrZero(userReply);
    var numOfPosts := Atoi(a[0]);
    if numOfPosts.None? {
      return BrowsePanicked;
    }
    var reply := userPosts(user.id, Int32(numOfPosts.value));
    if reply.Err? {
      return BrowseFailed(StoreFailed(GetUserPosts, reply.error));
    }
    var rows := reply.value;
    var shown: seq<Shown> := [];
    for i := 0 to |rows|
      invariant |shown| == i
      invariant forall k | 0 <= k < i ::
        shown[k] == Shown(k + 1, rows[k].feedName, rows[k].title, rows[k].publishedAt, rows[k].url,
                          DescriptionShown(rows[k].description))
    {
      var postRow := rows[i];
      var description: Option<string> := None;
      if postRow.description.Some? && |postRow.description.value| > 0 {
        var desc := postRow.description.value;
        if |desc| > 100 {
          desc := desc[..100] + "...";
        }
        description := Some(desc);
      }
      shown := shown + [Shown(i + 1, postRow.feedName, postRow.title, postRow.publishedAt, postRow.url, description)];
    }
    return Listed(shown);
  }
}
