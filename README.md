# RSS-Aggregator (gator) core, modelled in Dafny

This project models the core of the `gator` command-line RSS aggregator.

The aggregation command polls the database for the next feed at a fixed
interval. Each poll runs one ingestion cycle:

- mark the feed as fetched;
- download and decode the feed;
- HTML-unescape its channel and items;
- store every titled item as a post, counting posts saved and duplicates skipped.

Around that cycle sit four more pieces:

- the command registry;
- the argument checks of the user, feed and follow commands;
- the browse command, which lists posts with a numeric limit and shortened descriptions;
- the logged-in middleware.

Layout, one module per source file:

- `common.dfy` (`Common`): the shared values, listed below.
- `store.dfy` (`Store`): the database as a class.
  - Its state is users in table order, feeds by id, follows, and posts keyed by url.
  - Every write method takes the fault or reply the database gives.
  - It also holds the configuration's current user name.
- `rss.dfy` (`Rss`): `internal/rss/handler_fetch_feed.go`. The HTTP exchange and the XML decoding are one `Exchange` input.
- `agg.dfy` (`Agg`): `internal/cli/handler_agg.go`.
  - The ingestion walk is specified by a prefix fold, `Ingest`.
  - The cycle is specified by `Cycle`, and the ticker loop by `Ticked`.
  - The handlers are proved to implement those.
- `commands.dfy` (`Commands`): `internal/cli/commands.go`.
- `feeds.dfy` (`Feeds`): `internal/cli/handler_feeds.go`.
- `feed_follows.dfy` (`FeedFollows`): `internal/cli/handler_feed_follows.go`.
- `middleware.dfy` (`Middleware`): `internal/cli/middleware.go`.

`Common` holds:

- Go's error results, as a `Status` with a `Reason` tag;
- the database errors;
- a `Lib` of library functions passed in as values: `url.Parse`, `html.UnescapeString`, `time.ParseDuration`, `time.Parse` with the RFC1123Z layout, and `unicode.IsDigit`;
- concrete definitions of `strings.TrimSpace`, `unicode.IsSpace` and `strings.Contains`.

Several functions exist in more than one file with different behaviour:
`AddFeedHandler`, `ScrapeFeedsHander`, `FollowHandler` and `FeedFollowingHandler`.
Each file's version is modelled in that file's module. The two copies of
`isValidUrl` (commands.go and middleware.go) are identical and are modelled once,
as `Common.IsValidUrl`.

Panics are modelled as explicit outcomes:

- `log.Panicf` on an unparsable publication date;
- `log.Panicf` when `strconv.Atoi` fails;
- `time.NewTicker` with a non-positive interval.

## Model

| member | source | states |
|---|---|---|
| `Rss.Unescaped` | internal/rss/handler_fetch_feed.go:72-78 | The channel title and description and each item's title and description become the unescape of their own original value. The channel link, each item's link and pubDate, the item count and the item order are kept. |
| `Rss.Fetched` | internal/rss/handler_fetch_feed.go:34-80 | The empty URL is refused first. A URL that does not parse, or has no scheme or no host, is refused before any request. A status above 299 is an error whatever the body. Success happens exactly when every gate passes and the body decodes, and the document is then the unescaped one. |
| `Rss.ValidUrlReachesNetwork` | internal/rss/handler_fetch_feed.go:35-42 | A URL that `isValidUrl` accepts always passes FetchFeed's URL gates, so its result depends on the exchange alone. |
| `Rss.FetchFeed` | internal/rss/handler_fetch_feed.go:34-80 | The guard returns, then the in-place rewrite of the channel and of each `Item[i]` in an indexed loop, compute exactly `Fetched`. |
| `Agg.Interval` | internal/cli/handler_agg.go:19-30 | No argument, more than one argument, or an unparsable duration is an error. Otherwise the interval is the parsed duration. |
| `Agg.PostOf` | internal/cli/handler_agg.go:86-94 | The post carries the item's title, link and description, the feed's id and the parsed publication date, and is created at the clock reading. |
| `Agg.Step` | internal/cli/handler_agg.go:71-109 | One iteration does nothing after a panic, adds at most one to `saved + skipped`, never removes a stored url, and submits at most one post after those already submitted. |
| `Agg.Ingest` | internal/cli/handler_agg.go:71-109 | The item loop submits at most one post per item. |
| `Agg.BlankCount` | internal/cli/handler_agg.go:74-77 | The number of blank-titled items is at most the item count, and it is zero exactly when no title is blank. |
| `Agg.StepOutcomes` | internal/cli/handler_agg.go:97-108 | For a titled item whose date parses, CreatePost has three outcomes. A save adds one to `saved` and stores the post. A duplicate adds one to `skipped`. Any other error changes neither counter nor the store, and the loop goes on. |
| `Agg.FailingStoreSavesNothing` | internal/cli/handler_agg.go:71-109 | When every CreatePost fails with an error that is not a duplicate, the loop still visits every item. It saves nothing, leaves the store unchanged, and without a panic skips exactly the blank-titled items. |
| `Agg.AggHandler` | internal/cli/handler_agg.go:18-43 | An argument error returns before any ticker starts, and nothing in the store changes. A non-positive interval panics in NewTicker. Otherwise every tick runs one cycle, and the store ends as `Ticked` says. |
| `Agg.Ticked` | internal/cli/handler_agg.go:38-40 | The ticker loop runs one cycle per tick until a cycle panics. No tick adds or removes a feed. |
| `Agg.EveryTickRunsOneCycle` | internal/cli/handler_agg.go:38-40 | Each tick runs exactly one cycle, and a cycle's error never ends the loop. The run stops early only when a cycle returns a panic, and it stops at that cycle. |
| `Agg.TickedAfterCrash` | internal/cli/handler_agg.go:38-40 | Once a cycle has panicked, later ticks change nothing. |
| `Agg.Titled` | internal/cli/handler_agg.go:74-77 | The items whose title is not blank. Every item with a non-blank title is kept, only items of the document are kept, none of them has a blank title, and their number is the item count minus the blank-titled items. |
| `Agg.SubmittedFollowTitledItems` | internal/cli/handler_agg.go:71-109 | The posts submitted are the titled items in document order, whatever the store answered before. Each post carries its item's title, link and description, the feed's id and the parsed date. The walk stops early only at the first titled item whose date does not parse. |
| `Agg.PanicsIffUnparsableDate` | internal/cli/handler_agg.go:78-81 | The walk panics exactly when some titled item's pubDate does not parse. |
| `Agg.IngestAfterPanic` | internal/cli/handler_agg.go:78-81 | After the panic, the remaining items change nothing. |
| `Agg.IngestCounts` | internal/cli/handler_agg.go:74-108 | `saved + skipped` is at most the number of items. `saved` is at most the number of submitted posts. Every blank-titled item is counted as skipped. |
| `Agg.IngestKeepsUrls` | internal/cli/handler_agg.go:97-108 | The walk never removes a stored url. |
| `Agg.IngestAgainstExactStore` | internal/cli/handler_agg.go:97-108 | With a store that rejects exactly the urls it holds, every saved post adds one url and stored posts are never overwritten. Every submitted url is held afterwards. |
| `Agg.HeldItemsAreSkipped` | internal/cli/handler_agg.go:97-103 | With such a store, when every titled item's link is already held and every titled item's date parses, nothing is saved, every item is skipped, the walk does not panic and the store is unchanged. |
| `Agg.RerunSavesNothing` | internal/cli/handler_agg.go:71-109 | With such a store, when the first walk did not panic, walking the same items a second time adds 0 to `saved`, skips every item and leaves the store unchanged. |
| `Agg.StagesRunInOrder` | internal/cli/handler_agg.go:50-66 | The stages run next-feed, then mark, then fetch, and each failure skips the later stages. Without a next feed, the mark and fetch answers do not matter. A failed mark leaves the feeds unchanged. A failed stage creates no post. |
| `Agg.Cycle` | internal/cli/handler_agg.go:45-112 | One cycle keeps the set of feeds, and a cycle that fails at the next-feed, mark or fetch stage creates no post. |
| `Agg.CycleCounts` | internal/cli/handler_agg.go:45-112 | A cycle keeps every stored url. Its counters are bounded by the number of items fetched. |
| `Agg.SecondCycleSavesNothing` | internal/cli/handler_agg.go:45-112 | Two cycles that fetch the same document from a store that rejects exactly the urls it holds: the second saves nothing and skips every item. |
| `Agg.SaveItems` | internal/cli/handler_agg.go:70-109 | The counting loop over the items, writing posts one by one, computes `Ingest`. Only the posts change. |
| `Agg.ScrapeFeedsHander` | internal/cli/handler_agg.go:45-112 | The handler's store writes and result are exactly those of `Cycle`. Users and follows are not touched. |
| `Agg.ContainsOnlyNumericDigits` | internal/cli/handler_agg.go:165-172 | The result is true exactly when every rune is a digit, and so it is true for the empty string. |
| `Agg.Atoi` | internal/cli/handler_agg.go:131-134 | `strconv.Atoi` succeeds only on an optional sign followed by ASCII digits. For such a string its value is the decimal value, negated after "-", when that fits in int64, and otherwise it fails. |
| `Agg.Int32` | internal/cli/handler_agg.go:138 | `int32(n)` is in the int32 range, agrees with `n` modulo 2^32, and is `n` itself when `n` is in range. |
| `Agg.BrowseLimit` | internal/cli/handler_agg.go:119-139 | More than one argument is refused, and so is a non-digit argument. An accepted limit lies in the int32 range. |
| `Agg.DefaultLimitIsTwo` | internal/cli/handler_agg.go:119-121 | With no argument the limit is 2. |
| `Agg.EmptyLimitPanics` | internal/cli/handler_agg.go:126-134 | The argument `""` passes the digit test, and then Atoi fails, so the handler panics. |
| `Agg.NonAsciiDigitPanics` | internal/cli/handler_agg.go:126-134 | A non-ASCII digit passes the digit test and reaches Atoi, so the handler panics. |
| `Agg.LimitWrapsToInt32` | internal/cli/handler_agg.go:136-139 | A limit outside the int32 range is wrapped to its low 32 bits, not refused. |
| `Agg.Excerpt` | internal/cli/handler_agg.go:152-157 | A printed description has at most 103 characters. It is unchanged when it has at most 100. A longer one becomes its first 100 characters followed by "...". |
| `Agg.ExcerptIdempotent` | internal/cli/handler_agg.go:154-156 | Shortening twice gives the same text as shortening once. |
| `Agg.ExcerptUnchangedIff` | internal/cli/handler_agg.go:154-156 | A description prints unchanged exactly when it has at most 100 characters, or when it is 103 characters ending in "...". |
| `Agg.DescriptionShown` | internal/cli/handler_agg.go:152-158 | A description is printed exactly when it is valid and non-empty, and it is printed shortened. |
| `Agg.BrowseFeedsHandler` | internal/cli/handler_agg.go:114-163 | Argument errors and the panic follow `BrowseLimit`. GetUserPosts is asked for the discarded-error user's id and the wrapped limit, and its error is returned. Otherwise every row is listed once, in order and numbered from 1, with its optional date and description. |
| `Commands.Dispatch` | internal/cli/commands.go:29-36 | An unregistered name gives "unknown command" and the state back unchanged. A registered name gives exactly its handler's result. |
| `Commands.UnknownCommandRunsNoHandler` | internal/cli/commands.go:29-33 | For an unknown name, the result does not depend on any registered handler. |
| `Commands.RegisterThenDispatch` | internal/cli/commands.go:38-40 | After Register(name, f), `name` runs `f` and every other name runs what it ran before. |
| `Commands.Commands.Register` | internal/cli/commands.go:38-40 | The handler map gains or overwrites `name` and keeps every other entry. |
| `Commands.Commands.Run` | internal/cli/commands.go:29-36 | Run computes `Dispatch` on the registered handlers. |
| `Commands.FirstIdNamed` | internal/cli/commands.go:237-244 | The id of the first user row with the name, or uuid.Nil when no row has it. |
| `Commands.FetchUserId` | internal/cli/commands.go:237-244 | The search loop returns `FirstIdNamed` for the current user name. |
| `Commands.OneArgument` | internal/cli/commands.go:43-49 | No argument, and more than one argument, are refused. Exactly one argument passes. |
| `Commands.Login` | internal/cli/commands.go:42-67 | A wrong argument count is refused whatever the store holds. Login succeeds exactly when there is one argument, UserExists answers, and the name is registered. |
| `Commands.LoginHandler` | internal/cli/commands.go:42-67 | The result is `Login`. The current user becomes `Args[0]` only on success, and is unchanged otherwise. |
| `Commands.Registration` | internal/cli/commands.go:69-105 | A wrong argument count is refused first. Then an existing user is refused before CreateUser. Success happens exactly when the user is new and both store calls succeed. |
| `Commands.RegisterHandler` | internal/cli/commands.go:69-105 | The result is `Registration`. The user row is appended and the current user set only on success. Nothing else changes. |
| `Commands.RegisterThenLogin` | internal/cli/commands.go:81-101 | A name just registered can log in, and registering it again is refused as already registered. |
| `Commands.ResetHandler` | internal/cli/commands.go:107-123 | Any argument is refused. The users are deleted, and the current user becomes "[None]" only after DeleteAllUsers succeeds. A failed delete changes nothing. |
| `Commands.NobodyLogsInAfterReset` | internal/cli/commands.go:54-60 | With no user rows, no login succeeds. |
| `Commands.AddFeedGate` | internal/cli/commands.go:181-199 | The checks run in this order: no users, more than 2 arguments, fewer than 2, blank feed name, invalid URL. The gate passes exactly when none of them applies. |
| `Commands.AddFeedHandler` | internal/cli/commands.go:171-235 | A GetUsers failure or a failed check creates nothing. The feed has Name `Args[0]`, Url `Args[1]`, UserID from fetchUserId and no LastFetchedAt. A failed CreateFeed returns an error that does not wrap its cause, and no follow is made. The follow pairs the feed's user and id. |
| `Commands.FollowHandler` | internal/cli/commands.go:301-353 | The checks run in order: users, arguments, URL. Only `sql.ErrNoRows` from GetFeedId is returned; any other lookup error is dropped, and the follow is made with the zero feed id. |
| `Commands.FeedFollowing` | internal/cli/commands.go:355-384 | Any argument is refused. A GetUsers failure is returned. No users, or the user "[None]", is refused. Otherwise the result is the follows of the fetchUserId user. |
| `Feeds.FirstFailedLookup` | internal/cli/handler_feeds.go:37-43 | The index of the first feed whose owner lookup fails. Every earlier lookup succeeds. |
| `Feeds.PrintFeedsHandler` | internal/cli/handler_feeds.go:16-45 | Any argument is refused. Zero feeds returns nil with no lookups. Otherwise the feeds are printed with their owners up to the first failed lookup, which aborts the listing with that error. |
| `Feeds.AddFeedGate` | internal/cli/handler_feeds.go:63-81 | The checks run in this order: no argument, more than 2, blank name, fewer than 2, invalid URL. |
| `Feeds.AddFeedGatesAcceptAlike` | internal/cli/handler_feeds.go:63-81 | When some user exists, this version and the commands.go version accept the same argument lists. |
| `Feeds.AddFeedGatesDifferOnOneBlankArgument` | internal/cli/handler_feeds.go:71-77 | For one blank argument, commands.go reports too few arguments while this version reports a blank name. |
| `Feeds.AddFeedHandler` | internal/cli/handler_feeds.go:58-122 | A failed check writes nothing. The feed has Name `Args[0]`, Url `Args[1]`, the GetUser user's id and a set LastFetchedAt. A CreateFeed failure returns an error and makes no follow. The follow uses the created feed's UserID and ID, and a follow failure is returned. |
| `Feeds.Titles` | internal/cli/handler_feeds.go:145-147 | One title per item, in order. |
| `Feeds.ScrapeFeedsHander` | internal/cli/handler_feeds.go:124-149 | Any argument is refused. The handler then has the same stages, feed updates and errors as the ingestion cycle, creates no post, and lists the fetched titles. |
| `FeedFollows.UrlGate` | internal/cli/handler_feed_follows.go:20-30 | The checks run in order: no argument, more than one, invalid URL. The gate passes exactly when none applies. |
| `FeedFollows.Followed` | internal/cli/handler_feed_follows.go:46-53 | A new row is success. A unique-constraint error is also success ("already following") and adds nothing. Any other error is returned and adds nothing. |
| `FeedFollows.FollowTwiceIsIdempotent` | internal/cli/handler_feed_follows.go:46-53 | With a store that reports a duplicate exactly for held pairs, following twice succeeds both times and the second call changes nothing. |
| `FeedFollows.DuplicateFollowIsSuccess` | internal/cli/handler_feed_follows.go:47-50 | PostgreSQL's duplicate-key message counts as already following; `sql.ErrNoRows` does not. |
| `FeedFollows.FollowHandler` | internal/cli/handler_feed_follows.go:15-63 | The URL checks come before any lookup. A failed feed-id lookup returns an error and makes no follow. The follow pairs the GetUser user's id with the looked-up feed id, and its outcome is `Followed`. |
| `FeedFollows.FeedFollowing` | internal/cli/handler_feed_follows.go:65-89 | Any argument is refused. A follow-lookup failure is returned. Otherwise the result is exactly the GetUser user's follows. |
| `FeedFollows.UnfollowFeedFollow` | internal/cli/handler_feed_follows.go:91-126 | The URL checks come first. `sql.ErrNoRows` gives "No feed found", and other lookup errors are wrapped. A delete failure is returned and leaves the follows unchanged. Success removes exactly the user's follow of that feed. |
| `FeedFollows.Unfollowed` | internal/cli/handler_feed_follows.go:116-125 | A successful delete removes exactly the pair and keeps every other follow; a failed delete is returned and removes nothing. |
| `FeedFollows.FollowThenUnfollowRestores` | internal/cli/handler_feed_follows.go:15-126 | Through the two handlers' new-state formulas: a new follow then an unfollow gives back the original follows, and a duplicate follow then an unfollow removes the pair that was there. |
| `Middleware.LoginGate` | internal/cli/middleware.go:22-34 | A GetUsers error is reported only when it is `sql.ErrNoRows`; other errors fall through to the empty-list test. An empty list, or the current user "[None]", is an error. The result is nil exactly when there are users and someone is logged in. |
| `Middleware.MiddlewareLoggedIn` | internal/cli/middleware.go:16-36 | The wrapper keeps the state and returns the gate's result. |
| `Middleware.WrappedHandlerNeverRuns` | internal/cli/middleware.go:16-36 | Wrapping any two handlers gives the same result, so the wrapped handler is never invoked. |
| `Middleware.ResetClosesTheGate` | internal/cli/middleware.go:31-33 | The state after a reset, and the user "[None]" with any users, are refused. |
| `Middleware.ValidUrlIsNotEmpty` | internal/cli/middleware.go:38-42 | `isValidUrl("")` is false, because `url.Parse("")` gives an empty URL. |
| `Common.PostgresDuplicateIsUniqueViolation` | internal/cli/handler_agg.go:99 | The unique-constraint test recognises PostgreSQL's duplicate-key message whatever the constraint is called. The text of `sql.ErrNoRows` never matches. |
| `Common.BlankIffAllSpace` | internal/cli/handler_agg.go:74 | `strings.TrimSpace(s) == ""` holds exactly when every character of `s` is white space. |
| `Common.IsValidUrl` | internal/cli/middleware.go:38-42 | `isValidUrl` (identical in commands.go:246-250) holds only when `url.Parse` succeeds, and then the URL has a scheme and a host. |
| `Common.IsUniqueViolation` | internal/cli/handler_agg.go:99 | The duplicate test, shared with handler_feed_follows.go: only a database failure whose message contains PostgreSQL's unique-constraint text matches. |
| `Store.Marked` | internal/cli/handler_agg.go:55-57 | MarkFeedFetched sets the last fetch time of the feed with that id to the clock reading. It changes no other field and no other feed, and adds or removes no feed. |

## Left out

- HTTP, XML and contexts:
  - Building and sending the request, reading the body and XML decoding are one `Exchange` input per fetch.
  - The 6-second contexts and the client timeout are not modelled.
  - FetchFeed ignores its context argument.
- Library functions:
  - `url.Parse`, `html.UnescapeString`, `time.ParseDuration`, `time.Parse(time.RFC1123Z, ·)` and `unicode.IsDigit` are uninterpreted parameters.
  - Atoi is modelled for a 64-bit platform only.
- Store queries:
  - The replies of GetNextFeedToFetch, GetFeeds, GetFeedId, GetUser, GetUserById, GetFeedFollowsForUser and GetUserPosts are inputs, because their SQL (selection and ordering) is not part of this model.
  - The unique constraints are an answer oracle.
  - The SQL of UserExists and GetUsers is not part of this model either. `Store.Db.UserExists` is read as "some user row has that name", and `Store.Db.GetUsers` returns the rows in insertion order. `Commands.Login`, `Commands.Registration`, `Commands.RegisterThenLogin` and `Commands.NobodyLogsInAfterReset` rest on that reading.
  - DeleteAllUsers empties the users only; any cascade to feeds, follows or posts is not modelled.
  - The generated query code is not part of this model.
- Time and identifiers:
  - `time.Now` and `uuid.New` are parameters.
  - One tick's clock reading serves as both the mark time and the post creation time.
  - `UpdatedAt` columns are not modelled.
- Ticker timing: the ticker's timing and the process that stops it are not modelled. The loop runs over the finite sequence of ticks that fire.
- Console and log output:
  - Output is not modelled, except what the listing handlers return: the browse rows, the feed and owner pairs, and the item titles.
  - Error texts become `Reason` tags, and a wrapped error keeps its cause.
- Configuration file: reading and writing the configuration file is not modelled. `SetUser` is the field update.
- Agg.Excerpt: Go measures and cuts the description in UTF-8 bytes; the model counts characters, so a cut inside a multi-byte character is not captured.
- Commands.Commands.Run: handlers are modelled as functions from a state value to a new state and a result. Their in-place effects on a shared state are not captured by the registry model.
- Other handlers in commands.go are not modelled. `UserHandler`, `AggHandler` (which fetches one fixed URL and prints it) and `PrintFeedsHandler` only print or repeat checks modelled elsewhere.
- `FeedFollows.UnfollowFeedFollow`: the current user's id comes from `getUserId`, which no shown file defines, so the id is a parameter.
- Feeds.AddFeedHandler, FeedFollows.FollowHandler and FeedFollows.FeedFollowing: the `user` argument the middleware would pass is overwritten before use, so it is not a parameter.
- Other source files: `internal/cli/handler_user.go`, `handler_unfollow.go` and `handler_reset.go` are near-copies of functions modelled from commands.go and handler_feed_follows.go. `main.go` and `internal/config/config.go` are process wiring and file I/O. None of these files is part of this model.
