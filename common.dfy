/** Values shared by every part of the aggregator: Go's error results as the
    handlers return them, the database errors they inspect, the command
    record, and the standard-library functions whose code is not part of this
    model (passed in as a `Lib` of function values). */
module Common {

  datatype Option<+T> = None | Some(value: T)

  datatype Result<+T, +E> = Ok(value: T) | Err(error: E)

  /** A uuid.UUID; `NilUuid` is uuid.Nil. */
  type Uuid = nat
  const NilUuid: Uuid := 0

  /** A time.Time, taken as an abstract instant. */
  type Instant = int

  /** A time.Duration, in nanoseconds. */
  type Duration = int

  /** The two parts of a parsed net/url.URL that the handlers look at. */
  datatype Url = Url(scheme: string, host: string)

  /** Library functions whose code is not shown, as the handlers receive them. */
  datatype Lib = Lib(
    parseUrl: string -> Option<Url>,            // net/url.Parse; None is a parse error
    unescapeHtml: string -> string,             // html.UnescapeString
    parseDuration: string -> Option<Duration>,  // time.ParseDuration
    parseRfc1123z: string -> Option<Instant>,   // time.Parse(time.RFC1123Z, ·)
    isDigit: char -> bool)                      // unicode.IsDigit

  /** url.Parse("") succeeds with an empty URL, as Go documents. */
  predicate ParsesEmptyUrlAsEmpty(lib: Lib) {
    lib.parseUrl("") == Some(Url("", ""))
  }

  /** A command line: the command name and its arguments. */
  datatype Command = Command(name: string, args: seq<string>)

  /** The store queries a failure can come from. */
  datatype Query =
    | UserExists | CreateUser | DeleteAllUsers | GetUsers | GetUser | GetUserById
    | CreateFeed | GetFeeds | GetFeedId | GetNextFeedToFetch | MarkFeedFetched
    | CreateFeedFollow | GetFeedFollowsForUser | DeleteFeedFollowRow
    | GetUserPosts | CreatePost

  /** An error from the database driver: sql.ErrNoRows or any other message. */
  datatype DbError = NoRows | DbFailure(message: string)

  /** What err.Error() reads. */
  function ErrorText(e: DbError): string {
    match e
    case NoRows => "sql: no rows in result set"
    case DbFailure(m) => m
  }

  /** The text the handlers look for to recognise a violated unique constraint. */
  const UniqueViolation := "duplicate key value violates unique constraint"

  /** strings.Contains */
  predicate Contains(s: string, sub: string)
    decreases |s|
  {
    |sub| <= |s| && (s[..|sub|] == sub || Contains(s[1..], sub))
  }

  /** A string contains every slice of itself. */
  lemma {:induction false} ContainsSlice(s: string, sub: string, i: nat)
    requires i + |sub| <= |s| && s[i..i + |sub|] == sub
    ensures Contains(s, sub)
  {
    if i > 0 {
      assert s[1..][i - 1..i - 1 + |sub|] == sub;
      ContainsSlice(s[1..], sub, i - 1);
    }
  }

  /** strings.Contains(e.Error(), UniqueViolation); the text of sql.ErrNoRows
      is shorter than the pattern, so it never matches. */
  predicate IsUniqueViolation(e: DbError)
    ensures IsUniqueViolation(e) ==> e.DbFailure? && |UniqueViolation| <= |e.message|
  {
    e.DbFailure? && Contains(e.message, UniqueViolation)
  }

  /** The message PostgreSQL (through pgx) gives for a unique-constraint
      violation is recognised, whatever the constraint is called; sql.ErrNoRows
      is not. */
  lemma PostgresDuplicateIsUniqueViolation(constraint: string)
    ensures IsUniqueViolation(DbFailure("ERROR: " + UniqueViolation + " \"" + constraint + "\" (SQLSTATE 23505)"))
    ensures !Contains(ErrorText(NoRows), UniqueViolation)
  {
    var m := "ERROR: " + UniqueViolation + " \"" + constraint + "\" (SQLSTATE 23505)";
    assert m[7..7 + |UniqueViolation|] == UniqueViolation;
    ContainsSlice(m, UniqueViolation, 7);
  }

  /** The failure modes of rss.FetchFeed. */
  datatype FetchError =
    | EmptyFeedUrl        // "feed URL cannot be empty"
    | InvalidFeedUrl      // parse error, or no scheme or no host
    | RequestNotBuilt     // http.NewRequestWithContext failed
    | NotSent             // the client could not send the request
    | HttpStatus(code: int)
    | BodyNotRead
    | NotDecoded          // xml.Unmarshal failed

  /** Why a handler returned a non-nil error. */
  datatype Reason =
    | NoArgument
    | TooManyArguments
    | TooFewArguments
    | TakesNoArguments
    | BlankFeedName
    | InvalidUrl
    | InvalidDuration
    | NotNumeric
    | NoUsers
    | NotRegistered(user: string)
    | AlreadyRegistered(user: string)
    | NoFeedFound
    | FeedNotCreated      // CreateFeed failed and the cause is not wrapped
    | UnknownCommand
    | StoreFailed(query: Query, cause: DbError)
    | FetchFailed(fetchError: FetchError)

  /** The current user name the configuration holds after a reset. */
  const NoUser := "[None]"

  /** A handler's `error` result: `Done` is nil. */
  datatype Status = Done | Failed(reason: Reason)

  /** isValidUrl (middleware.go and, identically, commands.go): the URL parses
      and has both a scheme and a host. rss.FetchFeed rejects exactly the
      complement (after its empty-string check). */
  predicate IsValidUrl(parseUrl: string -> Option<Url>, s: string)
    ensures IsValidUrl(parseUrl, s) ==> parseUrl(s).Some?
  {
    parseUrl(s).Some? && parseUrl(s).value.scheme != "" && parseUrl(s).value.host != ""
  }

  /** unicode.IsSpace: the Latin-1 spaces and the other White_Space code points. */
  predicate IsSpace(c: char) {
    || c == '\t' || c == '\n' || c == '\U{B}' || c == '\U{C}' || c == '\r' || c == ' '
    || c == '\U{85}' || c == '\U{A0}' || c == '\U{1680}'
    || ('\U{2000}' <= c <= '\U{200A}')
    || c == '\U{2028}' || c == '\U{2029}' || c == '\U{202F}' || c == '\U{205F}' || c == '\U{3000}'
  }

  /** strings.TrimLeftFunc */
  function TrimLeftFunc(f: char -> bool, s: string): (r: string)
    ensures |r| <= |s| && r == s[|s| - |r|..]
  {
    if s != [] && f(s[0]) then TrimLeftFunc(f, s[1..]) else s
  }

  /** strings.TrimRightFunc */
  function TrimRightFunc(f: char -> bool, s: string): (r: string)
    ensures |r| <= |s| && r == s[..|r|]
  {
    if s != [] && f(s[|s| - 1]) then TrimRightFunc(f, s[..|s| - 1]) else s
  }

  /** strings.TrimSpace */
  function TrimSpace(s: string): string {
    TrimRightFunc(IsSpace, TrimLeftFunc(IsSpace, s))
  }

  /** The handlers' test `strings.TrimSpace(x) == ""`. */
  predicate Blank(s: string) {
    TrimSpace(s) == ""
  }

  /** A string trims to nothing exactly when every character of it is white space. */
  lemma BlankIffAllSpace(s: string)
    ensures Blank(s) <==> forall i | 0 <= i < |s| :: IsSpace(s[i])
  {
    TrimsToNothingIffAll(IsSpace, s);
  }

  /** Trimming both ends by `f` leaves nothing exactly when `f` holds of every character. */
  lemma TrimsToNothingIffAll(f: char -> bool, s: string)
    ensures TrimRightFunc(f, TrimLeftFunc(f, s)) == [] <==> forall i | 0 <= i < |s| :: f(s[i])
  {
    TrimLeftAll(f, s);
    var t := TrimLeftFunc(f, s);
    if t != [] {
      TrimRightKeepsFirst(f, t);
    }
  }

  lemma TrimLeftAll(f: char -> bool, s: string)
    ensures TrimLeftFunc(f, s) == [] <==> forall i | 0 <= i < |s| :: f(s[i])
    ensures TrimLeftFunc(f, s) != [] ==> !f(TrimLeftFunc(f, s)[0])
  {
    var t := TrimLeftFunc(f, s);
    TrimLeftStopsAtFirst(f, s);
    TrimLeftDropsOnly(f, s);
    if t != [] {
      assert t[0] == s[|s| - |t|];
    }
  }

  /** What is left starts with a character `f` does not hold of. */
  lemma {:induction false} TrimLeftStopsAtFirst(f: char -> bool, s: string)
    ensures TrimLeftFunc(f, s) != [] ==> !f(TrimLeftFunc(f, s)[0])
  {
    if s != [] && f(s[0]) {
      TrimLeftStopsAtFirst(f, s[1..]);
    }
  }

  /** Every character trimmed away is one `f` holds of. */
  lemma {:induction false} TrimLeftDropsOnly(f: char -> bool, s: string)
    ensures forall i | 0 <= i < |s| - |TrimLeftFunc(f, s)| :: f(s[i])
  {
    if s != [] && f(s[0]) {
      var n := |s| - |TrimLeftFunc(f, s)|;
      TrimLeftDropsOnly(f, s[1..]);
      forall i | 0 <= i < n ensures f(s[i]) {
        if i > 0 {
          assert s[i] == s[1..][i - 1];
        }
      }
    }
  }

  lemma {:induction false} TrimRightKeepsFirst(f: char -> bool, t: string)
    requires t != [] && !f(t[0])
    ensures TrimRightFunc(f, t) != []
  {
    if f(t[|t| - 1]) {
      TrimRightKeepsFirst(f, t[..|t| - 1]);
    }
  }
}
