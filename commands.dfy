/** commands.go: the command registry and the handlers defined beside it
    (login, register, reset, add-feed, and this file's versions of follow and
    following), with the user-id search they share. */
module Commands {
  import opened Common
  import opened Store

  // ---------------------------------------------------------------------------
  // The registry

  /** A registered handler, as a state transformer with its error result. */
  type Handler<!S> = (S, Command) -> (S, Status)

  /** What Run does with a registry: the named handler's own result, or the
      "unknown command" error with the state untouched. */
  function Dispatch<S>(handlers: map<string, Handler<S>>, s: S, cmd: Command): (r: (S, Status))
    ensures cmd.name !in handlers ==> r == (s, Failed(UnknownCommand))
    ensures cmd.name in handlers ==> r == handlers[cmd.name](s, cmd)
  {
    if cmd.name in handlers then handlers[cmd.name](s, cmd) else (s, Failed(UnknownCommand))
  }

  /** After Register(name, f), a command called `name` runs `f`, and every
      other command runs what it ran before. */
  lemma RegisterThenDispatch<S>(handlers: map<string, Handler<S>>, name: string, f: Handler<S>, s: S, cmd: Command)
    ensures cmd.name == name ==> Dispatch(handlers[name := f], s, cmd) == f(s, cmd)
    ensures cmd.name != name ==> Dispatch(handlers[name := f], s, cmd) == Dispatch(handlers, s, cmd)
  {
  }

  /** A name nobody registered is unknown whatever the registered handlers
      would do, and no handler runs: the state comes back as it was. */
  lemma UnknownCommandRunsNoHandler<S>(h1: map<string, Handler<S>>, h2: map<string, Handler<S>>, s: S, cmd: Command)
    requires cmd.name !in h1 && cmd.name !in h2
    ensures Dispatch(h1, s, cmd) == Dispatch(h2, s, cmd) == (s, Failed(UnknownCommand))
  {
  }

  class Commands<S> {
    var handlers: map<string, Handler<S>>

    constructor ()
      ensures handlers == map[]
    {
      handlers := map[];
    }

    method Register(name: string, f: Handler<S>)
      modifies this
      ensures handlers == old(handlers)[name := f]
    {
      handlers := handlers[name := f];
    }

    method Run(s: S, cmd: Command) returns (s': S, err: Status)
      ensures (s', err) == Dispatch(handlers, s, cmd)
    {
      if cmd.name !in handlers {
        return s, Failed(UnknownCommand);
      }
      var handler := handlers[cmd.name];
      var result := handler(s, cmd);
      s', err := result.0, result.1;
    }
  }

  // ---------------------------------------------------------------------------
  // fetchUserId

  /** The id of the first user row carrying `name`, or uuid.Nil. */
  function FirstIdNamed(users: seq<User>, name: string): (id: Uuid)
    ensures (forall i | 0 <= i < |users| :: users[i].name != name) ==> id == NilUuid
    ensures !(forall i | 0 <= i < |users| :: users[i].name != name) ==>
      exists i | 0 <= i < |users| ::
        && users[i].name == name && id == users[i].id
        && forall j | 0 <= j < i :: users[j].name != name
    decreases |users|
  {
    if users == [] then NilUuid
    else if users[0].name == name then users[0].id
    else
      var rest := FirstIdNamed(users[1..], name);
      assert forall i | 1 <= i < |users| :: users[i] == users[1..][i - 1];
      rest
  }

  method FetchUserId(users: seq<User>, cfg: Config) returns (id: Uuid)
    ensures id == FirstIdNamed(users, cfg.currentUserName)
  {
    for i := 0 to |users|
      invariant FirstIdNamed(users[i..], cfg.currentUserName) == FirstIdNamed(users, cfg.currentUserName)
    {
      assert users[i..][1..] == users[i + 1..];
      if users[i].name == cfg.currentUserName {
        return users[i].id;
      }
    }
    return NilUuid;
  }

  // ---------------------------------------------------------------------------
  // LoginHandler and RegisterHandler

  /** The argument-count checks LoginHandler and RegisterHandler make first. */
  function OneArgument(args: seq<string>): (r: Option<Reason>)
    ensures r.None? <==> |args| == 1
    ensures |args| == 0 ==> r == Some(NoArgument)
    ensures |args| > 1 ==> r == Some(TooManyArguments)
  {
    if |args| == 0 then Some(NoArgument)
    else if |args| > 1 then Some(TooManyArguments)
    else None
  }

  /** LoginHandler's result for the user rows and UserExists' fault. */
  function Login(users: seq<User>, args: seq<string>, fault: Option<DbError>): (r: Status)
    ensures r == Done <==> |args| == 1 && fault.None? && Registered(users, args[0])
    // A wrong argument count is reported whatever the store holds or answers.
    ensures |args| != 1 ==> r == Failed(OneArgument(args).value)
    ensures |args| == 1 && fault.Some? ==> r == Failed(StoreFailed(UserExists, fault.value))
    ensures |args| == 1 && fault.None? && !Registered(users, args[0]) ==> r == Failed(NotRegistered(args[0]))
  {
    if OneArgument(args).Some? then Failed(OneArgument(args).value)
    else if fault.Some? then Failed(StoreFailed(UserExists, fault.value))
    else if !Registered(users, args[0]) then Failed(NotRegistered(args[0]))
    else Done
  }

  method LoginHandler(db: Db, cfg: Config, args: seq<string>, fault: Option<DbError>) returns (status: Status)
    modifies cfg
    ensures status == Login(db.users, args, fault)
    ensures cfg.currentUserName == if status == Done then args[0] else old(cfg.currentUserName)
  {
    if |args| == 0 {
      return Failed(NoArgument);
    }
    if |args| > 1 {
      return Failed(TooManyArguments);
    }
    var found := db.UserExists(args[0], fault);
    if found.Err? {
      return Failed(StoreFailed(UserExists, found.error));
    }
    if !found.value {
      return Failed(NotRegistered(args[0]));
    }
    cfg.SetUser(args[0]);
    return Done;
  }

  /** RegisterHandler's result for the user rows, UserExists' fault and
      CreateUser's reply. */
  function Registration(users: seq<User>, args: seq<string>, existsFault: Option<DbError>,
                        createReply: Option<DbError>): (r: Status)
    ensures r == Done <==>
      |args| == 1 && existsFault.None? && !Registered(users, args[0]) && createReply.None?
    ensures |args| != 1 ==> r == Failed(OneArgument(args).value)
    ensures |args| == 1 && existsFault.Some? ==> r == Failed(StoreFailed(UserExists, existsFault.value))
    ensures |args| == 1 && existsFault.None? && Registered(users, args[0]) ==> r == Failed(AlreadyRegistered(args[0]))
    ensures |args| == 1 && existsFault.None? && !Registered(users, args[0]) && createReply.Some? ==>
      r == Failed(StoreFailed(CreateUser, createReply.value))
  {
    if OneArgument(args).Some? then Failed(OneArgument(args).value)
    else if existsFault.Some? then Failed(StoreFailed(UserExists, existsFault.value))
    else if Registered(users, args[0]) then Failed(AlreadyRegistered(args[0]))
    else if createReply.Some? then Failed(StoreFailed(CreateUser, createReply.value))
    else Done
  }

  /** RegisterHandler with the new user's id (uuid.New). */
  method RegisterHandler(db: Db, cfg: Config, args: seq<string>, existsFault: Option<DbError>,
                         newId: Uuid, createReply: Option<DbError>) returns (status: Status)
    modifies db, cfg
    ensures status == Registration(old(db.users), args, existsFault, createReply)
    ensures db.users == if status == Done then old(db.users) + [User(newId, args[0])] else old(db.users)
    ensures db.feeds == old(db.feeds) && db.follows == old(db.follows) && db.posts == old(db.posts)
    ensures cfg.currentUserName == if status == Done then args[0] else old(cfg.currentUserName)
  {
    if |args| == 0 {
      return Failed(NoArgument);
    }
    if |args| > 1 {
      return Failed(TooManyArguments);
    }
    var found := db.UserExists(args[0], existsFault);
    if found.Err? {
      return Failed(StoreFailed(UserExists, found.error));
    }
    if found.value {
      return Failed(AlreadyRegistered(args[0]));
    }
    var err := db.CreateUser(User(newId, args[0]), createReply);
    if err.Some? {
      return Failed(StoreFailed(CreateUser, err.value));
    }
    cfg.SetUser(args[0]);
    return Done;
  }

  /** A name just registered can log in, and registering it again is refused. */
  lemma RegisterThenLogin(users: seq<User>, args: seq<string>, existsFault: Option<DbError>,
                          createReply: Option<DbError>, newId: Uuid, again: Option<DbError>)
    requires Registration(users, args, existsFault, createReply) == Done
    ensures Login(users + [User(newId, args[0])], args, None) == Done
    ensures Registration(users + [User(newId, args[0])], args, None, again) == Failed(AlreadyRegistered(args[0]))
  {
    var after := users + [User(newId, args[0])];
    assert after[|users|].name == args[0];
  }

  // ---------------------------------------------------------------------------
  // ResetHandler

  method ResetHandler(db: Db, cfg: Config, args: seq<string>, fault: Option<DbError>) returns (status: Status)
    modifies db, cfg
    ensures |args| > 0 ==> status == Failed(TakesNoArguments)
    ensures |args| == 0 && fault.Some? ==> status == Failed(StoreFailed(DeleteAllUsers, fault.value))
    ensures |args| == 0 && fault.None? ==> status == Done
    ensures db.users == if status == Done then [] else old(db.users)
    ensures db.feeds == old(db.feeds) && db.follows == old(db.follows) && db.posts == old(db.posts)
    // The current user becomes "[None]" only once the deletion has succeeded.
    ensures cfg.currentUserName == if status == Done then NoUser else old(cfg.currentUserName)
  {
    if |args| > 0 {
      return Failed(TakesNoArguments);
    }
    var err := db.DeleteAllUsers(fault);
    if err.Some? {
      return Failed(StoreFailed(DeleteAllUsers, err.value));
    }
    cfg.SetUser(NoUser);
    return Done;
  }

  /** After a reset nobody can log in. */
  lemma NobodyLogsInAfterReset(args: seq<string>)
    ensures Login([], args, None) != Done
  {
  }

  // ---------------------------------------------------------------------------
  // AddFeedHandler (this file's version)

  /** The checks this AddFeedHandler makes, in its order, once the users are
      read: no users, more than 2 arguments, fewer than 2, blank name, bad URL. */
  function AddFeedGate(lib: Lib, users: seq<User>, args: seq<string>): (r: Option<Reason>)
    ensures r.None? <==>
      |users| > 0 && |args| == 2 && !Blank(args[0]) && IsValidUrl(lib.parseUrl, args[1])
    ensures |users| == 0 ==> r == Some(NoUsers)
    ensures |users| > 0 && |args| > 2 ==> r == Some(TooManyArguments)
    ensures |users| > 0 && |args| < 2 ==> r == Some(TooFewArguments)
    ensures |users| > 0 && |args| == 2 && Blank(args[0]) ==> r == Some(BlankFeedName)
    ensures |users| > 0 && |args| == 2 && !Blank(args[0]) && !IsValidUrl(lib.parseUrl, args[1]) ==>
      r == Some(InvalidUrl)
  {
    if |users| == 0 then Some(NoUsers)
    else if |args| > 2 then Some(TooManyArguments)
    else if |args| < 2 then Some(TooFewArguments)
    else if Blank(args[0]) then Some(BlankFeedName)
    else if !IsValidUrl(lib.parseUrl, args[1]) then Some(InvalidUrl)
    else None
  }

  /** AddFeedHandler with GetUsers' fault, the new feed's id (uuid.New) and the
      store's replies to CreateFeed and CreateFeedFollow. */
  method AddFeedHandler(db: Db, cfg: Config, lib: Lib, args: seq<string>, usersFault: Option<DbError>,
                        newId: Uuid, createReply: Option<DbError>, followReply: Option<DbError>)
    returns (status: Status)
    modifies db
    ensures usersFault.Some? ==>
      status == Failed(StoreFailed(GetUsers, usersFault.value))
      && db.feeds == old(db.feeds) && db.follows == old(db.follows)
    ensures usersFault.None? && AddFeedGate(lib, old(db.users), args).Some? ==>
      status == Failed(AddFeedGate(lib, old(db.users), args).value)
      && db.feeds == old(db.feeds) && db.follows == old(db.follows)
    ensures usersFault.None? && AddFeedGate(lib, old(db.users), args).None? ==>
      var f := Feed(newId, args[0], args[1], FirstIdNamed(old(db.users), cfg.currentUserName), None);
      && (createReply.Some? ==>
            status == Failed(FeedNotCreated) && db.feeds == old(db.feeds) && db.follows == old(db.follows))
      && (createReply.None? ==>
            && db.feeds == old(db.feeds)[newId := f]
            && (followReply.None? ==> status == Done && db.follows == old(db.follows) + {Follow(f.userId, newId)})
            && (followReply.Some? ==>
                  status == Failed(StoreFailed(CreateFeedFollow, followReply.value)) && db.follows == old(db.follows)))
    ensures db.users == old(db.users) && db.posts == old(db.posts)
  {
    var users, err := db.GetUsers(usersFault);
    if err.Some? {
      return Failed(StoreFailed(GetUsers, err.value));
    }
    if |users| == 0 {
      return Failed(NoUsers);
    }
    if |args| > 2 {
      return Failed(TooManyArguments);
    }
    if |args| < 2 {
      return Failed(TooFewArguments);
    }
    if Blank(args[0]) {
      return Failed(BlankFeedName);
    }
    if !IsValidUrl(lib.parseUrl, args[1]) {
      return Failed(InvalidUrl);
    }
    var userId := FetchUserId(users, cfg);
    var feed := Feed(newId, args[0], args[1], userId, None);
    err := db.CreateFeed(feed, createReply);
    if err.Some? {
      return Failed(FeedNotCreated);
    }
    err := db.CreateFeedFollow(Follow(feed.userId, feed.id), followReply);
    if err.Some? {
      return Failed(StoreFailed(CreateFeedFollow, err.value));
    }
    return Done;
  }

  // ---------------------------------------------------------------------------
  // FollowHandler and FeedFollowingHandler (this file's versions)

  /** FollowHandler with GetUsers' fault, GetFeedId's reply and
      CreateFeedFollow's reply. A GetFeedId error other than sql.ErrNoRows is
      dropped: the follow is then made with the zero feed id GetFeedId returns
      beside its error. */
  method FollowHandler(db: Db, cfg: Config, lib: Lib, args: seq<string>, usersFault: Option<DbError>,
                       feedIdReply: Result<Uuid, DbError>, followReply: Option<DbError>)
    returns (status: Status)
    modifies db
    ensures usersFault.Some? ==> status == Failed(StoreFailed(GetUsers, usersFault.value))
    ensures usersFault.None? && |old(db.users)| == 0 ==> status == Failed(NoUsers)
    ensures usersFault.None? && |old(db.users)| > 0 && OneArgument(args).Some? ==>
      status == Failed(OneArgument(args).value)
    ensures usersFault.None? && |old(db.users)| > 0 && |args| == 1 && !IsValidUrl(lib.parseUrl, args[0]) ==>
      status == Failed(InvalidUrl)
    ensures usersFault.None? && |old(db.users)| > 0 && |args| == 1 && IsValidUrl(lib.parseUrl, args[0]) ==>
      if feedIdReply == Err(NoRows) then
        status == Failed(StoreFailed(GetFeedId, NoRows)) && db.follows == old(db.follows)
      else
        var f := Follow(FirstIdNamed(old(db.users), cfg.currentUserName),
                        if feedIdReply.Ok? then feedIdReply.value else NilUuid);
        && (followReply.None? ==> status == Done && db.follows == old(db.follows) + {f})
        && (followReply.Some? ==>
              status == Failed(StoreFailed(CreateFeedFollow, followReply.value)) && db.follows == old(db.follows))
    ensures status != Done ==> db.follows == old(db.follows)
    ensures db.users == old(db.users) && db.feeds == old(db.feeds) && db.posts == old(db.posts)
  {
    var users, err := db.GetUsers(usersFault);
    if err.Some? {
      return Failed(StoreFailed(GetUsers, err.value));
    }
    if |users| == 0 {
      return Failed(NoUsers);
    }
    if |args| == 0 {
      return Failed(NoArgument);
    }
    if |args| > 1 {
      return Failed(TooManyArguments);
    }
    if !IsValidUrl(lib.parseUrl, args[0]) {
      return Failed(InvalidUrl);
    }
    var feedId := if feedIdReply.Ok? then feedIdReply.value else NilUuid;
    if feedIdReply.Err? && feedIdReply.error == NoRows {
      return Failed(StoreFailed(GetFeedId, NoRows));
    }
    var userId := FetchUserId(users, cfg);
    err := db.CreateFeedFollow(Follow(userId, feedId), followReply);
    if err.Some? {
      return Failed(StoreFailed(CreateFeedFollow, err.value));
    }
    return Done;
  }

  /** The feed names FeedFollowingHandler lists, or why it fails; the follow
      rows for a user id are the store's answer (their SQL is not shown). */
  function FeedFollowing(args: seq<string>, usersReply: Result<seq<User>, DbError>, current: string,
                         followsFor: Uuid -> Result<seq<string>, DbError>): (r: Result<seq<string>, Reason>)
    ensures |args| > 0 ==> r == Err(TakesNoArguments)
    ensures |args| == 0 && usersReply.Err? ==> r == Err(StoreFailed(GetUsers, usersReply.error))
    ensures |args| == 0 && usersReply.Ok? && (|usersReply.value| == 0 || current == NoUser) ==> r == Err(NoUsers)
    ensures r.Ok? <==>
      && |args| == 0 && usersReply.Ok? && |usersReply.value| > 0 && current != NoUser
      && followsFor(FirstIdNamed(usersReply.value, current)).Ok?
    ensures r.Ok? ==> r.value == followsFor(FirstIdNamed(usersReply.value, current)).value
  {
    if |args| > 0 then Err(TakesNoArguments)
    else if usersReply.Err? then Err(StoreFailed(GetUsers, usersReply.error))
    else if |usersReply.value| == 0 || current == NoUser then Err(NoUsers)
    else match followsFor(FirstIdNamed(usersReply.value, current))
      case Err(e) => Err(StoreFailed(GetFeedFollowsForUser, e))
      case Ok(names) => Ok(names)
  }
}
