/** middleware.go: the logged-in wrapper and its URL test. The wrapper reads
    the user list and the current user name from the state and decides the
    result from them alone: the handler it wraps is never called. */
module Middleware {
  import opened Common
  import opened Store
  import Commands

  /** A handler that expects the logged-in user. */
  type UserHandler<!S> = (S, Command, User) -> (S, Status)

  /** The wrapper's result for GetUsers' reply and the current user name. A
      GetUsers error is reported only when it is sql.ErrNoRows; any other error
      leaves no rows and falls through to the empty-list test. */
  function LoginGate(usersReply: Result<seq<User>, DbError>, current: string): (r: Status)
    ensures usersReply == Err(NoRows) ==> r == Failed(StoreFailed(GetUsers, NoRows))
    ensures usersReply.Err? && usersReply.error != NoRows ==> r == Failed(NoUsers)
    ensures usersReply.Ok? && (|usersReply.value| == 0 || current == NoUser) ==> r == Failed(NoUsers)
    ensures r == Done <==> usersReply.Ok? && |usersReply.value| > 0 && current != NoUser
  {
    var users := if usersReply.Ok? then usersReply.value else [];
    if usersReply == Err(NoRows) then Failed(StoreFailed(GetUsers, NoRows))
    else if |users| == 0 || current == NoUser then Failed(NoUsers)
    else Done
  }

  /** MiddlewareLoggedIn(handler), given how the state answers GetUsers and
      holds the current user name: a registrable handler that leaves the
      state alone and returns the gate's result. */
  function MiddlewareLoggedIn<S(!new)>(handler: UserHandler<S>, getUsers: S -> Result<seq<User>, DbError>,
                                       currentUser: S -> string): (w: Commands.Handler<S>)
    ensures forall s: S, cmd: Command :: w(s, cmd).0 == s
    ensures forall s: S, cmd: Command :: w(s, cmd).1 == LoginGate(getUsers(s), currentUser(s))
  {
    (s: S, cmd: Command) => (s, LoginGate(getUsers(s), currentUser(s)))
  }

  /** The wrapped handler makes no difference: wrapping any two handlers gives
      the same result on every state and command, and that result is nil
      exactly when there are users and somebody is logged in. */
  lemma WrappedHandlerNeverRuns<S(!new)>(h1: UserHandler<S>, h2: UserHandler<S>, getUsers: S -> Result<seq<User>, DbError>,
                                         currentUser: S -> string, s: S, cmd: Command)
    ensures MiddlewareLoggedIn(h1, getUsers, currentUser)(s, cmd) == MiddlewareLoggedIn(h2, getUsers, currentUser)(s, cmd)
    ensures MiddlewareLoggedIn(h1, getUsers, currentUser)(s, cmd).1 == Done <==>
      getUsers(s).Ok? && |getUsers(s).value| > 0 && currentUser(s) != NoUser
  {
  }

  /** After a successful reset (no users, current user "[None]") the gate
      refuses, and it refuses "[None]" whatever users exist. */
  lemma ResetClosesTheGate(users: seq<User>)
    ensures LoginGate(Ok([]), NoUser) == Failed(NoUsers)
    ensures LoginGate(Ok(users), NoUser) == Failed(NoUsers)
  {
  }

  /** isValidUrl never holds for the empty string, which url.Parse reads as an
      empty URL without scheme or host. */
  lemma ValidUrlIsNotEmpty(lib: Lib, s: string)
    requires ParsesEmptyUrlAsEmpty(lib) && IsValidUrl(lib.parseUrl, s)
    ensures s != ""
  {
  }
}
