/** The database the handlers talk to (its generated query code is not part
    of this model) and the configuration file's current user. The store keeps
    the tables the handlers write; each call takes the fault or reply the
    database gives, because the SQL that decides it is not shown. */
module Store {
  import opened Common

  datatype User = User(id: Uuid, name: string)

  datatype Feed = Feed(id: Uuid, name: string, url: string, userId: Uuid, lastFetchedAt: Option<Instant>)

  datatype Follow = Follow(userId: Uuid, feedId: Uuid)

  datatype Post = Post(
    feedId: Uuid,
    title: string,
    url: string,
    description: string,
    publishedAt: Instant,
    createdAt: Instant)

  /** How the store answers one CreatePost, given the posts it holds: None for
      an inserted row, or the error it reports. */
  type PostPolicy = (map<string, Post>, Post) -> Option<DbError>

  /** The store enforces url uniqueness and nothing else: it rejects a post,
      with a unique-constraint message, exactly when it already holds its url. */
  ghost predicate RejectsExactlyHeld(policy: PostPolicy) {
    forall posts: map<string, Post>, p: Post ::
      && (policy(posts, p).None? <==> p.url !in posts)
      && (policy(posts, p).Some? ==> IsUniqueViolation(policy(posts, p).value))
  }

  /** The feeds after MarkFeedFetched(id) at `now`: the feed with that id, if
      any, gets `now` as its last fetch time; nothing else changes. */
  function Marked(feeds: map<Uuid, Feed>, id: Uuid, now: Instant): (r: map<Uuid, Feed>)
    ensures r.Keys == feeds.Keys
    ensures forall k | k in feeds && k != id :: r[k] == feeds[k]
    ensures id in feeds ==> r[id].lastFetchedAt == Some(now) && r[id].(lastFetchedAt := feeds[id].lastFetchedAt) == feeds[id]
  {
    if id in feeds then feeds[id := feeds[id].(lastFetchedAt := Some(now))] else feeds
  }

  /** A user name is registered when some user row carries it. */
  predicate Registered(users: seq<User>, name: string) {
    exists i | 0 <= i < |users| :: users[i].name == name
  }

  /** The value a handler keeps from a GetUser whose error it discards: the
      row, or the zero User. */
  function UserOrZero(reply: Result<User, DbError>): User {
    if reply.Ok? then reply.value else User(NilUuid, "")
  }

  class Db {
    var users: seq<User>
    var feeds: map<Uuid, Feed>
    var follows: set<Follow>
    var posts: map<string, Post>

    constructor (users: seq<User>, feeds: map<Uuid, Feed>, follows: set<Follow>, posts: map<string, Post>)
      ensures this.users == users && this.feeds == feeds && this.follows == follows && this.posts == posts
    {
      this.users, this.feeds, this.follows, this.posts := users, feeds, follows, posts;
    }

    method UserExists(name: string, fault: Option<DbError>) returns (r: Result<bool, DbError>)
      ensures r == if fault.Some? then Err(fault.value) else Ok(Registered(users, name))
    {
      if fault.Some? {
        r := Err(fault.value);
      } else {
        r := Ok(Registered(users, name));
      }
    }

    /** GetUsers: the user rows in table order; sqlc returns no rows with an error. */
    method GetUsers(fault: Option<DbError>) returns (rows: seq<User>, err: Option<DbError>)
      ensures err == fault
      ensures rows == if fault.Some? then [] else users
    {
      if fault.Some? {
        rows, err := [], fault;
      } else {
        rows, err := users, None;
      }
    }

    method CreateUser(u: User, reply: Option<DbError>) returns (err: Option<DbError>)
      modifies this
      ensures err == reply
      ensures users == if reply.None? then old(users) + [u] else old(users)
      ensures feeds == old(feeds) && follows == old(follows) && posts == old(posts)
    {
      err := reply;
      if reply.None? {
        users := users + [u];
      }
    }

    method DeleteAllUsers(fault: Option<DbError>) returns (err: Option<DbError>)
      modifies this
      ensures err == fault
      ensures users == if fault.None? then [] else old(users)
      ensures feeds == old(feeds) && follows == old(follows) && posts == old(posts)
    {
      err := fault;
      if fault.None? {
        users := [];
      }
    }

    method CreateFeed(f: Feed, reply: Option<DbError>) returns (err: Option<DbError>)
      modifies this
      ensures err == reply
      ensures feeds == if reply.None? then old(feeds)[f.id := f] else old(feeds)
      ensures users == old(users) && follows == old(follows) && posts == old(posts)
    {
      err := reply;
      if reply.None? {
        feeds := feeds[f.id := f];
      }
    }

    method MarkFeedFetched(id: Uuid, now: Instant, fault: Option<DbError>) returns (err: Option<DbError>)
      modifies this
      ensures err == fault
      ensures feeds == if fault.None? then Marked(old(feeds), id, now) else old(feeds)
      ensures users == old(users) && follows == old(follows) && posts == old(posts)
    {
      err := fault;
      if fault.None? {
        feeds := Marked(feeds, id, now);
      }
    }

    method CreateFeedFollow(f: Follow, reply: Option<DbError>) returns (err: Option<DbError>)
      modifies this
      ensures err == reply
      ensures follows == if reply.None? then old(follows) + {f} else old(follows)
      ensures users == old(users) && feeds == old(feeds) && posts == old(posts)
    {
      err := reply;
      if reply.None? {
        follows := follows + {f};
      }
    }

    method DeleteFeedFollowRow(f: Follow, fault: Option<DbError>) returns (err: Option<DbError>)
      modifies this
      ensures err == fault
      ensures follows == if fault.None? then old(follows) - {f} else old(follows)
      ensures users == old(users) && feeds == old(feeds) && posts == old(posts)
    {
      err := fault;
      if fault.None? {
        follows := follows - {f};
      }
    }

    method CreatePost(p: Post, policy: PostPolicy) returns (err: Option<DbError>)
      modifies this
      ensures err == policy(old(posts), p)
      ensures posts == if err.None? then old(posts)[p.url := p] else old(posts)
      ensures users == old(users) && feeds == old(feeds) && follows == old(follows)
    {
      err := policy(posts, p);
      if err.None? {
        posts := posts[p.url := p];
      }
    }
  }

  /** The configuration file's state; SetUser is the field update (the file
      write that follows it is not modelled). */
  class Config {
    var currentUserName: string

    constructor (name: string)
      ensures currentUserName == name
    {
      currentUserName := name;
    }

    method SetUser(name: string)
      modifies this
      ensures currentUserName == name
    {
      currentUserName := name;
    }
  }
}
