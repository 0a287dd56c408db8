/** The current (display-only) user. */
module AuthStore {

  import opened Optional

  /** The projection of a `User` the navbar shows. */
  datatype LoggedInUser = LoggedInUser(id: int, name: string, email: string)

  /** The store's state; `None` is the source's `null`. */
  datatype Auth = Auth(user: Option<LoggedInUser>)

  /** Nobody at start. */
  const Initial := Auth(None)

  /** `setUser(u)`. */
  function SetUser(a: Auth, u: LoggedInUser): (r: Auth)
    ensures r.user == Some(u)
  {
    Auth(Some(u))
  }

  /** The last `setUser` wins, and after any `setUser` there is a user. */
  lemma LastWriteWins(a: Auth, u: LoggedInUser, w: LoggedInUser)
    ensures SetUser(SetUser(a, u), w) == SetUser(a, w)
    ensures SetUser(a, u).user.Some?
    ensures Initial.user.None?
  {
  }
}
