/** The query cache entry for `["users"]`, reduced to its data and a stale flag. */
module QueryCache {

  import opened Optional
  import opened Users

  /** `data` is `None` until something is fetched or written. */
  datatype Cache = Cache(data: Option<seq<User>>, stale: bool)

  /** `setQueryData(["users"], users)`: a manual write, which leaves the entry fresh. */
  function SetQueryData(c: Cache, users: seq<User>): (r: Cache)
    ensures r.data == Some(users) && !r.stale
  {
    Cache(Some(users), false)
  }

  /** `invalidateQueries({ queryKey: ["users"] })`: the data stays, marked stale. */
  function Invalidate(c: Cache): (r: Cache)
    ensures r.data == c.data && r.stale
  {
    c.(stale := true)
  }
}
