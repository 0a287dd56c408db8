/** The optimistic-update lifecycle shared by the create, edit and delete
    mutations: apply the patch and log the intent (`onMutate`), restore the
    captured snapshot on failure (`onError`), and always invalidate
    (`onSettled`). One mutation runs at a time. */
module Optimistic {

  import opened Optional
  import opened Users
  import opened QueryCache
  import opened ActivityLog

  /** The process-wide state a mutation touches: the users cache entry and the log. */
  datatype Store = Store(cache: Cache, log: Log)

  /** How the remote call ended: any network error or non-2xx status is a rejection. */
  datatype RemoteOutcome = Confirmed | Rejected

  /** `getQueryData(["users"]) || []`: the rollback point. */
  function Snapshot(s: Store): seq<User>
  {
    s.cache.data.GetOr([])
  }

  /** `onMutate`: capture the snapshot, write the patched list, log the
      intent. Returns the new store and the captured snapshot (`{ prev }`). */
  function OnMutate(s: Store, patch: seq<User> -> seq<User>, entry: ActivityEntry): (r: (Store, seq<User>))
    ensures r.1 == s.cache.data.GetOr([])
    ensures r.0.cache.data == Some(patch(r.1)) && !r.0.cache.stale
    ensures r.0.log.entries == [entry] + s.log.entries
  {
    var prev := Snapshot(s);
    (Store(SetQueryData(s.cache, patch(prev)), AddEntry(s.log, entry)), prev)
  }

  /** `onError`: `ctx.prev` is an array, always truthy, so the snapshot is
      written back; the log entry stays. */
  function OnError(s: Store, prev: seq<User>): (r: Store)
    ensures r.cache.data == Some(prev) && r.log == s.log
  {
    s.(cache := SetQueryData(s.cache, prev))
  }

  /** `onSettled`: runs on both outcomes and marks the entry stale. */
  function OnSettled(s: Store): (r: Store)
    ensures r.cache.data == s.cache.data && r.cache.stale && r.log == s.log
  {
    s.(cache := Invalidate(s.cache))
  }

  /** A whole mutation: apply, then confirm or roll back, then invalidate. */
  function Mutate(s: Store, patch: seq<User> -> seq<User>, entry: ActivityEntry, outcome: RemoteOutcome): (r: Store)
    ensures r.cache.stale
    ensures r.log.entries == [entry] + s.log.entries
    ensures outcome == Confirmed ==> r.cache.data == Some(patch(s.cache.data.GetOr([])))
    ensures outcome == Rejected ==> r.cache.data == Some(s.cache.data.GetOr([]))
    ensures outcome == Rejected && s.cache.data.Some? ==> r.cache == s.cache.(stale := true)
  {
    var (applied, prev) := OnMutate(s, patch, entry);
    var settled := if outcome == Rejected then OnError(applied, prev) else applied;
    OnSettled(settled)
  }

  /** Rolling back a mutation that started from an empty cache leaves an
      empty list, not an empty cache: `prev` defaulted to `[]`. */
  lemma RollbackFromEmptyCache(s: Store, patch: seq<User> -> seq<User>, entry: ActivityEntry)
    requires s.cache.data.None?
    ensures Mutate(s, patch, entry, Rejected).cache.data == Some([])
  {
  }
}
