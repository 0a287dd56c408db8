/** The delete mutation and its optimistic patch. */
module DeleteUser {

  import opened Optional
  import opened Users
  import opened Seqs
  import opened ActivityLog
  import opened Optimistic

  /** `prev.filter((u) => u.id !== target)`: the order-preserving
      subsequence of every record with another id. */
  function DeletePatch(prev: seq<User>, target: int): (r: seq<User>)
    ensures forall u :: u in r ==> u.id != target
    ensures forall i :: 0 <= i < |prev| && prev[i].id != target ==> prev[i] in r
    ensures IsSubseq(r, prev)
    ensures |r| == |prev| - Count(prev, HasId(target))
  {
    var r := Filter(prev, (u: User) => u.id != target);
    CountComplement(prev, HasId(target), (u: User) => u.id != target);
    r
  }

  /** Deleting an id nobody has leaves the list exactly as it was. */
  lemma DeleteAbsentIsIdentity(prev: seq<User>, target: int)
    requires forall u :: u in prev ==> u.id != target
    ensures DeletePatch(prev, target) == prev
  {
    FilterAll(prev, (u: User) => u.id != target);
  }

  /** The log entry of the delete mutation. */
  function DeletedEntry(user: User, entryId: string, at: int): ActivityEntry
  {
    ActivityEntry(entryId, Delete, "Deleted user " + user.name, at)
  }

  /** The delete mutation for the record `user`. On success the cache holds
      the snapshot without that id; on failure exactly the snapshot; either
      way it is stale and the log has gained the "Deleted user" entry. */
  function DeleteUser(s: Store, user: User, entryId: string, at: int, outcome: RemoteOutcome): (r: Store)
    ensures r.cache.stale
    ensures r.log.entries == [ActivityEntry(entryId, Delete, "Deleted user " + user.name, at)] + s.log.entries
    ensures outcome == Confirmed ==> r.cache.data.Some? && forall u :: u in r.cache.data.value ==> u.id != user.id
    ensures outcome == Confirmed ==> r.cache.data == Some(DeletePatch(s.cache.data.GetOr([]), user.id))
    ensures outcome == Rejected ==> r.cache.data == Some(s.cache.data.GetOr([]))
  {
    Mutate(s, (prev: seq<User>) => DeletePatch(prev, user.id), DeletedEntry(user, entryId, at), outcome)
  }
}
