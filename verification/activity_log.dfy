/** The in-memory activity log: newest entry first, no cap, and a `clear`. */
module ActivityLog {

  import opened Seqs

  /** What a mutation did. */
  datatype EntryKind = Add | Edit | Delete

  /** One log entry; `id` and `at` come from `crypto.randomUUID()` and
      `Date.now()` at the call site. */
  datatype ActivityEntry = ActivityEntry(id: string, kind: EntryKind, message: string, at: int)

  /** The store's state. */
  datatype Log = Log(entries: seq<ActivityEntry>)

  /** The store starts with no entries. */
  const Initial := Log([])

  /** `addEntry(e)`: `e` goes in front of everything already logged. */
  function AddEntry(log: Log, e: ActivityEntry): (r: Log)
    ensures |r.entries| == |log.entries| + 1
    ensures r.entries[0] == e && r.entries[1..] == log.entries
  {
    Log([e] + log.entries)
  }

  /** `clear()`: the log becomes empty. */
  function Clear(log: Log): (r: Log)
    ensures r.entries == []
  {
    Initial
  }

  /** Adding several entries in turn, oldest first. */
  function AddAll(log: Log, es: seq<ActivityEntry>): Log
    decreases |es|
  {
    if |es| == 0 then log else AddAll(AddEntry(log, es[0]), es[1..])
  }

  /** After adding `es` one by one the log holds them newest first, in front
      of the earlier entries; nothing is ever dropped. */
  lemma {:induction false} AddAllNewestFirst(log: Log, es: seq<ActivityEntry>)
    ensures AddAll(log, es).entries == Reverse(es) + log.entries
    ensures |AddAll(log, es).entries| == |log.entries| + |es|
    decreases |es|
  {
    if |es| > 0 {
      AddAllNewestFirst(AddEntry(log, es[0]), es[1..]);
      assert Reverse(es) == Reverse(es[1..]) + [es[0]];
    }
  }

  /** Clearing twice is clearing once; clearing returns the initial state. */
  lemma ClearIdempotent(log: Log)
    ensures Clear(Clear(log)) == Clear(log) == Initial
  {
  }
}
