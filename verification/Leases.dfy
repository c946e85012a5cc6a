/** What the metadata store keeps about a cluster, seen as instants rather than as text
    (daemon/metadata.go).  Metadata.dfy shows that the store's text form means exactly this. */
module Leases {
  import opened Basics

  /** ClusterMeta with its timeout as nanoseconds since the Unix epoch. */
  datatype Lease = Lease(owner: string, timeout: int)

  type Table = map<string, Lease>

  /** 2222-01-01T00:00:00Z, the timeout of a cluster whose record cannot be read. */
  const DEFAULT_TIMEOUT := 7_952_342_400 * NANOS

  /** Go's zero time, 0001-01-01T00:00:00Z. */
  const ZERO_TIME := -62_135_596_800 * NANOS

  const DEFAULT_LEASE := Lease("unknown", DEFAULT_TIMEOUT)

  /** The second an instant falls in; this is all that the stored text keeps. */
  function Truncate(t: int): (r: int)
    ensures r % NANOS == 0
    ensures r <= t < r + NANOS
  {
    t - t % NANOS
  }

  predicate WholeSeconds(table: Table) {
    forall id <- table :: table[id].timeout % NANOS == 0
  }

  /** What one call of GetClusterMeta can come to: the record, an error (a missing key or a
      storage fault), or a panic inside the store that the deferred recover swallows. */
  datatype Outcome = Found(lease: Lease) | Failed | Panicked

  predicate Admissible(table: Table, id: string, out: Outcome) {
    out.Found? ==> id in table && table[id] == out.lease
  }

  /** The ClusterMeta that getAllClusters goes on with: the default on an error, and the zero
      value, without any error, after a recovered panic. */
  function ViewOf(out: Outcome): Lease {
    match out
    case Found(lease) => lease
    case Failed => DEFAULT_LEASE
    case Panicked => Lease("", ZERO_TIME)
  }

  /** The transaction of CreateClusterMeta: an existing record is never overwritten. */
  function CreateRecord(table: Table, id: string, owner: string, timeout: int): Result<Table, string> {
    if id in table then Err("cluster meta-data already existed")
    else Ok(table[id := Lease(owner, Truncate(timeout))])
  }

  /** The transaction of UpdateClusterMeta as refreshCluster uses it: the caller becomes the owner and
      the timeout moves only forwards. */
  function RefreshRecord(table: Table, id: string, owner: string, timeout: int): Result<Table, string> {
    if id !in table then Err("Key not found")
    else
      var kept := table[id].timeout;
      Ok(table[id := Lease(owner, Truncate(if kept < timeout then timeout else kept))])
  }

  /** No write of either kind shortens any lease, although each one drops the fraction of a second:
      what is stored is a whole second, so truncating anything later than it cannot go below it. */
  lemma WritesNeverShorten(table: Table, id: string, owner: string, timeout: int, after: Table)
    requires WholeSeconds(table)
    requires Ok(after) in {CreateRecord(table, id, owner, timeout), RefreshRecord(table, id, owner, timeout)}
    ensures WholeSeconds(after)
    ensures after.Keys == table.Keys + {id}
    ensures forall k <- table :: table[k].timeout <= after[k].timeout
    ensures forall k <- table :: k != id ==> after[k] == table[k]
    ensures after[id].owner == owner
    ensures timeout - NANOS < after[id].timeout
  {
    if id in table {
      TruncateMonotone(table[id].timeout, if table[id].timeout < timeout then timeout else table[id].timeout);
    }
  }

  lemma TruncateMonotone(whole: int, t: int)
    requires whole % NANOS == 0 && whole <= t
    ensures whole <= Truncate(t)
  {
    assert t % NANOS <= (t - whole) by {
      assert whole == (whole / NANOS) * NANOS;
    }
  }
}
