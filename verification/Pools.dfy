/** Which cluster each server is taken to be in, from the replies to GET /pools (cluster/manager.go:103-123). */
module Pools {
  import opened Basics
  import opened JsonSlices

  /** The reply to GET /pools; `pools` is None if the reply has no such field, and holds the `uri` of each pool,
      None where the pool has no such field; null counts as no pools for the one and as no field for the other. */
  datatype PoolsReply = PoolsReply(pools: Option<seq<Option<string>>>, major: Option<int>)

  /** The URI that a reply itself reports. */
  function OwnUri(reply: PoolsReply): string {
    match reply.pools
    case Some(pools) => if pools != [] && pools[0].Some? then pools[0].value else ""
    case None => ""
  }

  function Kept(kept: string, own: Option<string>): string {
    if own.Some? then own.value else kept
  }

  /** One RefInfo is decoded into for all nodes: what is in its Pools after the first n replies. */
  function Decoded(replies: seq<PoolsReply>, n: nat): Slice<string>
    requires n <= |replies|
  {
    if n == 0 then Slice([], [])
    else
      var before := Decoded(replies, n - 1);
      if replies[n - 1].pools.Some? then Decode(before, replies[n - 1].pools.value, "", Kept) else before
  }

  function FirstUri(pools: Slice<string>): string {
    if |pools.list| > 0 then pools.list[0] else ""
  }

  /** The URI that node i counts for. */
  function UriOf(replies: seq<PoolsReply>, i: nat): string
    requires i < |replies|
  {
    FirstUri(Decoded(replies, i + 1))
  }

  /** The nodes among the first n that count for one URI, in order. */
  function GroupOf(replies: seq<PoolsReply>, n: nat, uri: string): seq<nat>
    requires n <= |replies|
  {
    if n == 0 then []
    else GroupOf(replies, n - 1, uri) + (if UriOf(replies, n - 1) == uri then [n - 1] else [])
  }

  lemma {:induction false} GroupMembers(replies: seq<PoolsReply>, n: nat, uri: string)
    requires n <= |replies|
    ensures forall i: nat :: i in GroupOf(replies, n, uri) <==> i < n && UriOf(replies, i) == uri
    ensures forall j, k :: 0 <= j < k < |GroupOf(replies, n, uri)| ==>
              GroupOf(replies, n, uri)[j] < GroupOf(replies, n, uri)[k]
  {
    hide UriOf;
    if n > 0 {
      GroupMembers(replies, n - 1, uri);
      var g := GroupOf(replies, n - 1, uri);
      assert forall j :: 0 <= j < |g| ==> g[j] in g;
    }
  }

  function Uris(replies: seq<PoolsReply>, n: nat): set<string>
    requires n <= |replies|
  {
    set i: nat | i < n && UriOf(replies, i) != "" :: UriOf(replies, i)
  }

  /** The loop that fills existingCluster (cluster/manager.go:103-123), once all replies are in. */
  method GroupNodes(replies: seq<PoolsReply>) returns (existing: map<string, seq<nat>>)
    ensures existing.Keys == Uris(replies, |replies|)
    ensures forall uri <- existing :: existing[uri] == GroupOf(replies, |replies|, uri)
  {
    hide Uris, UriOf;
    existing := map[];
    UrisGrow(replies, 0);
    var pools := Slice([], []);
    for i := 0 to |replies|
      invariant pools == Decoded(replies, i)
      invariant existing.Keys == Uris(replies, i)
      invariant forall uri <- existing :: existing[uri] == GroupOf(replies, i, uri)
    {
      if replies[i].pools.Some? {
        pools := Decode(pools, replies[i].pools.value, "", Kept);
      }
      UrisGrow(replies, i);
      if |pools.list| > 0 && |pools.list[0]| > 0 {
        var uri := pools.list[0];
        if uri !in existing {
          NobodyThere(replies, i, uri);
        }
        existing := existing[uri := (if uri in existing then existing[uri] else []) + [i]];
      }
    }
  }

  lemma UrisGrow(replies: seq<PoolsReply>, i: nat)
    requires i <= |replies|
    ensures Uris(replies, 0) == {} && "" !in Uris(replies, i)
    ensures i < |replies| ==>
              && UriOf(replies, i) == FirstUri(Decoded(replies, i + 1))
              && var uri := UriOf(replies, i);
                 Uris(replies, i + 1) == Uris(replies, i) + (if uri != "" then {uri} else {})
  {
    if i < |replies| {
      var uri := UriOf(replies, i);
      assert uri != "" ==> uri in Uris(replies, i + 1);
    }
  }

  lemma {:induction false} NobodyThere(replies: seq<PoolsReply>, n: nat, uri: string)
    requires n <= |replies| && uri !in Uris(replies, n) && uri != ""
    ensures GroupOf(replies, n, uri) == []
  {
    if n > 0 {
      assert UriOf(replies, n - 1) in Uris(replies, n) || UriOf(replies, n - 1) == "";
      assert Uris(replies, n - 1) <= Uris(replies, n);
      NobodyThere(replies, n - 1, uri);
    }
  }

  /** Grouping is a partition: a node that counts for a URI is in that URI's group, once, and in no other. */
  lemma GroupsPartition(replies: seq<PoolsReply>, i: nat, uri: string)
    requires i < |replies|
    ensures multiset(GroupOf(replies, |replies|, uri))[i] == if UriOf(replies, i) == uri then 1 else 0
  {
    CountInGroup(replies, |replies|, i, uri);
  }

  lemma {:induction false} CountInGroup(replies: seq<PoolsReply>, n: nat, i: nat, uri: string)
    requires n <= |replies| && i < |replies|
    ensures multiset(GroupOf(replies, n, uri))[i] == if i < n && UriOf(replies, i) == uri then 1 else 0
  {
    hide UriOf, GroupOf;
    GroupStep(replies, n, uri);
    if n > 0 {
      CountInGroup(replies, n - 1, i, uri);
    }
  }

  lemma GroupStep(replies: seq<PoolsReply>, n: nat, uri: string)
    requires n <= |replies|
    ensures n == 0 ==> GroupOf(replies, n, uri) == []
    ensures n > 0 && UriOf(replies, n - 1) == uri ==> GroupOf(replies, n, uri) == GroupOf(replies, n - 1, uri) + [n - 1]
    ensures n > 0 && UriOf(replies, n - 1) != uri ==> GroupOf(replies, n, uri) == GroupOf(replies, n - 1, uri)
  {
    hide UriOf;
    if n > 0 && UriOf(replies, n - 1) != uri {
      assert GroupOf(replies, n - 1, uri) + [] == GroupOf(replies, n - 1, uri);
    }
  }

  // ---------- Whose URI it is ----------

  /** A reply decides what its node counts for if it has no pools at all in its list, or its first pool has a URI;
      any other reply leaves the URI of the node before. */
  predicate Decides(reply: PoolsReply) {
    reply.pools.Some? && (reply.pools.value == [] || reply.pools.value[0].Some?)
  }

  lemma {:induction false} DecodedTight(replies: seq<PoolsReply>, n: nat)
    requires n <= |replies|
    ensures Tight(Decoded(replies, n))
  {
    if n > 0 {
      DecodedTight(replies, n - 1);
    }
  }

  lemma UriStep(replies: seq<PoolsReply>, i: nat)
    requires i < |replies|
    ensures Decides(replies[i]) ==> UriOf(replies, i) == OwnUri(replies[i])
    ensures !Decides(replies[i]) ==> UriOf(replies, i) == (if i == 0 then "" else UriOf(replies, i - 1))
    ensures !Decides(replies[i]) ==> OwnUri(replies[i]) == ""
  {
    DecodedTight(replies, i);
    if replies[i].pools.Some? && replies[i].pools.value != [] {
      DecodedAt(Decoded(replies, i), replies[i].pools.value, "", Kept, 0);
    }
  }

  /** The last reply before node i's that decides. */
  ghost predicate LastDecides(replies: seq<PoolsReply>, j: nat, i: nat) {
    j < i <= |replies| && Decides(replies[j]) && forall k :: j < k < i ==> !Decides(replies[k])
  }

  /** A node counts for the URI of the last reply so far that decides. */
  lemma {:induction false} UriIsLastDecided(replies: seq<PoolsReply>, n: nat)
    requires 0 < n <= |replies|
    ensures forall j: nat :: LastDecides(replies, j, n) ==> UriOf(replies, n - 1) == OwnUri(replies[j])
    ensures UriOf(replies, n - 1) != "" ==> exists j: nat :: LastDecides(replies, j, n)
  {
    UriStep(replies, n - 1);
    hide UriOf, OwnUri, Decides;
    if Decides(replies[n - 1]) {
      assert LastDecides(replies, n - 1, n);
    } else if n > 1 {
      UriIsLastDecided(replies, n - 1);
      var m := n - 1;
      assert forall j: nat :: LastDecides(replies, j, n) ==> LastDecides(replies, j, m);
      if j: nat :| LastDecides(replies, j, m) {
        assert LastDecides(replies, j, n);
      }
    }
  }

  /** Every node counts for the URI it reported itself exactly when, before each reply that does not decide, the
      last one that does, if there is one, reports no URI. */
  lemma OwnUriIff(replies: seq<PoolsReply>)
    ensures (forall i: nat :: i < |replies| ==> UriOf(replies, i) == OwnUri(replies[i]))
            <==> (forall i: nat, j: nat :: i < |replies| && !Decides(replies[i]) && LastDecides(replies, j, i) ==>
                    OwnUri(replies[j]) == "")
  {
    forall i: nat | i < |replies|
      ensures UriOf(replies, i) == OwnUri(replies[i])
              <==> (!Decides(replies[i]) ==> forall j: nat :: LastDecides(replies, j, i) ==> OwnUri(replies[j]) == "")
    {
      UriStep(replies, i);
      UriIsLastDecided(replies, i + 1);
      if !Decides(replies[i]) {
        assert forall j: nat :: LastDecides(replies, j, i) <==> LastDecides(replies, j, i + 1);
      }
    }
  }

  /** A server that is in no cluster, but says so by leaving `pools` out, is taken for a member of the cluster
      before it; and so is one with a pool that has no `uri`. */
  lemma StalePoolsMisgroup(second: PoolsReply)
    requires second in {PoolsReply(None, None), PoolsReply(Some([None]), None)}
    ensures var replies := [PoolsReply(Some([Some("/pools/default?uuid=1")]), None), second];
            GroupOf(replies, 2, "/pools/default?uuid=1") == [0, 1] && OwnUri(second) == ""
  {
    var uri := "/pools/default?uuid=1";
    var replies := [PoolsReply(Some([Some(uri)]), None), second];
    UriStep(replies, 0);
    UriStep(replies, 1);
    hide UriOf;
    assert GroupOf(replies, 0, uri) == [];
    assert GroupOf(replies, 1, uri) == [0];
  }
}
