/** What the order of a bring-up's phases means, for bring-ups that succeed and for those that do not, and what
    clearing does to the servers (cluster/manager.go:101-150, :376-422). */
module BringupTheorems {
  import opened Basics
  import opened Pools
  import opened BringupTrace
  import Dismantle
  import EarlyExit

  // ---------- Where a call lies ----------

  ghost predicate Prefix(a: seq<Event>, b: seq<Event>, j: nat) {
    j <= |b| && |a| <= j && a == b[..|a|]
  }

  lemma {:induction false} PrefixPhases(phases: seq<seq<Event>>, k: nat)
    requires k <= |phases|
    ensures |Flat(phases[..k])| <= |Flat(phases)| && Flat(phases)[..|Flat(phases[..k])|] == Flat(phases[..k])
  {
    if k < |phases| {
      var init := phases[..|phases| - 1];
      PrefixPhases(init, k);
      assert init[..k] == phases[..k];
    } else {
      assert phases[..k] == phases;
    }
  }

  lemma EndsBy(phases: seq<seq<Event>>, k: nat, m: nat)
    requires k < m <= |phases|
    ensures |Flat(phases[..k])| + |phases[k]| <= |Flat(phases[..m])|
    ensures k + 1 == m ==> |Flat(phases[..k])| + |phases[k]| == |Flat(phases[..m])|
  {
    var some := phases[..m];
    PrefixPhases(some, k + 1);
    assert some[..k + 1] == phases[..k + 1] && phases[..k + 1][..k] == phases[..k];
    assert k + 1 == m ==> some[..k + 1] == some;
  }

  /** Each call is in some phase, with all earlier phases before it. */
  lemma {:induction false} Locate(phases: seq<seq<Event>>, j: nat) returns (k: nat)
    requires j < |Flat(phases)|
    ensures k < |phases| && Flat(phases)[j] in phases[k] && Prefix(Flat(phases[..k]), Flat(phases), j)
    ensures j - |Flat(phases[..k])| < |phases[k]|
  {
    var n := |phases| - 1;
    var init := phases[..n];
    if j < |Flat(init)| {
      k := Locate(init, j);
      assert init[..k] == phases[..k];
    } else {
      k := n;
      assert Flat(phases)[j] == phases[n][j - |Flat(init)|];
    }
  }

  /** If a call cannot be of any phase up to k, these phases are complete and lie before it. */
  lemma Earlier(phases: seq<seq<Event>>, done: nat, replies: seq<PoolsReply>, config: Config, j: nat, k: nat)
    requires Reached(phases, done, replies, config) && j < |Flat(phases)|
    requires forall i: nat :: i <= k ==> !OfPhase(Flat(phases)[j], i)
    ensures k < done && k < |phases| && Complete(phases[k], k, replies, config)
    ensures Prefix(Flat(phases[..k]) + phases[k], Flat(phases), j)
  {
    hide Complete;
    var i := Locate(phases, j);
    assert AllOfPhase(phases[i], i);
    assert k < i;
    PrefixPhases(phases[..i], k + 1);
    assert phases[..i][..k + 1] == phases[..k + 1];
    assert phases[..k + 1][..k] == phases[..k];
  }

  lemma InPrefix(a: seq<Event>, b: seq<Event>, w: seq<Event>, j: nat)
    requires Prefix(a + b, w, j)
    ensures w[..j] == a + b + w[|a + b|..j]
    ensures forall e <- b :: e in w[..j]
  {
    forall e | e in b ensures e in w[..j] {
      assert e in a + b;
    }
  }

  // ---------- What comes before what ----------

  ghost predicate ClearedWithin(t: seq<Event>, group: seq<nat>) {
    exists from, to :: 0 <= from <= to <= |t| && Cleared(t[from..to], group)
  }

  lemma WithinLonger(before: seq<Event>, t: seq<Event>, after: seq<Event>, group: seq<nat>)
    requires ClearedWithin(t, group)
    ensures ClearedWithin(before + t + after, group)
  {
    hide Cleared;
    var from, to :| 0 <= from <= to <= |t| && Cleared(t[from..to], group);
    assert (before + t + after)[|before| + from..|before| + to] == t[from..to];
  }

  lemma {:induction false} WithinFlat(parts: seq<seq<Event>>, k: nat, group: seq<nat>)
    requires k < |parts| && Cleared(parts[k], group)
    ensures ClearedWithin(Flat(parts), group)
  {
    hide Cleared, ClearedWithin;
    var last := parts[|parts| - 1];
    var init := Flat(parts[..|parts| - 1]);
    if k == |parts| - 1 {
      WithinWhole(last, group);
      WithinLonger(init, last, [], group);
      assert init + last + [] == init + last;
    } else {
      WithinFlat(parts[..|parts| - 1], k, group);
      WithinLonger([], init, last, group);
      assert [] + init + last == init + last;
    }
  }

  lemma WithinWhole(t: seq<Event>, group: seq<nat>)
    requires Cleared(t, group)
    ensures ClearedWithin(t, group)
  {
    hide Cleared;
    assert t[0..|t|] == t;
  }

  lemma EachWithin(t: seq<Event>, replies: seq<PoolsReply>, uri: string)
    requires Clears(t, replies) && uri in Uris(replies, |replies|)
    ensures ClearedWithin(t, GroupOf(replies, |replies|, uri))
  {
    hide Cleared, ClearedWithin, Uris, GroupOf;
    var order, parts :| ClearsIn(t, replies, order, parts) && InOrder(order, Uris(replies, |replies|));
    assert uri in order;
    var k :| 0 <= k < |order| && order[k] == uri;
    WithinFlat(parts, k, GroupOf(replies, |replies|, uri));
  }

  /** By any call that sets the new cluster up, every old cluster has been cleared. */
  lemma SetupFollowsClears(
    phases: seq<seq<Event>>, done: nat, replies: seq<PoolsReply>, config: Config, j: nat, uri: string)
    requires Reached(phases, done, replies, config) && j < |Flat(phases)| && Flat(phases)[j].Setup?
    requires uri in Uris(replies, |replies|)
    ensures ClearedWithin(Flat(phases)[..j], GroupOf(replies, |replies|, uri))
  {
    hide ClearedWithin, Clears, Reached, Uris, GroupOf, Flat;
    Earlier(phases, done, replies, config, j, 2);
    var a, b, whole := Flat(phases[..2]), phases[2], Flat(phases);
    InPrefix(a, b, whole, j);
    EachWithin(b, replies, uri);
    WithinLonger(a, b, whole[|a + b|..j], GroupOf(replies, |replies|, uri));
  }

  function CountAdds(t: seq<Event>, node: nat): nat {
    if t == [] then 0 else (if t[0].AddNode? && t[0].node == node then 1 else 0) + CountAdds(t[1..], node)
  }

  /** Each node is added by one or two calls, the last of which succeeds. */
  lemma {:induction false} EachIsAdded(t: seq<Event>, i: nat, n: nat, node: nat)
    requires Adds(t, i, n)
    ensures i <= node < n ==> AddNode(node, Joined) in t && 1 <= CountAdds(t, node) <= 2
    ensures !(i <= node < n) ==> CountAdds(t, node) == 0
    decreases n - i
  {
    if i < n {
      if t[0] == AddNode(i, Joined) {
        EachIsAdded(t[1..], i + 1, n, node);
        assert t == [t[0]] + t[1..];
      } else {
        EachIsAdded(t[2..], i + 1, n, node);
        assert t == [t[0], t[1]] + t[2..];
        assert t[1..] == [t[1]] + t[2..];
      }
    }
  }

  /** By any AddNode, every other node has reported that it is ready to join. */
  lemma AddsFollowJoins(
    phases: seq<seq<Event>>, done: nat, replies: seq<PoolsReply>, config: Config, j: nat, node: nat)
    requires Reached(phases, done, replies, config) && j < |Flat(phases)| && Flat(phases)[j].AddNode?
    requires 0 < node < |replies|
    ensures JoinReport(node, None) in Flat(phases)[..j]
  {
    hide Reached, Flat;
    Earlier(phases, done, replies, config, j, 4);
    InPrefix(Flat(phases[..4]), phases[4], Flat(phases), j);
  }

  function CountRebalances(t: seq<Event>): nat {
    if t == [] then 0 else (if t[0].Rebalance? then 1 else 0) + CountRebalances(t[1..])
  }

  /** By any rebalance, every other node has been added, by one call or two; once the rebalances are over there
      were one or two, two exactly after a first poll that failed. */
  lemma RebalancesFollowAdds(
    phases: seq<seq<Event>>, done: nat, replies: seq<PoolsReply>, config: Config, j: nat, node: nat)
    requires Reached(phases, done, replies, config) && j < |Flat(phases)| && Flat(phases)[j].Rebalance?
    requires 0 < node < |replies|
    ensures AddNode(node, Joined) in Flat(phases)[..j]
    ensures |phases| > 5 && 1 <= CountAdds(phases[5], node) <= 2
    ensures done > 6 ==>
              && |phases| > 6 && |phases[6]| > 1
              && CountRebalances(phases[6]) == if phases[6][1] == PollRebalance(true) then 1 else 2
  {
    hide Flat;
    Earlier(phases, done, replies, config, j, 5);
    InPrefix(Flat(phases[..5]), phases[5], Flat(phases), j);
    EachIsAdded(phases[5], 1, |replies|, node);
    if done > 6 {
      CompleteSeventh(phases, done, replies, config);
      CountsRebalances(phases[6]);
    }
  }

  lemma CompleteSeventh(phases: seq<seq<Event>>, done: nat, replies: seq<PoolsReply>, config: Config)
    requires Reached(phases, done, replies, config) && done > 6
    ensures Rebalances(phases[6])
  {
    assert Complete(phases[6], 6, replies, config);
  }

  lemma {:induction false} CountsRebalances(t: seq<Event>)
    requires Rebalances(t)
    ensures CountRebalances(t) == if t[1] == PollRebalance(true) then 1 else 2
  {
    CountsPair(t);
    if |t| == 4 {
      CountsPair(t[2..]);
      assert t[2..][2..] == [];
    } else {
      assert t[2..] == [];
    }
  }

  lemma CountsPair(t: seq<Event>)
    requires |t| >= 2 && t[0].Rebalance? && t[1].PollRebalance?
    ensures CountRebalances(t) == 1 + CountRebalances(t[2..])
  {
    assert t[1..][0] == t[1] && t[1..][1..] == t[2..];
    assert CountRebalances(t) == 1 + CountRebalances(t[1..]);
  }

  /** By the creation of a bucket, all rebalances and their polls are over, and no rebalance or AddNode follows. */
  lemma BucketFollowsRebalances(phases: seq<seq<Event>>, done: nat, replies: seq<PoolsReply>, config: Config, j: nat)
    requires Reached(phases, done, replies, config) && j < |Flat(phases)| && Flat(phases)[j].CreateBucket?
    ensures |phases| == 8 && Rebalances(phases[6]) && forall e <- phases[6] :: e in Flat(phases)[..j]
    ensures forall i :: j <= i < |Flat(phases)| ==> !Flat(phases)[i].Rebalance? && !Flat(phases)[i].AddNode?
  {
    Earlier(phases, done, replies, config, j, 6);
    InPrefix(Flat(phases[..6]), phases[6], Flat(phases), j);
    hide Flat, Complete, Rebalances;
    forall i | j <= i < |Flat(phases)| ensures !Flat(phases)[i].Rebalance? && !Flat(phases)[i].AddNode? {
      AfterSeven(phases, done, replies, config, i, j);
    }
  }

  lemma AfterSeven(
    phases: seq<seq<Event>>, done: nat, replies: seq<PoolsReply>, config: Config, i: nat, j: nat)
    requires Reached(phases, done, replies, config) && j <= i < |Flat(phases)| && Flat(phases)[j].CreateBucket?
    ensures OfPhase(Flat(phases)[i], 7)
  {
    hide Complete;
    Earlier(phases, done, replies, config, j, 6);
    var k := Locate(phases, i);
    assert AllOfPhase(phases[k], k);
    if k < 7 {
      EndsBy(phases, k, 7);
      EndsBy(phases, 6, 7);
    }
  }

  // ---------- What is set up ----------

  function Place(call: SetupCall): nat {
    match call
    case Quota => 0
    case Rename => 1
    case Services => 2
    case SetQuota => 3
    case StorageMode => 4
    case Provision => 5
    case User => 6
  }

  lemma RequiredInOrder(config: Config, major: int)
    ensures forall j, k :: 0 <= j < k < |Required(config, major)| ==>
              Place(Required(config, major)[j]) < Place(Required(config, major)[k])
  {}

  /** When the entry node has been prepared, its version was read, and the set-up calls were made in this order and
      each once at most: both quotas, the services and the provisioning always, the host name, the storage mode and
      the user exactly if they are configured, the user only from version 5 on. */
  lemma SetupCallsAre(phases: seq<seq<Event>>, done: nat, replies: seq<PoolsReply>, config: Config)
    requires Reached(phases, done, replies, config) && done > 3
    ensures |phases| > 3 && phases[3] != [] && phases[3][0].Info? && phases[3][0].node == 0
    ensures forall k :: 0 < k < |phases[3]| ==> phases[3][k].Setup? && phases[3][k].ok
    ensures forall j, k :: 0 < j < k < |phases[3]| ==> Place(phases[3][j].call) < Place(phases[3][k].call)
    ensures phases[3][0].reply.Some? && phases[3][0].reply.value.major.Some?
    ensures var t, major := phases[3], phases[3][0].reply.value.major.value;
            && Setup(Quota, true) in t && Setup(Services, true) in t && Setup(SetQuota, true) in t
            && Setup(Provision, true) in t
            && (Setup(Rename, true) in t <==> config.useHostname)
            && (Setup(StorageMode, true) in t <==> config.storageMode != "")
            && (Setup(User, true) in t <==> major >= 5 && config.userName != "")
  {
    hide Reached, Prepared, Place;
    PreparedPhase(phases, done, replies, config);
    VersionIsRead(phases[3], config);
    PreparedCalls(phases[3], config, phases[3][0].reply.value.major.value);
  }

  lemma VersionIsRead(t: seq<Event>, config: Config)
    requires Prepared(t, config)
    ensures t != [] && t[0].Info? && t[0].node == 0 && t[0].reply.Some? && t[0].reply.value.major.Some?
  {}

  lemma PreparedCalls(t: seq<Event>, config: Config, major: int)
    requires Prepared(t, config) && t != [] && t[0].Info? && t[0].reply.Some? && t[0].reply.value.major == Some(major)
    ensures forall k :: 0 < k < |t| ==> t[k].Setup? && t[k].ok
    ensures forall j, k :: 0 < j < k < |t| ==> Place(t[j].call) < Place(t[k].call)
    ensures forall call :: Setup(call, true) in t <==>
              match call
              case Rename => config.useHostname
              case StorageMode => config.storageMode != ""
              case User => major >= 5 && config.userName != ""
              case _ => true
  {
    hide Required, Provisioning, Naming, Place;
    RequiredCalls(config, major);
    RequiredInOrder(config, major);
    var calls := Required(config, major);
    forall k | 0 < k < |t| ensures t[k] == Setup(calls[k - 1], true) {
      assert t[(k - 1) + 1] == Setup(calls[k - 1], true);
    }
    forall call ensures Setup(call, true) in t <==> call in calls {
      if call in calls {
        var k :| 0 <= k < |calls| && calls[k] == call;
        assert t[k + 1] == Setup(call, true);
      }
    }
  }

  lemma PreparedPhase(phases: seq<seq<Event>>, done: nat, replies: seq<PoolsReply>, config: Config)
    requires Reached(phases, done, replies, config) && done > 3
    ensures |phases| > 3 && Prepared(phases[3], config)
  {
    assert Complete(phases[3], 3, replies, config);
  }

  /** A bring-up that is complete has created a bucket exactly if one is configured, and enabled the developer
      preview exactly if that is. */
  lemma FinishCallsAre(phases: seq<seq<Event>>, replies: seq<PoolsReply>, config: Config)
    requires Reached(phases, 8, replies, config)
    ensures |phases| == 8
    ensures CreateBucket(true) in phases[7] <==> config.bucketName != ""
    ensures EnableDeveloperPreview(true) in phases[7] <==> config.useDevPreview
    ensures EnableDeveloperPreview(true) in phases[7] ==> exists node :: Probe(node, Some(ACTIVE)) in phases[7]
  {
    assert Complete(phases[7], 7, replies, config);
    var probes :| FinishesAfter(phases[7], |replies|, config, probes);
    hide Reached;
    if config.useDevPreview {
      var last := probes[|probes| - 1];
      assert last in phases[7] && last == Probe(last.node, Some(ACTIVE));
    }
  }

  // ---------- Bring-ups that should have failed ----------

  const LONE := PoolsReply(Some([]), Some(6))

  const PLAIN := Config(Some(1024), false, "", "", "", false)

  /** A bring-up of two servers that is complete, although both polls of its rebalances have failed. */
  lemma TwoFailedPollsComplete() returns (phases: seq<seq<Event>>)
    ensures Reached(phases, 8, [LONE, LONE], PLAIN) && phases[6] == BOTH_FAILED
  {
    var infos := [Info(0, Some(LONE)), Info(1, Some(LONE))];
    var stops := [StopRebalance(0, true), StopRebalance(1, true)];
    var calls := [Quota, Services, SetQuota, Provision];
    var setups := [Info(0, Some(LONE))] + seq(4, i requires 0 <= i < 4 => Setup(calls[i], true));
    var adds := [AddNode(1, Joined)];
    phases := [infos, stops, [], setups, [JoinReport(1, None)], adds, BOTH_FAILED, []];
    var replies := [LONE, LONE];
    NothingToClear(replies);
    assert Required(PLAIN, 6) == calls;
    assert Prepared(setups, PLAIN);
    assert adds[1..] == [] && Adds(adds, 1, 2);
    assert FinishesAfter([], 2, PLAIN, []);
    hide Clears, Prepared, Adds;
    AllComplete(phases, replies);
  }

  lemma NothingToClear(replies: seq<PoolsReply>)
    requires replies == [LONE, LONE]
    ensures Clears([], replies)
  {
    UriStep(replies, 0);
    UriStep(replies, 1);
    assert ClearsIn([], replies, [], []) && InOrder([], Uris(replies, 2));
  }

  lemma AllComplete(phases: seq<seq<Event>>, replies: seq<PoolsReply>)
    requires |phases| == 8 && |replies| == 2 && forall k :: 0 <= k < 8 ==> AllOfPhase(phases[k], k)
    requires Infos(phases[0], replies) && Stops(phases[1], 2) && Clears(phases[2], replies)
    requires Prepared(phases[3], PLAIN)
    requires Joins(phases[4], 2) && Adds(phases[5], 1, 2) && Rebalances(phases[6]) && Finishes(phases[7], 2, PLAIN)
    ensures Reached(phases, 8, replies, PLAIN)
  {
    hide Infos, Stops, Clears, Prepared, Joins, Adds, Rebalances, Finishes, Complete, AllOfPhase;
    forall k | 0 <= k < 8 ensures Complete(phases[k], k, replies, PLAIN) {
      Completes(phases[k], k, replies, PLAIN);
    }
  }

  /** A single server that reports a cluster in which it is not active any more: the search for an entry node finds
      none, and that is how clearing panics. */
  lemma InactiveServerPanics() returns (replies: seq<PoolsReply>, t: seq<Event>)
    ensures replies == [PoolsReply(Some([Some("/pools/default?uuid=1")]), Some(6))]
    ensures t == [Probe(0, Some("inactive_failed"))] && ClearsUntilPanic(t, replies)
    ensures NoneFound(GroupOf(replies, 1, "/pools/default?uuid=1"), i => Some("inactive_failed"))
  {
    var uri := "/pools/default?uuid=1";
    replies := [PoolsReply(Some([Some(uri)]), Some(6))];
    t := [Probe(0, Some("inactive_failed"))];
    UriStep(replies, 0);
    hide UriOf, Decoded;
    assert GroupOf(replies, 0, uri) == [];
    assert GroupOf(replies, 1, uri) == [0];
    assert NoEntry(t, [0]);
    assert ClearsIn([], replies, [], []);
    PanicsNow([], replies, [], [], uri, t);
    assert [] + t == t;
  }

  // ---------- What clearing does to the servers ----------

  /** The cluster each server is in.  A server ejects all others of its cluster; one that leaves is alone. */
  function After(members: map<nat, string>, t: seq<Event>): map<nat, string> {
    if t == [] then members else Effect(After(members, t[..|t| - 1]), t[|t| - 1])
  }

  function Effect(members: map<nat, string>, e: Event): map<nat, string> {
    if e.FailOverAndEjectAll? && e.ok && e.node in members then
      map i <- members | i == e.node || members[i] != members[e.node] :: members[i]
    else if e.Leave? && e.ok then members - {e.node}
    else members
  }

  function Without(members: map<nat, string>, uris: set<string>): map<nat, string> {
    map i <- members | members[i] !in uris :: members[i]
  }

  lemma {:induction false} AfterBoth(members: map<nat, string>, a: seq<Event>, b: seq<Event>)
    ensures After(members, a + b) == After(After(members, a), b)
  {
    if b == [] {
      assert a + b == a;
    } else {
      assert (a + b)[..|a + b| - 1] == a + b[..|b| - 1];
      AfterBoth(members, a, b[..|b| - 1]);
    }
  }

  lemma {:induction false} AfterNothing(members: map<nat, string>, t: seq<Event>)
    requires forall e <- t :: !e.FailOverAndEjectAll? && !e.Leave?
    ensures After(members, t) == members
  {
    if t != [] {
      AfterNothing(members, t[..|t| - 1]);
      assert t[|t| - 1] in t;
    }
  }

  /** Clearing one group empties its cluster, also of servers that are not in the list, and touches no other.  This
      takes the effect of the calls for granted; EjectAllIsDismantle says when the code has it: the entry node's
      remembered list must be current, and an error of Update would go unnoticed (cluster/manager.go:337). */
  lemma {:induction false} ClearedIsGone(members: map<nat, string>, t: seq<Event>, group: seq<nat>, uri: string)
    requires Cleared(t, group) && forall i <- group :: i in members && members[i] == uri
    ensures After(members, t) == Without(members, {uri})
  {
    var ep, names :| ClearedBy(t, group, ep, names);
    var at := |t| - |names| - 4;
    var init := t[..|t| - 2];
    forall i | 0 <= i < |init| ensures !init[i].FailOverAndEjectAll? && !init[i].Leave? {
      if at + 2 <= i {
        assert t[at + 2 + (i - at - 2)] == DeleteBucket(ep, names[i - at - 2], true);
      } else if i <= at {
        assert t[..at + 1][i].Probe?;
      }
    }
    AfterNothing(members, init);
    assert t[..|t| - 1][..|t| - 2] == init;
    assert After(members, t[..|t| - 1]) == Effect(members, FailOverAndEjectAll(ep, true));
  }

  ghost predicate Consistent(members: map<nat, string>, replies: seq<PoolsReply>) {
    forall i: nat :: i < |replies| && UriOf(replies, i) != "" ==> i in members && members[i] == UriOf(replies, i)
  }

  /** Whatever order the groups are cleared in, what is left is the servers of the other clusters. */
  lemma ClearingOrderIsIrrelevant(members: map<nat, string>, replies: seq<PoolsReply>, t: seq<Event>)
    requires Clears(t, replies) && Consistent(members, replies)
    ensures After(members, t) == Without(members, Uris(replies, |replies|))
  {
    hide Consistent, Uris, After;
    var order, parts :| ClearsIn(t, replies, order, parts) && InOrder(order, Uris(replies, |replies|));
    EachGone(members, replies, t, order, parts);
    assert (set uri <- order) == Uris(replies, |replies|);
  }

  lemma {:induction false} EachGone(
    members: map<nat, string>, replies: seq<PoolsReply>, t: seq<Event>, order: seq<string>, parts: seq<seq<Event>>)
    requires ClearsIn(t, replies, order, parts) && Consistent(members, replies)
    ensures After(members, t) == Without(members, set uri <- order)
    decreases |parts|
  {
    hide Cleared, After, Consistent;
    if parts == [] {
      AfterNothing(members, t);
    } else {
      var n := |parts| - 1;
      var init := order[..n];
      EachGone(members, replies, Flat(parts[..n]), init, parts[..n]);
      var now := Without(members, set uri <- init);
      AfterBoth(members, Flat(parts[..n]), parts[n]);
      GroupRemains(members, replies, init, order[n]);
      ClearedIsGone(now, parts[n], GroupOf(replies, |replies|, order[n]), order[n]);
      assert order == init + [order[n]];
    }
  }

  lemma GroupRemains(members: map<nat, string>, replies: seq<PoolsReply>, gone: seq<string>, uri: string)
    requires Consistent(members, replies) && uri !in gone && uri != ""
    ensures forall i <- GroupOf(replies, |replies|, uri) ::
              i in Without(members, set u <- gone) && Without(members, set u <- gone)[i] == uri
    ensures Without(Without(members, set u <- gone), {uri}) == Without(members, set u <- gone + [uri])
  {
    GroupMembers(replies, |replies|, uri);
  }

  /** What a successful FailOverAndEjectAll is taken to do to the servers is what its goroutines do in every run
      that returns nil: of all servers, exactly those are gone that they have ejected.  The list that they work
      through is the one that the entry node remembers, and it must be that of its cluster. */
  lemma EjectAllIsDismantle(
    members: map<nat, string>, entry: nat, name: nat -> string, nodeId: string,
    listed: seq<Dismantle.RespNode>, ss: seq<Dismantle.State>)
    requires Dismantle.Run(ss, nodeId, listed) && Dismantle.Last(ss).fan.result == Some(None)
    requires entry in members && forall i <- members, j <- members :: name(i) == name(j) ==> i == j
    requires forall i <- members :: members[i] == members[entry] <==> exists n <- listed :: n.otpNode == name(i)
    requires forall n <- listed :: n.hostName == nodeId <==> n.otpNode == name(entry)
    ensures forall i <- members ::
              i !in Effect(members, FailOverAndEjectAll(entry, true))
              <==> Dismantle.Eject(name(i), true) in Dismantle.Last(ss).trace
  {
    var trace := Dismantle.Last(ss).trace;
    Dismantle.NilMeansDismantled(ss, nodeId, listed);
    forall i | i in members && Dismantle.Eject(name(i), true) in trace
      ensures members[i] == members[entry] && i != entry
    {
      EjectedIsListed(nodeId, listed, ss, name(i));
    }
  }

  lemma EjectedIsListed(nodeId: string, listed: seq<Dismantle.RespNode>, ss: seq<Dismantle.State>, otp: string)
    requires Dismantle.Run(ss, nodeId, listed) && Dismantle.Eject(otp, true) in Dismantle.Last(ss).trace
    ensures exists n <- listed :: n.otpNode == otp && n.hostName != nodeId
  {
    Dismantle.RunInv(ss, nodeId, listed);
    Dismantle.AuxMembers(nodeId, listed);
    var last := Dismantle.Last(ss);
    var k :| 0 <= k < |last.trace| && last.trace[k] == Dismantle.Eject(otp, true);
    assert Dismantle.Names(last.aux, last.trace[k].otp);
  }

  // ---------- The reports of the join polls ----------

  /** The report that one step of the collector takes; worker i polls node i + 1. */
  ghost function Taken(s: EarlyExit.State, s': EarlyExit.State): seq<Event> {
    if exists i: nat :: Sends(s, s', i) then
      var i: nat :| Sends(s, s', i);
      [JoinReport(i + 1, s'.workers[i].report)]
    else []
  }

  ghost predicate Sends(s: EarlyExit.State, s': EarlyExit.State, i: nat) {
    i < |s.workers| && i < |s'.workers| && !s.workers[i].Sent? && s'.workers[i].Sent?
  }

  ghost function Reports(ss: seq<EarlyExit.State>): seq<Event> {
    if |ss| <= 1 then [] else Reports(ss[..|ss| - 1]) + Taken(ss[|ss| - 2], ss[|ss| - 1])
  }

  lemma TakenIsSent(s: EarlyExit.State, s': EarlyExit.State)
    requires s.capacity == 0 && EarlyExit.Next(s, s')
    ensures |s'.workers| == |s.workers|
    ensures forall i: nat :: i < |s.workers| && s.workers[i].Sent? ==> s'.workers[i] == s.workers[i]
    ensures forall i: nat :: Sends(s, s', i) ==> Taken(s, s') == [JoinReport(i + 1, s'.workers[i].report)]
    ensures forall e <- Taken(s, s') ::
              e.JoinReport? && 0 < e.node <= |s'.workers| && s'.workers[e.node - 1] == EarlyExit.Sent(e.report)
  {
    forall i: nat, k: nat | Sends(s, s', i) && Sends(s, s', k) ensures i == k {}
  }

  /** The reports taken are just those sent, each the report of its worker. */
  lemma {:induction false} ReportsAreSent(ss: seq<EarlyExit.State>)
    requires EarlyExit.Run(ss) && ss[0].capacity == 0
    ensures var ws := EarlyExit.Last(ss).workers;
            && (forall i: nat :: i < |ws| && ws[i].Sent? ==> JoinReport(i + 1, ws[i].report) in Reports(ss))
            && (forall e <- Reports(ss) ::
                  e.JoinReport? && 0 < e.node <= |ws| && ws[e.node - 1] == EarlyExit.Sent(e.report))
  {
    if |ss| > 1 {
      var n := |ss| - 1;
      var init := ss[..n];
      ReportsAreSent(init);
      EarlyExit.RunInv(init);
      assert EarlyExit.Next(ss[n - 1], ss[(n - 1) + 1]);
      hide EarlyExit.Next;
      TakenIsSent(ss[n - 1], ss[n]);
      var ws := ss[n].workers;
      forall i: nat | i < |ws| && ws[i].Sent? ensures JoinReport(i + 1, ws[i].report) in Reports(ss) {
        assert ss[n - 1].workers[i].Sent? || Sends(ss[n - 1], ss[n], i);
      }
    }
  }

  /** A collector without a buffer that returns nil has taken the reports that complete the phase: the goroutines
      of the join polls do what PollJoinReadyAll says of them. */
  lemma PollsComplete(ss: seq<EarlyExit.State>)
    requires EarlyExit.Run(ss) && ss[0].capacity == 0 && EarlyExit.Last(ss).result == Some(None)
    ensures Joins(Reports(ss), |ss[0].workers| + 1)
  {
    ReportsAreSent(ss);
    EarlyExit.NilMeansAllNil(ss);
    EarlyExit.RunInv(ss);
    var ws := EarlyExit.Last(ss).workers;
    forall i: nat | 0 < i < |ws| + 1 ensures JoinReport(i, None) in Reports(ss) {
      assert ws[i - 1] == EarlyExit.Sent(None);
    }
  }
}
