/** Taking the old clusters of some servers apart and building one new cluster of them
    (cluster/manager.go:101-150, :174-297, :333-422).  The servers are a trace of calls and answers. */
module Bringup {
  import opened Basics
  import opened Pools
  import opened BringupTrace

  function UpTo(n: nat): (r: set<nat>)
    ensures forall i: nat :: i in r <==> i < n
  {
    if n == 0 then {} else UpTo(n - 1) + {n - 1}
  }

  class Manager {
    const count: nat
    const config: Config
    var epNode: nat
    var trace: seq<Event>

    constructor (count: nat, config: Config)
      ensures this.count == count && this.config == config && trace == [] && epNode == 0
    {
      this.count, this.config := count, config;
      epNode, trace := 0, [];
    }

    /** Some server's yes or no. */
    method Answer() returns (ok: bool) {
      ok := *;
    }

    method GetInfo(node: nat) returns (reply: Option<PoolsReply>)
      modifies this`trace
      ensures trace == old(trace) + [Info(node, reply)]
    {
      reply := *;
      trace := trace + [Info(node, reply)];
    }

    /** The first node of a group that is an active member (cluster/manager.go:333-351), or None for an error;
        `says` is what each node remembers of its membership, None where Membership fails. */
    method GetEpNode(nodes: seq<nat>, says: nat -> Option<string>) returns (ep: Option<nat>, ghost t: seq<Event>)
      modifies this`trace
      ensures trace == old(trace) + t && Probes(t, nodes) && forall e <- t :: e.Probe?
      ensures ep.Some? <==> EndsActive(t)
      ensures ep.Some? ==> ep.value in nodes && t[|t| - 1].node == ep.value
      ensures ep.None? ==> NoEntry(t, nodes) && forall e <- t :: e.membership != Some(ACTIVE)
      ensures ep.None? <==> NoneFound(nodes, says)
    {
      ep, t := None, [];
      for i := 0 to |nodes|
        invariant trace == old(trace) + t && |t| == i
        invariant forall k :: 0 <= k < i ==> t[k] == Probe(nodes[k], says(nodes[k]))
        invariant forall k :: 0 <= k < i ==> says(nodes[k]).Some? && says(nodes[k]) != Some(ACTIVE)
      {
        var membership := says(nodes[i]);
        trace := trace + [Probe(nodes[i], membership)];
        t := t + [Probe(nodes[i], membership)];
        if !membership.Some? {
          return;
        }
        if membership.value == ACTIVE {
          ep := Some(nodes[i]);
          return;
        }
      }
    }

    method DeleteBuckets(ep: nat, names: seq<string>, deletes: string -> bool) returns (ok: bool, ghost t: seq<Event>)
      modifies this`trace
      ensures trace == old(trace) + t && AllOfPhase(t, 2)
      ensures ok <==> forall name <- names :: deletes(name)
      ensures ok ==> Deletes(t, ep, names)
      ensures !ok ==> t != [] && t[|t| - 1].DeleteBucket?
    {
      t := [];
      for i := 0 to |names|
        invariant trace == old(trace) + t && Deletes(t, ep, names[..i]) && AllOfPhase(t, 2)
        invariant forall k :: 0 <= k < i ==> deletes(names[k])
      {
        ok := deletes(names[i]);
        trace := trace + [DeleteBucket(ep, names[i], ok)];
        t := t + [DeleteBucket(ep, names[i], ok)];
        if !ok {
          assert names[i] in names;
          return;
        }
      }
      assert names[..|names|] == names;
      ok := true;
    }

    /** What clearSingleCluster does once it has its entry node (cluster/manager.go:380-421). */
    method Strip(ep: nat, answers: StripAnswers) returns (ok: bool, ghost t: seq<Event>)
      modifies this`trace
      ensures trace == old(trace) + t && AllOfPhase(t, 2)
      ensures t != [] && t[0].Buckets? && !t[|t| - 1].Probe?
      ensures ok <==> Strips(answers)
      ensures ok ==> Stripped(t, ep) && t[|t| - 1].Leave?
    {
      var names := answers.names;
      trace := trace + [Buckets(ep, names)];
      t := [Buckets(ep, names)];
      if !names.Some? {
        return false, t;
      }
      ghost var deletes;
      ok, deletes := DeleteBuckets(ep, names.value, answers.deletes);
      t := t + deletes;
      if !ok { return; }
      ok := answers.ejects;
      trace := trace + [FailOverAndEjectAll(ep, ok)];
      t := t + [FailOverAndEjectAll(ep, ok)];
      if !ok { return; }
      ok := answers.leaves;
      trace := trace + [Leave(ep, ok)];
      t := t + [Leave(ep, ok)];
      if ok {
        assert StrippedOf(t, ep, names.value, deletes);
      }
    }

    /** clearSingleCluster; the error of getEpNode is overwritten, and its nil node used (:378-380). */
    method ClearSingleCluster(nodes: seq<nat>, says: nat -> Option<string>, answers: StripAnswers)
      returns (r: Attempt<(), ()>, ghost t: seq<Event>)
      modifies this`trace
      ensures trace == old(trace) + t && AllOfPhase(t, 2)
      ensures r.Done? <==> !NoneFound(nodes, says) && Strips(answers)
      ensures r.Done? ==> Cleared(t, nodes) && t[|t| - 1].Leave?
      ensures r.Panics? <==> NoneFound(nodes, says)
      ensures r.Panics? <==> NoEntry(t, nodes)
      ensures r.Panics? <==> forall e <- t :: e.Probe? && e.membership != Some(ACTIVE)
      ensures r.Fails? ==> t != [] && !t[|t| - 1].Probe?
    {
      hide NoneFound, NoEntry, Stripped, Cleared;
      var ep, probes := GetEpNode(nodes, says);
      t := probes;
      if ep.None? {
        return Panics, t;
      }
      var ok, rest := Strip(ep.value, answers);
      t := t + rest;
      NotProbes(t, probes, rest, nodes);
      if !ok {
        return Fails(()), t;
      }
      ClearedTogether(t, nodes, ep.value, probes, rest);
      return Done(()), t;
    }

    /** All groups, in whatever order the map is walked in.  It panics exactly if it ends with a probe. */
    method ClearAll(existing: map<string, seq<nat>>, ghost replies: seq<PoolsReply>)
      returns (r: Attempt<(), ()>, ghost t: seq<Event>)
      requires existing.Keys == Uris(replies, |replies|)
      requires forall uri <- existing :: existing[uri] == GroupOf(replies, |replies|, uri)
      modifies this`trace
      ensures trace == old(trace) + t && AllOfPhase(t, 2)
      ensures r.Done? ==> Clears(t, replies)
      ensures existing == map[] ==> r.Done?
      ensures r.Panics? ==> ClearsUntilPanic(t, replies)
      ensures r.Panics? <==> t != [] && t[|t| - 1].Probe?
    {
      hide Cleared, ClearsIn, InOrder, Uris, GroupOf, Clears, NoEntry, ClearsUntilPanic;
      t := [];
      ghost var order: seq<string>, parts: seq<seq<Event>> := [], [];
      ClearsNothing(replies);
      var todo := existing.Keys;
      assert existing.Keys - todo == {};
      while todo != {}
        invariant todo <= existing.Keys && trace == old(trace) + t && AllOfPhase(t, 2)
        invariant t != [] ==> t[|t| - 1].Leave?
        invariant ClearsIn(t, replies, order, parts) && InOrder(order, existing.Keys - todo)
        decreases todo
      {
        var uri :| uri in todo;
        var says: nat -> Option<string>, answers: StripAnswers := *, *;
        var cleared, more := ClearSingleCluster(existing[uri], says, answers);
        NextInOrder(order, existing.Keys, todo, uri, replies);
        if cleared.Done? {
          ClearsOneMore(t, replies, order, parts, uri, more);
          order, parts := order + [uri], parts + [more];
        } else if cleared.Panics? {
          PanicsNow(t, replies, order, parts, uri, more);
          NoEntryEnds(replies, uri, more);
        }
        t := t + more;
        todo := todo - {uri};
        if !cleared.Done? {
          return cleared, t;
        }
      }
      assert existing.Keys - todo == existing.Keys;
      ClearedInOrder(t, replies, order, parts);
      return Done(()), t;
    }

    /** cluster/manager.go:174-202: the reports in the order they arrive, unless the collector times out. */
    method PollJoinReadyAll(reports: nat -> Option<string>) returns (ok: bool, ghost t: seq<Event>)
      requires epNode == 0
      modifies this`trace
      ensures trace == old(trace) + t && AllOfPhase(t, 4)
      ensures ok ==> Joins(t, count) && forall i: nat :: 0 < i < count ==> reports(i).None?
      ensures forall e <- t :: 0 < e.node < count && e.report == reports(e.node)
    {
      t := [];
      var waiting := UpTo(count) - {epNode};
      while waiting != {}
        invariant trace == old(trace) + t && waiting <= UpTo(count) - {epNode}
        invariant forall e <- t :: e.JoinReport? && e.report.None? && 0 < e.node < count && reports(e.node).None?
        invariant forall i: nat :: i < count && i != epNode ==> i in waiting || JoinReport(i, None) in t
        invariant forall i: nat :: i < count && i != epNode ==> i in waiting || reports(i).None?
        decreases waiting
      {
        var timedOut := Answer();
        if timedOut {
          return false, t;
        }
        var i :| i in waiting;
        waiting := waiting - {i};
        var report := reports(i);
        trace := trace + [JoinReport(i, report)];
        t := t + [JoinReport(i, report)];
        if !report.None? {
          return false, t;
        }
      }
      return true, t;
    }

    /** cluster/manager.go:248-263; `first` is what the first call for a node comes to, `second` the other one. */
    method AddNodes(first: nat -> Added, second: nat -> Added) returns (ok: bool, ghost t: seq<Event>)
      requires epNode == 0
      modifies this`trace
      ensures trace == old(trace) + t && AllOfPhase(t, 5)
      ensures ok <==> forall i: nat :: 0 < i < count ==> Gets(first(i), second(i))
      ensures ok ==> Adds(t, 1, count)
      ensures !ok ==> t != [] && t[|t| - 1].AddNode? && t[|t| - 1].added != Joined
    {
      t := [];
      ok := true;
      ghost var upTo := 1;
      for i := 0 to count
        invariant trace == old(trace) + t && upTo == (if i == 0 then 1 else i)
        invariant AddedSoFar(t, 1, upTo) && AllOfPhase(t, 5)
        invariant forall k: nat :: 0 < k < i ==> Gets(first(k), second(k))
      {
        if i == epNode {
          continue;
        }
        var added := first(i);
        trace := trace + [AddNode(i, added)];
        ghost var one := [AddNode(i, added)];
        if added == PrepareJoinFailed {
          added := second(i);
          trace := trace + [AddNode(i, added)];
          one := one + [AddNode(i, added)];
        }
        ghost var before := t;
        t := t + one;
        if added != Joined {
          return false, t;
        }
        AddedExtend(before, 1, i, one);
        upTo := i + 1;
      }
      if count <= 1 {
        assert t == [];
      }
    }

    /** The loop of at most two rebalances; its test i < numRetry never fails (cluster/manager.go:265-281).
        `starts` and `polls` are the answers to the first and the second call, if they are made. */
    method RebalanceTwice(starts: nat -> bool, polls: nat -> bool) returns (ok: bool, ghost t: seq<Event>)
      modifies this`trace
      ensures trace == old(trace) + t && AllOfPhase(t, 6)
      ensures ok <==> starts(0) && (polls(0) || starts(1))
      ensures ok ==> Rebalances(t) && (!polls(0) && !polls(1) ==> t == BOTH_FAILED)
      ensures !ok ==> t != [] && t[|t| - 1] == Rebalance(false)
    {
      t := [];
      var numRetry := 2;
      for i := 0 to numRetry
        invariant trace == old(trace) + t
        invariant i > 0 ==> starts(0) && !polls(0)
        invariant i > 1 ==> starts(1) && !polls(1)
        invariant t == if i == 0 then [] else if i == 1 then BOTH_FAILED[..2] else BOTH_FAILED
      {
        var started := starts(i);
        trace := trace + [Rebalance(started)];
        t := t + [Rebalance(started)];
        if !started {
          return false, t;
        }
        var polled := polls(i);
        trace := trace + [PollRebalance(polled)];
        t := t + [PollRebalance(polled)];
        if polled {
          break;
        }
      }
      ok := true;
    }

    method SetUp(
      call: SetupCall, works: SetupCall -> bool, ghost start: seq<Event>, ghost t: seq<Event>,
      ghost calls: seq<SetupCall>)
      returns (ok: bool, ghost t': seq<Event>, ghost calls': seq<SetupCall>)
      requires SettingUp(t, calls) && trace == start + t && AllOfPhase(t, 3) && t != []
      modifies this`trace
      ensures trace == start + t' && AllOfPhase(t', 3) && t' != [] && t'[0] == t[0]
      ensures ok == works(call) && (ok ==> SettingUp(t', calls') && calls' == calls + [call])
    {
      ok := works(call);
      trace := trace + [Setup(call, ok)];
      t', calls' := t + [Setup(call, ok)], calls + [call];
    }

    /** The calls to the entry node alone (cluster/manager.go:205-242); `works` is what each one comes to. */
    method PrepareEntry(reply: Option<PoolsReply>, works: SetupCall -> bool) returns (ok: bool, ghost t: seq<Event>)
      modifies this`trace
      ensures trace == old(trace) + t && AllOfPhase(t, 3) && t != [] && t[0] == Info(0, reply)
      ensures ok ==> Prepared(t, config)
      ensures ok <==> && reply.Some? && reply.value.major.Some? && config.memoryQuota.Some?
                      && forall call <- Required(config, reply.value.major.value) :: works(call)
    {
      hide SettingUp, AllOfPhase, Required, Provisioning, Naming;
      ghost var start := trace;
      trace := trace + [Info(0, reply)];
      t := [Info(0, reply)];
      EntryInfo(t);
      if reply.None? || reply.value.major.None? || config.memoryQuota.None? {
        return false, t;
      }
      RequiredCalls(config, reply.value.major.value);
      ok, t := SetUpEntry(reply.value.major.value, works, start, t);
    }

    /** The calls themselves. */
    method SetUpEntry(major: int, works: SetupCall -> bool, ghost start: seq<Event>, ghost t: seq<Event>)
      returns (ok: bool, ghost t': seq<Event>)
      requires SettingUp(t, []) && trace == start + t && AllOfPhase(t, 3) && t != []
      modifies this`trace
      ensures trace == start + t' && AllOfPhase(t', 3) && t' != [] && t'[0] == t[0]
      ensures ok <==> && works(Quota) && (config.useHostname ==> works(Rename)) && works(Services) && works(SetQuota)
                      && (config.storageMode != "" ==> works(StorageMode)) && works(Provision)
                      && (major >= 5 && config.userName != "" ==> works(User))
      ensures ok ==> SettingUp(t', Required(config, major))
    {
      hide SettingUp, AllOfPhase, Naming, Provisioning;
      ghost var calls;
      ok, t', calls := NameEntry(works, start, t);
      if !ok { return; }
      ok, t', calls := InitNewCluster(works, start, t', calls);
      if !ok { return; }
      if major >= 5 && config.userName != "" {
        ok, t', calls := SetUp(User, works, start, t', calls);
      } else {
        assert calls + [] == calls;
      }
    }

    method NameEntry(works: SetupCall -> bool, ghost start: seq<Event>, ghost t: seq<Event>)
      returns (ok: bool, ghost t': seq<Event>, ghost calls: seq<SetupCall>)
      requires SettingUp(t, []) && trace == start + t && AllOfPhase(t, 3) && t != []
      modifies this`trace
      ensures trace == start + t' && AllOfPhase(t', 3) && t' != [] && t'[0] == t[0]
      ensures ok <==> works(Quota) && (config.useHostname ==> works(Rename)) && works(Services)
      ensures ok ==> SettingUp(t', calls) && calls == Naming(config)
    {
      hide SettingUp, AllOfPhase;
      ok, t', calls := SetUp(Quota, works, start, t, []);
      if !ok { return; }
      if config.useHostname {
        ok, t', calls := SetUp(Rename, works, start, t', calls);
        if !ok { return; }
      }
      ok, t', calls := SetUp(Services, works, start, t', calls);
    }

    /** cluster/node.go:142-154. */
    method InitNewCluster(
      works: SetupCall -> bool, ghost start: seq<Event>, ghost t: seq<Event>, ghost calls: seq<SetupCall>)
      returns (ok: bool, ghost t': seq<Event>, ghost calls': seq<SetupCall>)
      requires SettingUp(t, calls) && trace == start + t && AllOfPhase(t, 3) && t != []
      modifies this`trace
      ensures trace == start + t' && AllOfPhase(t', 3) && t' != [] && t'[0] == t[0]
      ensures ok <==> works(SetQuota) && (config.storageMode != "" ==> works(StorageMode)) && works(Provision)
      ensures ok ==> SettingUp(t', calls') && calls' == calls + Provisioning(config)
    {
      hide SettingUp, AllOfPhase;
      ok, t', calls' := SetUp(SetQuota, works, start, t, calls);
      if !ok { return; }
      if config.storageMode != "" {
        ok, t', calls' := SetUp(StorageMode, works, start, t', calls');
        if !ok { return; }
      }
      ok, t', calls' := SetUp(Provision, works, start, t', calls');
    }

    /** The bucket and the developer preview (cluster/manager.go:283-294). */
    method FinishUp(creates: bool, says: nat -> Option<string>, enables: bool) returns (ok: bool, ghost t: seq<Event>)
      modifies this`trace
      ensures trace == old(trace) + t && AllOfPhase(t, 7)
      ensures ok <==> && (config.bucketName != "" ==> creates)
                      && (config.useDevPreview ==> !NoneFound(seq(count, i => i), says) && enables)
      ensures ok ==> Finishes(t, count, config)
    {
      hide Probes, NoneFound, NoEntry, EndsActive;
      ok, t := true, [];
      if config.bucketName != "" {
        ok := creates;
        trace := trace + [CreateBucket(ok)];
        t := t + [CreateBucket(ok)];
        if !ok { return; }
      }
      ghost var preview, probes;
      ok, preview, probes := Preview(says, enables);
      t := t + preview;
      if ok {
        assert FinishesAfter(t, count, config, probes);
      }
    }

    /** EnableDeveloperPreview, if it is configured. */
    method Preview(says: nat -> Option<string>, enables: bool)
      returns (ok: bool, ghost t: seq<Event>, ghost probes: seq<Event>)
      modifies this`trace
      ensures trace == old(trace) + t && AllOfPhase(t, 7)
      ensures ok <==> (config.useDevPreview ==> !NoneFound(seq(count, i => i), says) && enables)
      ensures ok ==> t == probes + (if config.useDevPreview then [EnableDeveloperPreview(true)] else [])
      ensures ok ==> if config.useDevPreview then Probes(probes, seq(count, i => i)) && EndsActive(probes)
                     else probes == []
    {
      hide Probes, NoneFound, NoEntry, EndsActive;
      ok, t, probes := true, [], [];
      if config.useDevPreview {
        var ep;
        ep, probes := GetEpNode(seq(count, i => i), says);
        t := probes;
        if ep.None? {
          return false, t, probes;
        }
        ok := enables;
        trace := trace + [EnableDeveloperPreview(ok)];
        t := t + [EnableDeveloperPreview(ok)];
      }
    }

    /** setupNewCluster, after three phases that are complete; without a node it indexes out of range. */
    method SetupNewCluster(ghost start: seq<Event>, ghost before: seq<seq<Event>>, ghost replies: seq<PoolsReply>)
      returns (r: Attempt<(), ()>, ghost phases: seq<seq<Event>>)
      requires trace == start + Flat(before) && Reached(before, 3, replies, config)
      requires |before| == 3 && |replies| == count
      modifies this
      ensures trace == start + Flat(phases) && |phases| > 3
      ensures Reached(phases, if r.Done? then 8 else |phases| - 1, replies, config)
      ensures r.Panics? <==> count == 0
    {
      hide Prepared, Joins, Adds, Rebalances, Finishes, Complete, Flat, Reached, AllOfPhase;
      epNode := 0;
      var ok;
      ghost var t: seq<Event> := [];
      if count == 0 {
        NothingYet(replies, config);
        Completes(t, |before|, replies, config);
        NextPhase(start, before, replies, config, t);
        return Panics, before + [t];
      }
      var reply: Option<PoolsReply>, works: SetupCall -> bool := *, *;
      ok, t := PrepareEntry(reply, works);
      Completes(t, |before|, replies, config);
      NextPhase(start, before, replies, config, t);
      phases := before + [t];
      if !ok { return Fails(()), phases; }
      var reports: nat -> Option<string> := *;
      ok, t := PollJoinReadyAll(reports);
      Completes(t, |phases|, replies, config);
      NextPhase(start, phases, replies, config, t);
      phases := phases + [t];
      if !ok { return Fails(()), phases; }
      var first: nat -> Added, second: nat -> Added := *, *;
      ok, t := AddNodes(first, second);
      Completes(t, |phases|, replies, config);
      NextPhase(start, phases, replies, config, t);
      phases := phases + [t];
      if !ok { return Fails(()), phases; }
      var starts: nat -> bool, polls: nat -> bool := *, *;
      ok, t := RebalanceTwice(starts, polls);
      Completes(t, |phases|, replies, config);
      NextPhase(start, phases, replies, config, t);
      phases := phases + [t];
      if !ok { return Fails(()), phases; }
      var creates := Answer();
      var enables := Answer();
      var says: nat -> Option<string> := *;
      ok, t := FinishUp(creates, says, enables);
      Completes(t, |phases|, replies, config);
      NextPhase(start, phases, replies, config, t);
      phases := phases + [t];
      return if ok then Done(()) else Fails(()), phases;
    }

    /** StartCluster.  Whatever comes of it, the calls are those of the phases in their order, all complete but
        the last one, and all eight complete when it returns a URL.  It panics exactly if there is no node, or if
        the clearing ends with a search for an entry node that comes to nothing. */
    method StartCluster() returns (r: Attempt<(), ()>, ghost phases: seq<seq<Event>>, ghost replies: seq<PoolsReply>)
      modifies this
      ensures trace == old(trace) + Flat(phases) && phases != []
      ensures Reached(phases, if r.Done? then 8 else |phases| - 1, replies, config)
      ensures |phases| > 1 ==> |replies| == count
      ensures r.Panics? <==> count == 0 || (|phases| == 3 && phases[2] != [] && phases[2][|phases[2]| - 1].Probe?)
      ensures r.Panics? && count > 0 ==> ClearsUntilPanic(phases[2], replies)
    {
      hide Clears, ClearsUntilPanic, GroupOf, Uris, Complete, Flat, Reached;
      ghost var start := trace;
      replies := [];
      NothingYet(replies, config);
      var got: seq<PoolsReply> := [];
      ghost var t: seq<Event> := [];
      for i := 0 to count
        invariant |got| == i && trace == start + t && Infos(t, got)
      {
        var reply := GetInfo(i);
        t := t + [Info(i, reply)];
        if reply.None? {
          Completes(t, 0, replies, config);
          NextPhase(start, [], replies, config, t);
          return Fails(()), [] + [t], replies;
        }
        got := got + [reply.value];
      }
      replies := got;
      NothingYet(replies, config);
      Completes(t, 0, replies, config);
      NextPhase(start, [], replies, config, t);
      phases := [] + [t];
      var existing := GroupNodes(got);
      UrisGrow(replies, 0);
      t := [];
      for i := 0 to count
        invariant trace == start + Flat(phases) + t && Stops(t, i)
      {
        var ok := Answer();
        trace := trace + [StopRebalance(i, ok)];
        t := t + [StopRebalance(i, ok)];
        if !ok {
          Completes(t, |phases|, replies, config);
          NextPhase(start, phases, replies, config, t);
          return Fails(()), phases + [t], replies;
        }
      }
      Completes(t, |phases|, replies, config);
      NextPhase(start, phases, replies, config, t);
      phases := phases + [t];
      var cleared;
      cleared, t := ClearAll(existing, got);
      Completes(t, |phases|, replies, config);
      NextPhase(start, phases, replies, config, t);
      phases := phases + [t];
      if !cleared.Done? {
        return cleared, phases, replies;
      }
      r, phases := SetupNewCluster(start, phases, replies);
    }
  }

  lemma NoEntryEnds(replies: seq<PoolsReply>, uri: string, probes: seq<Event>)
    requires uri in Uris(replies, |replies|) && NoEntry(probes, GroupOf(replies, |replies|, uri))
    ensures probes != [] && probes[|probes| - 1].Probe?
  {
    GroupMembers(replies, |replies|, uri);
    var i: nat :| i < |replies| && UriOf(replies, i) == uri;
    assert i in GroupOf(replies, |replies|, uri);
  }

  lemma NothingYet(replies: seq<PoolsReply>, config: Config)
    ensures Reached([], 0, replies, config) && Flat([]) == [] && AllOfPhase([], 3)
  {}

  lemma ClearedInOrder(t: seq<Event>, replies: seq<PoolsReply>, order: seq<string>, parts: seq<seq<Event>>)
    requires ClearsIn(t, replies, order, parts) && InOrder(order, Uris(replies, |replies|))
    ensures Clears(t, replies)
  {
    hide ClearsIn, InOrder;
  }
}
