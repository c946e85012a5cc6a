/** The calls that a bring-up makes, with their answers, and its eight phases (cluster/manager.go:101-297). */
module BringupTrace {
  import opened Basics
  import opened Pools

  datatype SetupCall = Quota | Rename | Services | SetQuota | StorageMode | Provision | User

  /** AddNode's answers: nil, the one error that is tried again, or another error. */
  datatype Added = Joined | PrepareJoinFailed | Refused

  /** A call with its answer. */
  datatype Event =
    | Info(node: nat, reply: Option<PoolsReply>)
    | StopRebalance(node: nat, ok: bool)
    | Probe(node: nat, membership: Option<string>)
    | Buckets(node: nat, names: Option<seq<string>>)
    | DeleteBucket(node: nat, name: string, ok: bool)
    | FailOverAndEjectAll(node: nat, ok: bool)
    | Leave(node: nat, ok: bool)
    | Setup(call: SetupCall, ok: bool)
    | JoinReport(node: nat, report: Option<string>)
    | AddNode(node: nat, added: Added)
    | Rebalance(ok: bool)
    | PollRebalance(ok: bool)
    | CreateBucket(ok: bool)
    | EnableDeveloperPreview(ok: bool)

  datatype Config = Config(
    memoryQuota: Option<nat>, useHostname: bool, storageMode: string, userName: string,
    bucketName: string, useDevPreview: bool)

  // ---------- Looking for an entry node ----------

  /** Probing a group in order until a node is active, a probe fails, or there is no other node. */
  ghost predicate Probes(t: seq<Event>, group: seq<nat>) {
    && |t| <= |group| && (forall i :: 0 <= i < |t| ==> t[i].Probe? && t[i].node == group[i])
    && (forall i :: 0 <= i < |t| - 1 ==> t[i].membership.Some? && t[i].membership != Some(ACTIVE))
    && (|t| < |group| ==> t != [] && (t[|t| - 1].membership.None? || t[|t| - 1].membership == Some(ACTIVE)))
  }

  ghost predicate EndsActive(t: seq<Event>) {
    t != [] && t[|t| - 1].Probe? && t[|t| - 1].membership == Some(ACTIVE)
  }

  /** What the nodes say of themselves leaves none to be found: before any active one, asking another fails. */
  ghost predicate NoneFound(group: seq<nat>, says: nat -> Option<string>) {
    forall i :: 0 <= i < |group| && says(group[i]) == Some(ACTIVE) ==> exists j :: 0 <= j < i && says(group[j]).None?
  }

  /** The search has come to nothing. */
  ghost predicate NoEntry(t: seq<Event>, group: seq<nat>) { Probes(t, group) && !EndsActive(t) }

  // ---------- What the servers answer ----------

  /** To the calls that clear a cluster: its buckets' names, and whether each delete, the ejecting and the leaving
      work. */
  datatype StripAnswers = StripAnswers(names: Option<seq<string>>, deletes: string -> bool, ejects: bool, leaves: bool)

  predicate Strips(answers: StripAnswers) {
    && answers.names.Some? && (forall name <- answers.names.value :: answers.deletes(name))
    && answers.ejects && answers.leaves
  }

  /** A node is added by the first call, or by the second one after the error that is tried again. */
  predicate Gets(first: Added, second: Added) {
    first == Joined || (first == PrepareJoinFailed && second == Joined)
  }

  // ---------- The phases, when they succeed ----------

  ghost predicate Infos(t: seq<Event>, replies: seq<PoolsReply>) {
    |t| == |replies| && forall i :: 0 <= i < |t| ==> t[i] == Info(i, Some(replies[i]))
  }

  ghost predicate Stops(t: seq<Event>, n: nat) {
    |t| == n && forall i :: 0 <= i < |t| ==> t[i] == StopRebalance(i, true)
  }

  /** One of the group's nodes was found active; its buckets were deleted, then all its peers failed over and
      ejected, and it left last. */
  ghost predicate Cleared(t: seq<Event>, group: seq<nat>) {
    exists ep, names :: ClearedBy(t, group, ep, names)
  }

  ghost predicate ClearedBy(t: seq<Event>, group: seq<nat>, ep: nat, names: seq<string>) {
    var at := |t| - |names| - 4;
    && 0 <= at && Probes(t[..at + 1], group) && ep in group
    && t[at] == Probe(ep, Some(ACTIVE)) && t[at + 1] == Buckets(ep, Some(names))
    && (forall i :: 0 <= i < |names| ==> t[at + 2 + i] == DeleteBucket(ep, names[i], true))
    && t[|t| - 2] == FailOverAndEjectAll(ep, true) && t[|t| - 1] == Leave(ep, true)
  }

  function Flat(parts: seq<seq<Event>>): seq<Event> {
    if parts == [] then [] else Flat(parts[..|parts| - 1]) + parts[|parts| - 1]
  }

  /** The groups of these URIs are cleared whole, one after another, each once. */
  ghost predicate ClearsIn(t: seq<Event>, replies: seq<PoolsReply>, order: seq<string>, parts: seq<seq<Event>>) {
    && t == Flat(parts) && |order| == |parts| && "" !in order
    && (forall j, k :: 0 <= j < k < |order| ==> order[j] != order[k])
    && forall k :: 0 <= k < |parts| ==> Cleared(parts[k], GroupOf(replies, |replies|, order[k]))
  }

  ghost predicate InOrder(order: seq<string>, uris: set<string>) {
    forall uri :: uri in order <==> uri in uris
  }

  ghost predicate Clears(t: seq<Event>, replies: seq<PoolsReply>) {
    exists order, parts :: ClearsIn(t, replies, order, parts) && InOrder(order, Uris(replies, |replies|))
  }

  /** Some groups are cleared, and then a search for the entry node of yet another one comes to nothing. */
  ghost predicate ClearsUntilPanic(t: seq<Event>, replies: seq<PoolsReply>) {
    exists cleared, order, parts, uri, probes ::
      && t == cleared + probes && ClearsIn(cleared, replies, order, parts)
      && uri in Uris(replies, |replies|) && uri !in order && NoEntry(probes, GroupOf(replies, |replies|, uri))
  }

  function Provisioning(config: Config): seq<SetupCall> {
    [SetQuota] + (if config.storageMode != "" then [StorageMode] else []) + [Provision]
  }

  function Naming(config: Config): seq<SetupCall> {
    [Quota] + (if config.useHostname then [Rename] else []) + [Services]
  }

  /** The calls that prepare the entry node, under a configuration and the server's major version. */
  function Required(config: Config, major: int): seq<SetupCall> {
    Naming(config) + Provisioning(config) + (if major >= 5 && config.userName != "" then [User] else [])
  }

  /** The required calls, one by one. */
  lemma RequiredCalls(config: Config, major: int)
    ensures forall call :: call in Required(config, major) <==>
              match call
              case Rename => config.useHostname
              case StorageMode => config.storageMode != ""
              case User => major >= 5 && config.userName != ""
              case _ => true
  {}

  ghost predicate SettingUp(t: seq<Event>, calls: seq<SetupCall>) {
    && |t| == |calls| + 1 && t[0].Info?
    && forall i :: 0 <= i < |calls| ==> t[i + 1] == Setup(calls[i], true)
  }

  /** The entry node's version is read, and then the required calls are made, all in order. */
  ghost predicate Prepared(t: seq<Event>, config: Config) {
    && t != [] && t[0].Info? && t[0].node == 0 && t[0].reply.Some? && t[0].reply.value.major.Some?
    && SettingUp(t, Required(config, t[0].reply.value.major.value))
  }

  ghost predicate Joins(t: seq<Event>, n: nat) {
    && (forall e <- t :: e.JoinReport? && e.report.None?)
    && forall i: nat :: 0 < i < n ==> JoinReport(i, None) in t
  }

  /** For each node from i on, in order, one AddNode that works, after at most one that is tried again. */
  ghost predicate Adds(t: seq<Event>, i: nat, n: nat)
    decreases n - i
  {
    if i >= n then t == []
    else
      || (|t| > 0 && t[0] == AddNode(i, Joined) && Adds(t[1..], i + 1, n))
      || (|t| > 1 && t[0] == AddNode(i, PrepareJoinFailed) && t[1] == AddNode(i, Joined) && Adds(t[2..], i + 1, n))
  }

  /** A failed poll is followed by one more rebalance, whose poll may fail unnoticed. */
  ghost predicate Rebalances(t: seq<Event>) {
    || t == [Rebalance(true), PollRebalance(true)]
    || (exists ok :: t == [Rebalance(true), PollRebalance(false), Rebalance(true), PollRebalance(ok)])
  }

  const BOTH_FAILED := [Rebalance(true), PollRebalance(false), Rebalance(true), PollRebalance(false)]

  /** The bucket, if there is to be one, and then the developer preview, after a search for an active node. */
  ghost predicate Finishes(t: seq<Event>, n: nat, config: Config) {
    exists probes :: FinishesAfter(t, n, config, probes)
  }

  ghost predicate FinishesAfter(t: seq<Event>, n: nat, config: Config, probes: seq<Event>) {
    && t == (if config.bucketName != "" then [CreateBucket(true)] else []) + probes
            + (if config.useDevPreview then [EnableDeveloperPreview(true)] else [])
    && if config.useDevPreview then Probes(probes, seq(n, i => i)) && EndsActive(probes) else probes == []
  }

  // ---------- The order of the phases ----------

  predicate OfPhase(e: Event, k: nat) {
    match e
    case Info(_, _) => k == 0 || k == 3
    case StopRebalance(_, _) => k == 1
    case Probe(_, _) => k == 2 || k == 7
    case Buckets(_, _) => k == 2
    case DeleteBucket(_, _, _) => k == 2
    case FailOverAndEjectAll(_, _) => k == 2
    case Leave(_, _) => k == 2
    case Setup(_, _) => k == 3
    case JoinReport(_, _) => k == 4
    case AddNode(_, _) => k == 5
    case Rebalance(_) => k == 6
    case PollRebalance(_) => k == 6
    case CreateBucket(_) => k == 7
    case EnableDeveloperPreview(_) => k == 7
  }

  ghost predicate AllOfPhase(t: seq<Event>, k: nat) { forall e <- t :: OfPhase(e, k) }

  /** The phase has done all that it is for. */
  ghost predicate Complete(t: seq<Event>, k: nat, replies: seq<PoolsReply>, config: Config) {
    var n := |replies|;
    match k
    case 0 => Infos(t, replies)
    case 1 => Stops(t, n)
    case 2 => Clears(t, replies)
    case 3 => Prepared(t, config)
    case 4 => Joins(t, n)
    case 5 => Adds(t, 1, n)
    case 6 => Rebalances(t)
    case _ => Finishes(t, n, config)
  }

  /** A bring-up, finished or not: its first phases are complete, and at most one more has begun. */
  ghost predicate Reached(phases: seq<seq<Event>>, done: nat, replies: seq<PoolsReply>, config: Config) {
    && done <= |phases| <= done + 1 && |phases| <= 8
    && (forall k :: 0 <= k < |phases| ==> AllOfPhase(phases[k], k))
    && forall k :: 0 <= k < done ==> Complete(phases[k], k, replies, config)
  }

  lemma Completes(t: seq<Event>, k: nat, replies: seq<PoolsReply>, config: Config)
    ensures k == 0 && Infos(t, replies) ==> Complete(t, k, replies, config)
    ensures k == 1 && Stops(t, |replies|) ==> Complete(t, k, replies, config)
    ensures k == 2 && Clears(t, replies) ==> Complete(t, k, replies, config)
    ensures k == 3 && Prepared(t, config) ==> Complete(t, k, replies, config)
    ensures k == 4 && Joins(t, |replies|) ==> Complete(t, k, replies, config)
    ensures k == 5 && Adds(t, 1, |replies|) ==> Complete(t, k, replies, config)
    ensures k == 6 && Rebalances(t) ==> Complete(t, k, replies, config)
    ensures k == 7 && Finishes(t, |replies|, config) ==> Complete(t, k, replies, config)
  {
    hide Infos, Stops, Clears, Prepared, Joins, Adds, Rebalances, Finishes;
  }

  lemma FlatOneMore(parts: seq<seq<Event>>, more: seq<Event>)
    ensures Flat(parts + [more]) == Flat(parts) + more
  {
    assert (parts + [more])[..|parts|] == parts;
  }

  lemma NextPhase(start: seq<Event>, phases: seq<seq<Event>>, replies: seq<PoolsReply>, config: Config, t: seq<Event>)
    requires |phases| < 8 && Reached(phases, |phases|, replies, config) && AllOfPhase(t, |phases|)
    ensures Reached(phases + [t], |phases|, replies, config)
    ensures Complete(t, |phases|, replies, config) ==> Reached(phases + [t], |phases| + 1, replies, config)
    ensures start + Flat(phases + [t]) == start + Flat(phases) + t
  {
    hide Complete, AllOfPhase, Flat;
    FlatOneMore(phases, t);
    var more := phases + [t];
    forall k | 0 <= k < |more| ensures AllOfPhase(more[k], k) {
      if k < |phases| {
        assert AllOfPhase(phases[k], k);
      }
    }
    forall k | 0 <= k < |phases| ensures Complete(more[k], k, replies, config) {
      assert Complete(phases[k], k, replies, config);
    }
  }

  // ---------- Clearing, group by group ----------

  lemma ClearsNothing(replies: seq<PoolsReply>)
    ensures ClearsIn([], replies, [], []) && InOrder([], {})
  {}

  lemma NextInOrder(order: seq<string>, uris: set<string>, todo: set<string>, uri: string, replies: seq<PoolsReply>)
    requires InOrder(order, uris - todo) && uri in todo && todo <= uris == Uris(replies, |replies|)
    ensures InOrder(order + [uri], uris - (todo - {uri})) && uri !in order && uri != ""
  {
    forall u: string ensures u in order + [uri] <==> u in uris - (todo - {uri}) {
      assert u in order <==> u in uris - todo;
    }
  }

  lemma ClearsOneMore(
    t: seq<Event>, replies: seq<PoolsReply>, order: seq<string>, parts: seq<seq<Event>>, uri: string, more: seq<Event>)
    requires ClearsIn(t, replies, order, parts)
    requires uri !in order && uri != "" && Cleared(more, GroupOf(replies, |replies|, uri))
    ensures ClearsIn(t + more, replies, order + [uri], parts + [more])
  {
    hide Cleared, GroupOf, Flat;
    FlatOneMore(parts, more);
    var order', parts' := order + [uri], parts + [more];
    forall j, k | 0 <= j < k < |order'| ensures order'[j] != order'[k] {
      assert order'[j] in order;
    }
    forall k | 0 <= k < |parts'| ensures Cleared(parts'[k], GroupOf(replies, |replies|, order'[k])) {
      if k < |parts| {
        assert Cleared(parts[k], GroupOf(replies, |replies|, order[k]));
      }
    }
  }

  lemma PanicsNow(
    t: seq<Event>, replies: seq<PoolsReply>, order: seq<string>, parts: seq<seq<Event>>, uri: string,
    probes: seq<Event>)
    requires ClearsIn(t, replies, order, parts) && uri in Uris(replies, |replies|) && uri !in order
    requires NoEntry(probes, GroupOf(replies, |replies|, uri))
    ensures ClearsUntilPanic(t + probes, replies)
  {
    hide ClearsIn, Uris, NoEntry, GroupOf;
  }

  /** The calls to the entry node of a cluster that is being cleared. */
  ghost predicate Stripped(t: seq<Event>, ep: nat) {
    exists names, deletes :: StrippedOf(t, ep, names, deletes)
  }

  ghost predicate StrippedOf(t: seq<Event>, ep: nat, names: seq<string>, deletes: seq<Event>) {
    && Deletes(deletes, ep, names)
    && t == [Buckets(ep, Some(names))] + deletes + [FailOverAndEjectAll(ep, true)] + [Leave(ep, true)]
  }

  ghost predicate Deletes(t: seq<Event>, ep: nat, names: seq<string>) {
    |t| == |names| && forall i :: 0 <= i < |t| ==> t[i] == DeleteBucket(ep, names[i], true)
  }

  lemma ClearedTogether(t: seq<Event>, group: seq<nat>, ep: nat, probes: seq<Event>, rest: seq<Event>)
    requires ep in group && Probes(probes, group) && EndsActive(probes) && probes[|probes| - 1].node == ep
    requires Stripped(rest, ep) && t == probes + rest
    ensures Cleared(t, group) && t != [] && t[|t| - 1].Leave?
  {
    hide Probes;
    var names, deletes :| StrippedOf(rest, ep, names, deletes);
    var at := |probes| - 1;
    assert t[..at + 1] == probes;
    forall i | 0 <= i < |names| ensures t[at + 2 + i] == DeleteBucket(ep, names[i], true) {
      assert t[at + 2 + i] == deletes[i];
    }
    assert ClearedBy(t, group, ep, names);
  }

  /** Once something else than a probe has followed an active one, the calls are not a search that found nothing. */
  lemma NotProbes(t: seq<Event>, before: seq<Event>, more: seq<Event>, group: seq<nat>)
    requires t == before + more && more != [] && !more[0].Probe?
    ensures !NoEntry(t, group) && exists e <- t :: !e.Probe?
    ensures AllOfPhase(before, 2) && AllOfPhase(more, 2) ==> AllOfPhase(t, 2)
  {
    assert t[|before|] == more[0] && more[0] in t;
  }

  // ---------- Adding, node by node ----------

  /** Adds, seen from the front. */
  ghost predicate AddedSoFar(t: seq<Event>, i: nat, n: nat) { i <= n && Adds(t, i, n) }

  lemma {:induction false} AddedExtend(t: seq<Event>, i: nat, n: nat, one: seq<Event>)
    requires i <= n && Adds(t, i, n)
    requires one == [AddNode(n, Joined)] || one == [AddNode(n, PrepareJoinFailed), AddNode(n, Joined)]
    ensures Adds(t + one, i, n + 1)
    decreases n - i
  {
    if i == n {
      assert t + one == one;
      assert one[|one|..] == [];
    } else if t[0] == AddNode(i, Joined) {
      AddedExtend(t[1..], i + 1, n, one);
      assert (t + one)[1..] == t[1..] + one;
    } else {
      AddedExtend(t[2..], i + 1, n, one);
      assert (t + one)[2..] == t[2..] + one;
    }
  }

  lemma EntryInfo(t: seq<Event>)
    requires |t| == 1 && t[0].Info?
    ensures SettingUp(t, []) && AllOfPhase(t, 3)
  {}
}
