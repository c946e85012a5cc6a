/** Failing over and ejecting every node but the entry node, all at once (cluster/node.go:733-812). */
module Dismantle {
  import opened Basics
  import EarlyExit

  const INACTIVE_ADDED := "inactive_added"
  const INACTIVE_FAILED := "inactive_failed"

  datatype RespNode = RespNode(membership: string, hostName: string, status: string, otpNode: string)

  /** The listed nodes other than the one the calls are sent to. */
  function AuxNodes(nodeId: string, listed: seq<RespNode>): seq<RespNode> {
    if listed == [] then []
    else (if listed[0].hostName == nodeId then [] else [listed[0]]) + AuxNodes(nodeId, listed[1..])
  }

  lemma {:induction false} AuxMembers(nodeId: string, listed: seq<RespNode>)
    ensures forall n :: n in AuxNodes(nodeId, listed) <==> n in listed && n.hostName != nodeId
  {
    if listed != [] {
      AuxMembers(nodeId, listed[1..]);
    }
  }

  /** A REST call and whether it succeeded; a call that failed may have had its effect all the same. */
  datatype Post = Failover(otp: string, ok: bool) | Eject(otp: string, ok: bool)

  datatype Phase = Waiting | FailedOver | Over

  /** `members` is what the servers take for their cluster, by otp name; `fan` is the collecting side. */
  datatype State = State(
    aux: seq<RespNode>, phases: seq<Phase>, fan: EarlyExit.State,
    members: map<string, string>, trace: seq<Post>)

  ghost predicate Distinct(nodes: seq<RespNode>) {
    forall i, j :: 0 <= i < j < |nodes| ==> nodes[i].otpNode != nodes[j].otpNode
  }

  ghost predicate Names(nodes: seq<RespNode>, otp: string) {
    exists n <- nodes :: n.otpNode == otp
  }

  /** The servers know the nodes they listed, and no two nodes have one name. */
  ghost predicate Faithful(listed: seq<RespNode>, members: map<string, string>) {
    && Distinct(listed)
    && members.Keys == (set n <- listed :: n.otpNode)
    && forall n <- listed :: members[n.otpNode] == n.membership
  }

  ghost predicate Init(s: State, nodeId: string, listed: seq<RespNode>) {
    && s.aux == AuxNodes(nodeId, listed) && Faithful(listed, s.members)
    && s.phases == seq(|s.aux|, i => Waiting)
    && EarlyExit.Init(s.fan) && |s.fan.workers| == |s.aux| && s.fan.capacity == |s.aux|
    && s.trace == []
  }

  ghost predicate InPhase(s: State, i: nat, phase: Phase) {
    i < |s.aux| && i < |s.phases| && i < |s.fan.workers| && s.phases[i] == phase
  }

  ghost predicate AfterFailover(s: State, s': State, otp: string) {
    s'.members == s.members[otp := INACTIVE_FAILED]
  }

  ghost predicate FailoverOk(s: State, s': State, i: nat) {
    && InPhase(s, i, Waiting) && s.aux[i].membership != INACTIVE_ADDED
    && AfterFailover(s, s', s.aux[i].otpNode)
    && s' == s.(phases := s.phases[i := FailedOver], members := s'.members,
                trace := s.trace + [Failover(s.aux[i].otpNode, true)])
  }

  ghost predicate FailoverErr(s: State, s': State, i: nat, e: string) {
    && InPhase(s, i, Waiting) && s.aux[i].membership != INACTIVE_ADDED
    && (s'.members == s.members || AfterFailover(s, s', s.aux[i].otpNode))
    && EarlyExit.Finish(s.fan, s'.fan, i, Some(e))
    && s' == s.(phases := s.phases[i := Over], members := s'.members, fan := s'.fan,
                trace := s.trace + [Failover(s.aux[i].otpNode, false)])
  }

  ghost predicate MayEject(s: State, i: nat) {
    InPhase(s, i, FailedOver) || (InPhase(s, i, Waiting) && s.aux[i].membership == INACTIVE_ADDED)
  }

  ghost predicate EjectOk(s: State, s': State, i: nat) {
    && MayEject(s, i) && EarlyExit.Finish(s.fan, s'.fan, i, None)
    && s' == s.(phases := s.phases[i := Over], members := s.members - {s.aux[i].otpNode}, fan := s'.fan,
                trace := s.trace + [Eject(s.aux[i].otpNode, true)])
  }

  ghost predicate EjectErr(s: State, s': State, i: nat, e: string) {
    && MayEject(s, i) && EarlyExit.Finish(s.fan, s'.fan, i, Some(e))
    && s'.members in {s.members, s.members - {s.aux[i].otpNode}}
    && s' == s.(phases := s.phases[i := Over], members := s'.members, fan := s'.fan,
                trace := s.trace + [Eject(s.aux[i].otpNode, false)])
  }

  /** Sending and collecting the reports. */
  ghost predicate Collecting(s: State, s': State) {
    && s' == s.(fan := s'.fan)
    && ((exists i: nat :: EarlyExit.SendToBuffer(s.fan, s'.fan, i))
        || EarlyExit.Receive(s.fan, s'.fan) || EarlyExit.TimeOut(s.fan, s'.fan))
  }

  ghost predicate Next(s: State, s': State) {
    || (exists i: nat :: FailoverOk(s, s', i))
    || (exists i: nat, e :: FailoverErr(s, s', i, e))
    || (exists i: nat :: EjectOk(s, s', i))
    || (exists i: nat, e :: EjectErr(s, s', i, e))
    || Collecting(s, s')
  }

  ghost predicate Run(ss: seq<State>, nodeId: string, listed: seq<RespNode>) {
    && |ss| > 0 && Init(ss[0], nodeId, listed)
    && forall i :: 0 <= i < |ss| - 1 ==> Next(ss[i], ss[i + 1])
  }

  function Last(ss: seq<State>): State
    requires |ss| > 0
  {
    ss[|ss| - 1]
  }

  // ---------- Invariant ----------

  predicate Reported(w: EarlyExit.Worker, r: Report) {
    w == EarlyExit.Ready(r) || w == EarlyExit.Sent(r)
  }

  ghost predicate WorkerOk(s: State, i: nat)
    requires i < |s.aux| == |s.phases| == |s.fan.workers|
  {
    var n := s.aux[i];
    && (s.fan.workers[i].Busy? <==> s.phases[i] != Over)
    && (Reported(s.fan.workers[i], None) ==> Eject(n.otpNode, true) in s.trace && n.otpNode !in s.members)
    && (s.phases[i] == Waiting ==> n.otpNode in s.members && s.members[n.otpNode] == n.membership)
    && (s.phases[i] == FailedOver ==>
          && Failover(n.otpNode, true) in s.trace
          && n.otpNode in s.members && s.members[n.otpNode] == INACTIVE_FAILED)
  }

  /** A node may be ejected only if it never joined in or was failed over. */
  ghost predicate Prepared(aux: seq<RespNode>, before: seq<Post>, otp: string) {
    (exists n <- aux :: n.otpNode == otp && n.membership == INACTIVE_ADDED) || Failover(otp, true) in before
  }

  ghost predicate TraceOk(aux: seq<RespNode>, trace: seq<Post>) {
    && (forall k :: 0 <= k < |trace| ==> Names(aux, trace[k].otp))
    && (forall k :: 0 <= k < |trace| && trace[k].Eject? ==> Prepared(aux, trace[..k], trace[k].otp))
  }

  ghost predicate WorkersOk(s: State) {
    && |s.aux| == |s.phases| == |s.fan.workers|
    && forall i :: 0 <= i < |s.aux| ==> WorkerOk(s, i)
  }

  ghost predicate Inv(s: State) {
    WorkersOk(s) && EarlyExit.Inv(s.fan) && Distinct(s.aux) && TraceOk(s.aux, s.trace)
  }

  /** What the calls may change: names of auxiliary nodes only. */
  ghost predicate Spares(s: State, s': State) {
    forall otp :: !Names(s.aux, otp) ==>
      (otp in s.members <==> otp in s'.members) && (otp in s.members ==> s'.members[otp] == s.members[otp])
  }

  lemma InitInv(s: State, nodeId: string, listed: seq<RespNode>)
    requires Init(s, nodeId, listed)
    ensures Inv(s)
  {
    EarlyExit.InitInv(s.fan);
    AuxMembers(nodeId, listed);
    AuxDistinct(nodeId, listed);
    hide AuxNodes, Distinct, EarlyExit.Inv;
    forall i | 0 <= i < |s.aux| ensures WorkerOk(s, i) {
      assert s.aux[i] in listed;
    }
  }

  lemma {:induction false} AuxDistinct(nodeId: string, listed: seq<RespNode>)
    requires Distinct(listed)
    ensures Distinct(AuxNodes(nodeId, listed))
  {
    if listed != [] {
      assert Distinct(listed[1..]);
      AuxDistinct(nodeId, listed[1..]);
      AuxMembers(nodeId, listed[1..]);
      var rest := AuxNodes(nodeId, listed[1..]);
      forall n | n in rest ensures n.otpNode != listed[0].otpNode {
        var j :| 0 <= j < |listed[1..]| && listed[1..][j] == n;
        assert listed[j + 1] == n;
      }
      DistinctCons(listed[0], rest);
    }
  }

  lemma DistinctCons(n: RespNode, rest: seq<RespNode>)
    requires Distinct(rest) && forall m <- rest :: m.otpNode != n.otpNode
    ensures Distinct([n] + rest)
  {}

  /** One call about auxiliary node i, whatever it does to that node. */
  ghost predicate Posts(s: State, s': State, i: nat, post: Post) {
    && i < |s.aux| == |s.phases| == |s.fan.workers|
    && s'.aux == s.aux && |s'.phases| == |s'.fan.workers| == |s.aux|
    && post.otp == s.aux[i].otpNode && s'.trace == s.trace + [post]
    && s'.members in {s.members, s.members[post.otp := INACTIVE_FAILED], s.members - {post.otp}}
    && s'.phases == s.phases[i := s'.phases[i]] && s'.fan.workers == s.fan.workers[i := s'.fan.workers[i]]
  }

  lemma PostKeepsOthers(s: State, s': State, i: nat, post: Post)
    requires WorkersOk(s) && Distinct(s.aux) && Posts(s, s', i, post)
    requires WorkerOk(s', i)
    ensures WorkersOk(s')
  {
    forall j | 0 <= j < |s.aux| && j != i ensures WorkerOk(s', j) {
      assert WorkerOk(s, j);
      assert s.aux[j].otpNode != post.otp;
    }
  }

  lemma PostKeepsTrace(s: State, s': State, i: nat, post: Post)
    requires TraceOk(s.aux, s.trace) && Posts(s, s', i, post)
    requires post.Eject? ==> Prepared(s.aux, s.trace, post.otp)
    ensures TraceOk(s'.aux, s'.trace) && Spares(s, s')
  {
    assert s.aux[i] in s.aux;
    hide Prepared;
    forall k | 0 <= k < |s'.trace| ensures s'.trace[..k] == if k < |s.trace| then s.trace[..k] else s.trace {}
  }

  lemma FailoverOkKeeps(s: State, s': State, i: nat)
    requires Inv(s) && FailoverOk(s, s', i)
    ensures Inv(s') && s'.aux == s.aux && Spares(s, s')
  {
    hide EarlyExit.Inv, Distinct;
    var post := Failover(s.aux[i].otpNode, true);
    assert WorkerOk(s', i) by {
      assert WorkerOk(s, i) && post in s'.trace;
    }
    hide TraceOk;
    PostKeepsOthers(s, s', i, post);
    PostKeepsTrace(s, s', i, post);
  }

  lemma FailoverErrKeeps(s: State, s': State, i: nat, e: string)
    requires Inv(s) && FailoverErr(s, s', i, e)
    ensures Inv(s') && s'.aux == s.aux && Spares(s, s')
  {
    hide EarlyExit.Inv, Distinct, TraceOk;
    var post := Failover(s.aux[i].otpNode, false);
    FinishKeeps(s.fan, s'.fan, i, Some(e));
    PostKeepsOthers(s, s', i, post);
    PostKeepsTrace(s, s', i, post);
  }

  lemma MayEjectIsPrepared(s: State, i: nat)
    requires WorkersOk(s) && MayEject(s, i)
    ensures Prepared(s.aux, s.trace, s.aux[i].otpNode)
  {
    assert WorkerOk(s, i) && s.aux[i] in s.aux;
  }

  lemma EjectOkKeeps(s: State, s': State, i: nat)
    requires Inv(s) && EjectOk(s, s', i)
    ensures Inv(s') && s'.aux == s.aux && Spares(s, s')
  {
    hide EarlyExit.Inv, Distinct, TraceOk, Prepared;
    var post := Eject(s.aux[i].otpNode, true);
    MayEjectIsPrepared(s, i);
    FinishKeeps(s.fan, s'.fan, i, None);
    assert post in s'.trace;
    PostKeepsOthers(s, s', i, post);
    PostKeepsTrace(s, s', i, post);
  }

  lemma EjectErrKeeps(s: State, s': State, i: nat, e: string)
    requires Inv(s) && EjectErr(s, s', i, e)
    ensures Inv(s') && s'.aux == s.aux && Spares(s, s')
  {
    hide EarlyExit.Inv, Distinct, TraceOk, Prepared;
    var post := Eject(s.aux[i].otpNode, false);
    MayEjectIsPrepared(s, i);
    FinishKeeps(s.fan, s'.fan, i, Some(e));
    PostKeepsOthers(s, s', i, post);
    PostKeepsTrace(s, s', i, post);
  }

  lemma FinishKeeps(f: EarlyExit.State, f': EarlyExit.State, i: nat, r: Report)
    requires EarlyExit.Inv(f) && EarlyExit.Finish(f, f', i, r)
    ensures EarlyExit.Inv(f')
  {
    hide EarlyExit.Inv;
    assert EarlyExit.Next(f, f');
    EarlyExit.NextKeepsInv(f, f');
  }

  lemma CollectingKeeps(s: State, s': State)
    requires Inv(s) && Collecting(s, s')
    ensures Inv(s') && s'.aux == s.aux && Spares(s, s')
  {
    hide EarlyExit.Inv, Distinct, TraceOk;
    assert EarlyExit.Next(s.fan, s'.fan);
    EarlyExit.NextKeepsInv(s.fan, s'.fan);
    forall i | 0 <= i < |s.aux| ensures WorkerOk(s', i) {
      assert WorkerOk(s, i);
    }
  }

  lemma NextKeepsInv(s: State, s': State)
    requires Inv(s) && Next(s, s')
    ensures Inv(s') && s'.aux == s.aux && Spares(s, s')
  {
    hide Inv, Spares, FailoverOk, FailoverErr, EjectOk, EjectErr, Collecting;
    if i: nat :| FailoverOk(s, s', i) {
      FailoverOkKeeps(s, s', i);
    } else if i: nat, e :| FailoverErr(s, s', i, e) {
      FailoverErrKeeps(s, s', i, e);
    } else if i: nat :| EjectOk(s, s', i) {
      EjectOkKeeps(s, s', i);
    } else if i: nat, e :| EjectErr(s, s', i, e) {
      EjectErrKeeps(s, s', i, e);
    } else {
      CollectingKeeps(s, s');
    }
  }

  // ---------- Every run ----------

  lemma {:induction false} RunInv(ss: seq<State>, nodeId: string, listed: seq<RespNode>)
    requires Run(ss, nodeId, listed)
    ensures Inv(Last(ss)) && Last(ss).aux == AuxNodes(nodeId, listed) && Spares(ss[0], Last(ss))
    decreases |ss|
  {
    hide Inv, Init, Next;
    AuxOfInit(ss[0], nodeId, listed);
    if |ss| == 1 {
      InitInv(ss[0], nodeId, listed);
    } else {
      var n := |ss| - 1;
      RunInv(ss[..n], nodeId, listed);
      assert Next(ss[n - 1], ss[(n - 1) + 1]);
      NextKeepsInv(ss[n - 1], ss[n]);
    }
  }

  lemma AuxOfInit(s: State, nodeId: string, listed: seq<RespNode>)
    requires Init(s, nodeId, listed)
    ensures s.aux == AuxNodes(nodeId, listed)
  {}

  /** No interleaving ever posts about the entry node, so it stays a member just as it was. */
  lemma EntryIsSpared(ss: seq<State>, nodeId: string, listed: seq<RespNode>, entry: RespNode)
    requires Run(ss, nodeId, listed) && entry in listed && entry.hostName == nodeId
    ensures forall k :: 0 <= k < |Last(ss).trace| ==> Last(ss).trace[k].otp != entry.otpNode
    ensures entry.otpNode in Last(ss).members && Last(ss).members[entry.otpNode] == entry.membership
  {
    RunInv(ss, nodeId, listed);
    AuxMembers(nodeId, listed);
    forall n | n in AuxNodes(nodeId, listed) ensures n.otpNode != entry.otpNode {
      var i :| 0 <= i < |listed| && listed[i] == n;
      var j :| 0 <= j < |listed| && listed[j] == entry;
      assert i != j;
    }
  }

  /** Every node that is ejected had only been added, or had been failed over successfully before. */
  lemma EjectedWerePrepared(ss: seq<State>, nodeId: string, listed: seq<RespNode>, k: nat)
    requires Run(ss, nodeId, listed) && k < |Last(ss).trace| && Last(ss).trace[k].Eject?
    ensures var otp := Last(ss).trace[k].otp;
            || (exists n <- listed :: n.otpNode == otp && n.hostName != nodeId && n.membership == INACTIVE_ADDED)
            || (exists j :: 0 <= j < k && Last(ss).trace[j] == Failover(otp, true))
  {
    RunInv(ss, nodeId, listed);
    AuxMembers(nodeId, listed);
    var s := Last(ss);
    assert Prepared(s.aux, s.trace[..k], s.trace[k].otp);
  }

  /** So the servers are never asked to eject a node that is active at that moment. */
  lemma NoActiveNodeIsEjected(ss: seq<State>, nodeId: string, listed: seq<RespNode>, i: nat)
    requires Run(ss, nodeId, listed) && MayEject(Last(ss), i)
    ensures var otp := Last(ss).aux[i].otpNode;
            otp in Last(ss).members && Last(ss).members[otp] in {INACTIVE_ADDED, INACTIVE_FAILED} - {ACTIVE}
  {
    RunInv(ss, nodeId, listed);
    assert WorkerOk(Last(ss), i);
    assert ACTIVE[0] != INACTIVE_ADDED[0] && ACTIVE[0] != INACTIVE_FAILED[0];
  }

  /** A nil result means that every other listed node was ejected: only nodes with the entry's host name
      are members any more. */
  lemma NilMeansDismantled(ss: seq<State>, nodeId: string, listed: seq<RespNode>)
    requires Run(ss, nodeId, listed) && Last(ss).fan.result == Some(None)
    ensures forall n <- listed :: n.hostName != nodeId ==> Eject(n.otpNode, true) in Last(ss).trace
    ensures Last(ss).members.Keys == set n <- listed | n.hostName == nodeId :: n.otpNode
  {
    RunInv(ss, nodeId, listed);
    var s := Last(ss);
    AuxMembers(nodeId, listed);
    EarlyExit.NilFromInv(s.fan);
    forall n | n in listed && n.hostName != nodeId
      ensures Eject(n.otpNode, true) in s.trace && n.otpNode !in s.members
    {
      var i :| 0 <= i < |s.aux| && s.aux[i] == n;
      assert WorkerOk(s, i);
    }
    forall n | n in listed && n.hostName == nodeId ensures n.otpNode in s.members {
      EntryIsSpared(ss, nodeId, listed, n);
    }
    forall otp | otp in s.members ensures exists n <- listed :: n.otpNode == otp && n.hostName == nodeId {
      assert !Names(s.aux, otp);
      assert otp in ss[0].members;
    }
  }

  // ---------- Each call at most once ----------

  ghost predicate Posted(s: State, post: Post) { post in s.trace }

  /** What has been posted about a node, by its phase and its report. */
  ghost predicate PostsOk(s: State, i: nat)
    requires i < |s.aux| == |s.phases| == |s.fan.workers|
  {
    var otp, phase, w := s.aux[i].otpNode, s.phases[i], s.fan.workers[i];
    && (phase == Waiting ==> forall ok :: !Posted(s, Failover(otp, ok)))
    && (phase != Over ==> !Posted(s, Failover(otp, false)) && forall ok :: !Posted(s, Eject(otp, ok)))
    && (phase == Over ==> !w.Busy?)
    && (Posted(s, Eject(otp, true)) ==> Reported(w, None))
    && (Posted(s, Eject(otp, false)) || Posted(s, Failover(otp, false)) ==> !w.Busy? && w.report.Some?)
    && (s.aux[i].membership == INACTIVE_ADDED ==> forall ok :: !Posted(s, Failover(otp, ok)))
    && !(Posted(s, Failover(otp, false)) && exists ok :: Posted(s, Eject(otp, ok)))
  }

  ghost predicate SameCall(a: Post, b: Post) { a.otp == b.otp && a.Failover? == b.Failover? }

  ghost predicate OnceOnly(trace: seq<Post>) {
    forall j, k :: 0 <= j < k < |trace| ==> !SameCall(trace[j], trace[k])
  }

  ghost predicate Orderly(s: State) {
    && |s.aux| == |s.phases| == |s.fan.workers| && Distinct(s.aux) && OnceOnly(s.trace)
    && forall i :: 0 <= i < |s.aux| ==> PostsOk(s, i)
  }

  lemma PostKeepsOrder(s: State, s': State, i: nat, post: Post)
    requires Orderly(s) && Posts(s, s', i, post)
    requires post.Failover? ==> forall ok :: !Posted(s, Failover(post.otp, ok))
    requires post.Eject? ==> forall ok :: !Posted(s, Eject(post.otp, ok))
    requires |s'.phases| == |s'.fan.workers| == |s'.aux| && PostsOk(s', i)
    requires forall k :: 0 <= k < |s.aux| && k != i ==>
               s'.phases[k] == s.phases[k] && s'.fan.workers[k] == s.fan.workers[k]
    ensures Orderly(s')
  {
    forall k | 0 <= k < |s.trace| ensures !SameCall(s.trace[k], post) {
      assert Posted(s, s.trace[k]);
    }
    forall k: nat | k < |s'.aux| && k != i ensures PostsOk(s', k) {
      assert PostsOk(s, k);
      assert s.aux[k].otpNode != s.aux[i].otpNode;
      assert forall p: Post :: p.otp == s.aux[k].otpNode ==> (Posted(s', p) <==> Posted(s, p));
    }
  }

  lemma FailoverKeepsOrder(s: State, s': State, i: nat, e: string)
    requires Orderly(s) && (FailoverOk(s, s', i) || FailoverErr(s, s', i, e))
    ensures Orderly(s')
  {
    assert PostsOk(s, i);
    var post := s'.trace[|s.trace|];
    assert Posts(s, s', i, post);
    PostedMore(s, s', post);
    hide Posted;
    PostKeepsOrder(s, s', i, post);
  }

  lemma EjectKeepsOrder(s: State, s': State, i: nat, e: string)
    requires Orderly(s) && (EjectOk(s, s', i) || EjectErr(s, s', i, e))
    ensures Orderly(s')
  {
    assert PostsOk(s, i);
    var post := s'.trace[|s.trace|];
    assert Posts(s, s', i, post);
    PostedMore(s, s', post);
    hide Posted;
    PostKeepsOrder(s, s', i, post);
  }

  lemma PostedMore(s: State, s': State, post: Post)
    requires s'.trace == s.trace + [post]
    ensures forall p :: Posted(s', p) <==> Posted(s, p) || p == post
  {}

  lemma CollectingKeepsOrder(s: State, s': State)
    requires Orderly(s) && Inv(s) && Collecting(s, s')
    ensures Orderly(s')
  {
    assert |s'.fan.workers| == |s.fan.workers|;
    forall k: nat | k < |s.aux| ensures PostsOk(s', k) {
      assert PostsOk(s, k);
      assert forall p :: Posted(s', p) <==> Posted(s, p);
      assert s'.fan.workers[k] == s.fan.workers[k]
          || (s.fan.workers[k].Ready? && s'.fan.workers[k] == EarlyExit.Sent(s.fan.workers[k].report));
    }
  }

  lemma {:induction false} RunOrderly(ss: seq<State>, nodeId: string, listed: seq<RespNode>)
    requires Run(ss, nodeId, listed)
    ensures Orderly(Last(ss)) && Inv(Last(ss)) && Last(ss).aux == AuxNodes(nodeId, listed)
    decreases |ss|
  {
    hide Orderly, Inv;
    RunInv(ss, nodeId, listed);
    if |ss| == 1 {
      InitOrderly(ss[0], nodeId, listed);
    } else {
      var n := |ss| - 1;
      RunOrderly(ss[..n], nodeId, listed);
      assert Next(ss[n - 1], ss[(n - 1) + 1]);
      NextOrderly(ss[n - 1], ss[n]);
    }
  }

  lemma InitOrderly(s: State, nodeId: string, listed: seq<RespNode>)
    requires Init(s, nodeId, listed)
    ensures Orderly(s)
  {
    AuxDistinct(nodeId, listed);
  }

  lemma NextOrderly(s: State, s': State)
    requires Orderly(s) && Inv(s) && Next(s, s')
    ensures Orderly(s')
  {
    hide Orderly, Inv, FailoverOk, FailoverErr, EjectOk, EjectErr, Collecting;
    if i: nat :| FailoverOk(s, s', i) {
      FailoverKeepsOrder(s, s', i, "");
    } else if i: nat, e :| FailoverErr(s, s', i, e) {
      FailoverKeepsOrder(s, s', i, e);
    } else if i: nat :| EjectOk(s, s', i) {
      EjectKeepsOrder(s, s', i, "");
    } else if i: nat, e :| EjectErr(s, s', i, e) {
      EjectKeepsOrder(s, s', i, e);
    } else {
      CollectingKeepsOrder(s, s');
    }
  }

  /** In every interleaving each call is made at most once for each node; one that was only added is never failed
      over; after a failed failover there is no eject; and a goroutine reports nil exactly if it has ejected its
      node, and an error if one of its calls has failed. */
  lemma CallsAreOrderly(ss: seq<State>, nodeId: string, listed: seq<RespNode>, i: nat)
    requires Run(ss, nodeId, listed) && i < |Last(ss).aux|
    ensures OnceOnly(Last(ss).trace)
    ensures |Last(ss).fan.workers| == |Last(ss).aux|
    ensures var s, n, w := Last(ss), Last(ss).aux[i], Last(ss).fan.workers[i];
            && (n.membership == INACTIVE_ADDED ==> forall ok :: Failover(n.otpNode, ok) !in s.trace)
            && (Failover(n.otpNode, false) in s.trace ==> forall ok :: Eject(n.otpNode, ok) !in s.trace)
            && (Reported(w, None) <==> Eject(n.otpNode, true) in s.trace)
            && (Eject(n.otpNode, false) in s.trace || Failover(n.otpNode, false) in s.trace ==>
                  !w.Busy? && w.report.Some?)
  {
    RunOrderly(ss, nodeId, listed);
    var s := Last(ss);
    assert PostsOk(s, i);
    assert WorkerOk(s, i);
    assert forall p :: Posted(s, p) <==> p in s.trace;
  }
}
