/** What a node object remembers of its cluster (cluster/node.go:38-71, :814-824, :845-873). */
module NodeCache {
  import opened Basics
  import opened Dismantle
  import opened JsonSlices

  // ---------- Decoding an answer ----------

  datatype Field = MembershipField | HostField | StatusField | OtpField

  function Get(n: RespNode, f: Field): string {
    match f
    case MembershipField => n.membership
    case HostField => n.hostName
    case StatusField => n.status
    case OtpField => n.otpNode
  }

  /** A node as a server lists it; None for what it leaves out, or gives with another type than a string. */
  datatype Listing = Listing(
    membership: Option<string>, hostName: Option<string>, status: Option<string>, otpNode: Option<string>)

  function Given(l: Listing, f: Field): Option<string> {
    match f
    case MembershipField => l.membership
    case HostField => l.hostName
    case StatusField => l.status
    case OtpField => l.otpNode
  }

  const BLANK := RespNode("", "", "", "")

  function Or(own: Option<string>, kept: string): string { if own.Some? then own.value else kept }

  function Merged(kept: RespNode, l: Listing): RespNode {
    RespNode(Or(l.membership, kept.membership), Or(l.hostName, kept.hostName), Or(l.status, kept.status),
             Or(l.otpNode, kept.otpNode))
  }

  lemma MergedField(kept: RespNode, l: Listing, f: Field)
    ensures Get(Merged(kept, l), f) == Or(Given(l, f), Get(kept, f))
  {}

  /** A server's answer to GET /pools/nodes: an error or no JSON at all; or a text, whose `nodes` may be left out,
      and in which something may have a wrong type, which is an error but does not keep the rest from being used. */
  datatype Answer = Error | Text(nodes: Option<seq<Listing>>, mistyped: bool)

  /** A call of Update with the server's answer to it. */
  datatype Call = Call(force: bool, answer: Answer)

  /** Only the first call and the forced ones go to the server. */
  predicate Asks(calls: seq<Call>, k: nat)
    requires k < |calls|
  {
    k == 0 || calls[k].force
  }

  /** The call got a list of nodes. */
  predicate Lists(calls: seq<Call>, k: nat)
    requires k < |calls|
  {
    Asks(calls, k) && calls[k].answer.Text? && calls[k].answer.nodes.Some?
  }

  /** The remembered nodes, with what their memory holds besides; before any call the pointer is nil. */
  function Known(calls: seq<Call>): Slice<RespNode> {
    if calls == [] then Slice([], [])
    else
      var k := |calls| - 1;
      var before := Known(calls[..k]);
      if Lists(calls, k) then Decode(before, calls[k].answer.nodes.value, BLANK, Merged) else before
  }

  // ---------- What is remembered ----------

  /** The call gave this field of the node at this place. */
  predicate Gives(calls: seq<Call>, k: nat, i: nat, f: Field)
    requires k < |calls|
  {
    Lists(calls, k) && i < |calls[k].answer.nodes.value| && Given(calls[k].answer.nodes.value[i], f).Some?
  }

  /** An empty list makes the memory start afresh. */
  predicate Clears(calls: seq<Call>, k: nat)
    requires k < |calls|
  {
    Lists(calls, k) && calls[k].answer.nodes.value == []
  }

  ghost predicate Untouched(calls: seq<Call>, from: nat, i: nat, f: Field) {
    forall k :: from <= k < |calls| ==> !Gives(calls, k, i, f) && !Clears(calls, k)
  }

  /** The last call that gave the field, with no empty list since. */
  ghost predicate LastGives(calls: seq<Call>, k: nat, i: nat, f: Field) {
    k < |calls| && Gives(calls, k, i, f) && Untouched(calls, k + 1, i, f)
  }

  lemma KnownNext(calls: seq<Call>, call: Call)
    ensures var more, k := calls + [call], |calls|;
            Known(more) == if Lists(more, k) then Decode(Known(calls), call.answer.nodes.value, BLANK, Merged)
                           else Known(calls)
  {
    assert (calls + [call])[..|calls|] == calls;
  }

  lemma NothingKnown()
    ensures Known([]) == Slice([], [])
  {}

  lemma DecodedField(s: Slice<RespNode>, nodes: seq<Listing>, i: nat, f: Field)
    ensures Get(At(Decode(s, nodes, BLANK, Merged), i, BLANK), f)
            == if nodes == [] then ""
               else if i < |nodes| && Given(nodes[i], f).Some? then Given(nodes[i], f).value
               else Get(At(s, i, BLANK), f)
  {
    if nodes != [] {
      DecodedAt(s, nodes, BLANK, Merged, i);
      hide At, Decode, Get, Given;
      if i < |nodes| {
        MergedField(At(s, i, BLANK), nodes[i], f);
      }
    }
  }

  lemma KnownStep(calls: seq<Call>, call: Call, i: nat, f: Field)
    ensures var more, k := calls + [call], |calls|;
            Get(At(Known(more), i, BLANK), f)
            == if Clears(more, k) then ""
               else if Gives(more, k, i, f) then Given(call.answer.nodes.value[i], f).value
               else Get(At(Known(calls), i, BLANK), f)
  {
    hide Known, At, Decode, Get, Given;
    KnownNext(calls, call);
    if Lists(calls + [call], |calls|) {
      DecodedField(Known(calls), call.answer.nodes.value, i, f);
    }
  }

  /** Each field of each place is what the last call that gave it said, for whichever server that was then; it is
      empty if none did since the memory last started afresh. */
  lemma {:induction false} KnownIsLastGiven(calls: seq<Call>, k: nat, i: nat, f: Field)
    ensures LastGives(calls, k, i, f) ==>
              Get(At(Known(calls), i, BLANK), f) == Given(calls[k].answer.nodes.value[i], f).value
    ensures k <= |calls| && Untouched(calls, k, i, f) && (k == 0 || Clears(calls, k - 1)) ==>
              Get(At(Known(calls), i, BLANK), f) == ""
  {
    if calls != [] {
      var n := |calls| - 1;
      var init := calls[..n];
      assert calls == init + [calls[n]];
      KnownStep(init, calls[n], i, f);
      hide Known, At, Get, Given;
      SameBefore(calls, i, f);
      KnownIsLastGiven(init, k, i, f);
    }
  }

  lemma SameBefore(calls: seq<Call>, i: nat, f: Field)
    requires calls != []
    ensures var n := |calls| - 1;
            forall j: nat :: j < n ==>
              Gives(calls[..n], j, i, f) == Gives(calls, j, i, f) && Clears(calls[..n], j) == Clears(calls, j)
  {}

  /** The list has as many nodes as the last list that was got. */
  lemma {:induction false} KnownLength(calls: seq<Call>, k: nat)
    requires k < |calls| && Lists(calls, k) && forall j :: k < j < |calls| ==> !Lists(calls, j)
    ensures |Known(calls).list| == |calls[k].answer.nodes.value|
  {
    var n := |calls| - 1;
    if k < n {
      var init := calls[..n];
      assert forall j :: 0 <= j < n ==> Lists(init, j) == Lists(calls, j);
      KnownLength(init, k);
    } else if calls[k].answer.nodes.value != [] {
      DecodedAt(Known(calls[..k]), calls[k].answer.nodes.value, BLANK, Merged, 0);
    }
  }

  /** A node that is listed without its membership keeps the one of whatever node was listed at its place before. */
  lemma StaleMembership()
    ensures var one := Listing(Some(ACTIVE), Some("a:8091"), Some("healthy"), Some("ns_1@a"));
            var other := Listing(None, Some("b:8091"), Some("healthy"), Some("ns_1@b"));
            Known([Call(true, Text(Some([one]), false)), Call(true, Text(Some([other]), false))]).list
            == [RespNode(ACTIVE, "b:8091", "healthy", "ns_1@b")]
  {
    var one := Listing(Some(ACTIVE), Some("a:8091"), Some("healthy"), Some("ns_1@a"));
    var other := Listing(None, Some("b:8091"), Some("healthy"), Some("ns_1@b"));
    var first, second := Call(true, Text(Some([one]), false)), Call(true, Text(Some([other]), false));
    KnownNext([], first);
    KnownNext([first], second);
    assert [] + [first] == [first] && [first] + [second] == [first, second];
    DecodedAt(Slice([], []), [one], BLANK, Merged, 0);
    DecodedAt(Known([first]), [other], BLANK, Merged, 0);
  }

  // ---------- Membership ----------

  /** What Membership finds in a list for a host, or None for its error. */
  function FirstMembership(list: seq<RespNode>, host: string): Option<string> {
    if list == [] then None
    else if list[0].hostName == host then Some(list[0].membership)
    else FirstMembership(list[1..], host)
  }

  lemma {:induction false} MembershipIsListed(list: seq<RespNode>, host: string)
    ensures FirstMembership(list, host).Some? <==> exists n <- list :: n.hostName == host
    ensures FirstMembership(list, host).Some? ==>
              exists i :: 0 <= i < |list| && list[i].hostName == host
                          && FirstMembership(list, host) == Some(list[i].membership)
                          && forall j :: 0 <= j < i ==> list[j].hostName != host
  {
    if list != [] {
      MembershipIsListed(list[1..], host);
      assert list == [list[0]] + list[1..];
      if list[0].hostName != host && FirstMembership(list[1..], host).Some? {
        var i :| 0 <= i < |list[1..]| && list[1..][i].hostName == host
                 && FirstMembership(list[1..], host) == Some(list[1..][i].membership)
                 && forall j :: 0 <= j < i ==> list[1..][j].hostName != host;
        assert list[i + 1] == list[1..][i];
        assert forall j :: 0 < j < i + 1 ==> list[j] == list[1..][j - 1];
      }
    }
  }

  lemma {:induction false} UnforcedIsTheFirst(calls: seq<Call>)
    requires calls != [] && forall k :: 0 < k < |calls| ==> !calls[k].force
    ensures Known(calls) == Known(calls[..1])
  {
    if |calls| > 1 {
      var n := |calls| - 1;
      UnforcedIsTheFirst(calls[..n]);
      assert calls[..n][..1] == calls[..1];
    } else {
      assert calls[..1] == calls;
    }
  }

  /** Unless an update is forced, a node gives its membership of the first answer, for ever; when the first
      call got none, every one after it is as useless, whatever the server would say by then. */
  lemma UnforcedSeesTheFirst(calls: seq<Call>, host: string)
    requires calls != [] && forall k :: 0 < k < |calls| ==> !calls[k].force
    ensures FirstMembership(Known(calls).list, host).Some?
            <==> Lists(calls, 0) && exists l <- calls[0].answer.nodes.value :: Or(l.hostName, "") == host
  {
    UnforcedIsTheFirst(calls);
    var list := Known(calls).list;
    MembershipIsListed(list, host);
    KnownNext([], calls[0]);
    assert [] + [calls[0]] == calls[..1];
    if Lists(calls, 0) {
      FirstListing(calls[0].answer.nodes.value);
      var nodes := calls[0].answer.nodes.value;
      hide Known, Decode;
      if l :| l in nodes && Or(l.hostName, "") == host {
        var i :| 0 <= i < |nodes| && nodes[i] == l;
        assert list[i] in list;
      }
    }
  }

  lemma FirstListing(nodes: seq<Listing>)
    ensures var list := Decode(Slice([], []), nodes, BLANK, Merged).list;
            |list| == |nodes| && forall i :: 0 <= i < |nodes| ==> list[i] == Merged(BLANK, nodes[i])
  {
    forall i: nat | i < |nodes|
      ensures var list := Decode(Slice([], []), nodes, BLANK, Merged).list;
              i < |list| && list[i] == Merged(BLANK, nodes[i])
    {
      DecodedAt(Slice([], []), nodes, BLANK, Merged, i);
    }
  }

  // ---------- The node ----------

  class CachingNode {
    const hostName: string
    const port: string
    /** None is the nil pointer of a node that was never updated. */
    var poolsNodes: Option<Slice<RespNode>>
    var otpNode: string
    /** All calls of Update so far. */
    ghost var calls: seq<Call>

    ghost predicate Valid()
      reads this
    {
      poolsNodes == if calls == [] then None else Some(Known(calls))
    }

    constructor (hostName: string, port: string)
      ensures Valid() && calls == [] && otpNode == "" && this.hostName == hostName && this.port == port
    {
      this.hostName, this.port := hostName, port;
      poolsNodes, otpNode, calls := None, "", [];
    }

    function GetId(): string {
      hostName + ":" + port
    }

    /** Update; `answer` is what the server says if it is asked.  The callers in cluster/manager.go drop its
        error. */
    method Update(force: bool, answer: Answer) returns (ok: bool)
      requires Valid()
      modifies this
      ensures Valid() && calls == old(calls) + [Call(force, answer)]
      ensures ok == (!Asks(calls, |calls| - 1) || (answer.Text? && !answer.mistyped))
      ensures otpNode == if Asks(calls, |calls| - 1) && ok
                         then LastOtp(Known(calls).list, GetId(), old(otpNode)) else old(otpNode)
    {
      hide LastOtp, Known, Decode;
      KnownNext(calls, Call(force, answer));
      NothingKnown();
      calls := calls + [Call(force, answer)];
      if poolsNodes.Some? && !force {
        return true;
      }
      if poolsNodes.None? {
        poolsNodes := Some(Slice([], []));
      }
      if answer.Error? {
        return false;
      }
      var nodeId := GetId();
      if answer.nodes.Some? {
        poolsNodes := Some(Decode(poolsNodes.value, answer.nodes.value, BLANK, Merged));
      }
      if answer.mistyped {
        return false;
      }
      var list := poolsNodes.value.list;
      LastOtpStep(list, 0, nodeId, otpNode);
      assert list[..0] == [];
      for i := 0 to |list|
        invariant Valid() && calls == old(calls) + [Call(force, answer)]
        invariant poolsNodes.Some? && poolsNodes.value.list == list
        invariant otpNode == LastOtp(list[..i], nodeId, old(otpNode))
      {
        LastOtpStep(list, i, nodeId, old(otpNode));
        if list[i].hostName == nodeId {
          otpNode := list[i].otpNode;
        }
      }
      assert list[..|list|] == list;
      ok := true;
    }

    /** Membership; a node that was never updated has a nil list (cluster/node.go:816). */
    method Membership() returns (r: Option<string>)
      requires Valid() && calls != []
      ensures r == FirstMembership(Known(calls).list, GetId())
    {
      var thisHost := GetId();
      var list := poolsNodes.value.list;
      for i := 0 to |list|
        invariant FirstMembership(list, thisHost) == FirstMembership(list[i..], thisHost)
      {
        if list[i].hostName == thisHost {
          return Some(list[i].membership);
        }
        assert list[i..][1..] == list[i + 1..];
      }
      r := None;
    }
  }

  lemma LastOtpStep(list: seq<RespNode>, i: nat, host: string, otherwise: string)
    requires i <= |list|
    ensures LastOtp([], host, otherwise) == otherwise
    ensures i < |list| ==>
              LastOtp(list[..i + 1], host, otherwise)
              == if list[i].hostName == host then list[i].otpNode else LastOtp(list[..i], host, otherwise)
  {
    if i < |list| {
      assert list[..i + 1][..i] == list[..i];
    }
  }

  /** The otp name that a list gives for a host last. */
  function LastOtp(list: seq<RespNode>, host: string, otherwise: string): string {
    if list == [] then otherwise
    else
      var k := |list| - 1;
      if list[k].hostName == host then list[k].otpNode else LastOtp(list[..k], host, otherwise)
  }

  /** The otp name is that of the last listed node with this host. */
  lemma {:induction false} OtpIsLastListed(list: seq<RespNode>, host: string, otherwise: string, i: nat)
    requires i < |list| && list[i].hostName == host && forall j :: i < j < |list| ==> list[j].hostName != host
    ensures LastOtp(list, host, otherwise) == list[i].otpNode
  {
    var k := |list| - 1;
    if i < k {
      OtpIsLastListed(list[..k], host, otherwise, i);
    }
  }

  /** It stays what it was if there is no such node. */
  lemma {:induction false} OtpStays(list: seq<RespNode>, host: string, otherwise: string)
    requires forall i :: 0 <= i < |list| ==> list[i].hostName != host
    ensures LastOtp(list, host, otherwise) == otherwise
  {
    if list != [] {
      OtpStays(list[..|list| - 1], host, otherwise);
    }
  }
}
