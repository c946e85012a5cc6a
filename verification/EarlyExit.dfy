/** Fan-in whose collector returns at the first error or at a timeout: restCallToAux with a buffer for
    every worker, pollJoinReadyAll without a buffer (cluster/node.go:749-771, cluster/manager.go:174-202). */
module EarlyExit {
  import opened Basics

  /** Working, holding a report to send, or done with sending it. */
  datatype Worker = Busy | Ready(report: Report) | Sent(report: Report)

  /** `result` is None until the collector returns. */
  datatype State = State(
    workers: seq<Worker>, capacity: nat, buffer: seq<Report>, wait: int, result: Option<Report>)

  ghost predicate Init(s: State) {
    && s.workers != [] && (forall i :: 0 <= i < |s.workers| ==> s.workers[i].Busy?)
    && s.buffer == [] && s.wait == |s.workers| && s.result == None
    && (s.capacity == |s.workers| || s.capacity == 0)
  }

  ghost predicate Finish(s: State, s': State, i: nat, r: Report) {
    i < |s.workers| && s.workers[i].Busy? && s' == s.(workers := s.workers[i := Ready(r)])
  }

  ghost predicate SendToBuffer(s: State, s': State, i: nat) {
    && i < |s.workers| && s.workers[i].Ready? && |s.buffer| < s.capacity
    && s' == s.(workers := s.workers[i := Sent(s.workers[i].report)], buffer := s.buffer + [s.workers[i].report])
  }

  function Taken(s: State, r: Report): State {
    s.(wait := s.wait - 1, result := if r.Some? || s.wait - 1 == 0 then Some(r) else None)
  }

  ghost predicate Receive(s: State, s': State) {
    s.result.None? && s.buffer != [] && s' == Taken(s, s.buffer[0]).(buffer := s.buffer[1..])
  }

  /** Without a buffer a send happens only together with its receive. */
  ghost predicate Rendezvous(s: State, s': State, i: nat) {
    && s.capacity == 0 && s.result.None? && i < |s.workers| && s.workers[i].Ready?
    && s' == Taken(s, s.workers[i].report).(workers := s.workers[i := Sent(s.workers[i].report)])
  }

  ghost predicate TimeOut(s: State, s': State) {
    s.result.None? && s' == s.(result := Some(Some("Timeout")))
  }

  ghost predicate Next(s: State, s': State) {
    || (exists i: nat, r :: Finish(s, s', i, r))
    || (exists i: nat :: SendToBuffer(s, s', i))
    || Receive(s, s')
    || (exists i: nat :: Rendezvous(s, s', i))
    || TimeOut(s, s')
  }

  ghost predicate Run(ss: seq<State>) {
    && |ss| > 0 && Init(ss[0])
    && forall i :: 0 <= i < |ss| - 1 ==> Next(ss[i], ss[i + 1])
  }

  function Last(ss: seq<State>): State
    requires |ss| > 0
  {
    ss[|ss| - 1]
  }

  function SentCount(ws: seq<Worker>): nat {
    if ws == [] then 0 else SentCount(ws[..|ws| - 1]) + (if ws[|ws| - 1].Sent? then 1 else 0)
  }

  lemma {:induction false} SentCountUpdate(ws: seq<Worker>, i: nat, w: Worker)
    requires i < |ws|
    ensures SentCount(ws[i := w]) == SentCount(ws) - (if ws[i].Sent? then 1 else 0) + (if w.Sent? then 1 else 0)
  {
    var last := |ws| - 1;
    if i == last {
      assert ws[i := w][..last] == ws[..last];
    } else {
      SentCountUpdate(ws[..last], i, w);
      assert ws[i := w][..last] == ws[..last][i := w];
    }
  }

  lemma {:induction false} SentCountBound(ws: seq<Worker>)
    ensures SentCount(ws) <= |ws|
    ensures SentCount(ws) == |ws| <==> forall i :: 0 <= i < |ws| ==> ws[i].Sent?
    ensures SentCount(ws) == 0 <==> forall i :: 0 <= i < |ws| ==> !ws[i].Sent?
  {
    if ws != [] {
      SentCountBound(ws[..|ws| - 1]);
    }
  }

  /** Each report that was sent is in the buffer or was received. */
  ghost predicate Inv(s: State) {
    && s.workers != [] && (s.capacity == |s.workers| || s.capacity == 0)
    && SentCount(s.workers) == |s.buffer| + |s.workers| - s.wait
    && |s.buffer| <= s.capacity
    && (forall i :: 0 <= i < |s.workers| && s.workers[i].Sent? && s.workers[i].report.Some? ==>
          s.workers[i].report in s.buffer || (s.result.Some? && s.result.value.Some?))
    && (s.result == Some(None) ==> s.wait == 0)
    && (s.result == None ==> 0 < s.wait)
    && 0 <= s.wait <= |s.workers|
  }

  lemma InitInv(s: State)
    requires Init(s)
    ensures Inv(s)
  {
    SentCountBound(s.workers);
  }

  lemma NextKeepsInv(s: State, s': State)
    requires Inv(s) && Next(s, s')
    ensures Inv(s')
    ensures s'.capacity == s.capacity && |s'.workers| == |s.workers|
    ensures s.result.Some? ==> s'.result == s.result && s'.wait == s.wait
  {
    if i: nat, r :| Finish(s, s', i, r) {
      SentCountUpdate(s.workers, i, Ready(r));
    } else if i: nat :| SendToBuffer(s, s', i) {
      SentCountUpdate(s.workers, i, s'.workers[i]);
      assert s'.buffer[|s.buffer|] == s.workers[i].report;
    } else if Receive(s, s') {
      assert s.buffer == [s.buffer[0]] + s'.buffer;
    } else if i: nat :| Rendezvous(s, s', i) {
      SentCountUpdate(s.workers, i, s'.workers[i]);
    }
  }

  lemma {:induction false} RunInv(ss: seq<State>)
    requires Run(ss)
    ensures var s := Last(ss);
            Inv(s) && s.capacity == ss[0].capacity && |s.workers| == |ss[0].workers|
    decreases |ss|
  {
    if |ss| == 1 {
      InitInv(ss[0]);
    } else {
      var n := |ss| - 1;
      RunInv(ss[..n]);
      assert Next(ss[n - 1], ss[(n - 1) + 1]);
      NextKeepsInv(ss[n - 1], ss[n]);
    }
  }

  /** With a buffer for every worker no worker ever waits to send, not even after the collector has
      returned on an error or a timeout. */
  lemma BufferedSendNeverBlocks(ss: seq<State>, i: nat)
    requires Run(ss) && ss[0].capacity == |ss[0].workers|
    requires i < |Last(ss).workers| && Last(ss).workers[i].Ready?
    ensures exists s' :: SendToBuffer(Last(ss), s', i)
  {
    RunInv(ss);
    var s := Last(ss);
    SentCountBound(s.workers);
    assert SentCount(s.workers) < |s.workers|;
    var r := s.workers[i].report;
    assert SendToBuffer(s, s.(workers := s.workers[i := Sent(r)], buffer := s.buffer + [r]), i);
  }

  /** In both forms a nil result means that every worker has sent nil. */
  lemma NilMeansAllNil(ss: seq<State>)
    requires Run(ss) && Last(ss).result == Some(None)
    ensures forall i :: 0 <= i < |Last(ss).workers| ==> Last(ss).workers[i] == Sent(None)
  {
    RunInv(ss);
    NilFromInv(Last(ss));
  }

  lemma NilFromInv(s: State)
    requires Inv(s) && s.result == Some(None)
    ensures forall i :: 0 <= i < |s.workers| ==> s.workers[i] == Sent(None)
  {
    SentCountBound(s.workers);
  }

  /** While the collector waits, some step other than the timeout is possible: a worker that works can
      finish, and a finished one's report can reach the collector. */
  lemma CollectorNeverStarves(ss: seq<State>) returns (s': State)
    requires Run(ss) && Last(ss).result == None
    ensures Next(Last(ss), s') && !TimeOut(Last(ss), s')
  {
    RunInv(ss);
    var s := Last(ss);
    SentCountBound(s.workers);
    if s.buffer != [] {
      s' := Taken(s, s.buffer[0]).(buffer := s.buffer[1..]);
      assert Receive(s, s') && |s'.buffer| < |s.buffer|;
    } else {
      assert SentCount(s.workers) < |s.workers|;
      var i: nat :| i < |s.workers| && !s.workers[i].Sent?;
      if s.workers[i].Busy? {
        s' := s.(workers := s.workers[i := Ready(None)]);
        assert Finish(s, s', i, None);
      } else {
        var r := s.workers[i].report;
        if s.capacity == 0 {
          s' := Taken(s, r).(workers := s.workers[i := Sent(r)]);
          assert Rendezvous(s, s', i);
        } else {
          s' := s.(workers := s.workers[i := Sent(r)], buffer := s.buffer + [r]);
          assert SendToBuffer(s, s', i);
        }
      }
      assert s'.workers != s.workers;
    }
  }

  /** Without a buffer, whoever has not been received when the collector returns is stuck on its send for
      good, and that is exactly the number of reports the collector was still waiting for. */
  lemma UnbufferedStrands(ss: seq<State>, more: seq<State>)
    requires Run(ss) && ss[0].capacity == 0 && Last(ss).result.Some?
    requires |more| > 0 && more[0] == Last(ss)
    requires forall k :: 0 <= k < |more| - 1 ==> Next(more[k], more[k + 1])
    ensures var s, t := Last(ss), Last(more);
            && (forall i :: 0 <= i < |s.workers| && i < |t.workers| && !s.workers[i].Sent? ==> !t.workers[i].Sent?)
            && |s.workers| - SentCount(s.workers) == s.wait
            && |t.workers| - SentCount(t.workers) == s.wait
  {
    RunInv(ss);
    StrandedStay(more);
  }

  lemma {:induction false} StrandedStay(more: seq<State>)
    requires |more| > 0 && Inv(more[0]) && more[0].capacity == 0 && more[0].result.Some?
    requires forall k :: 0 <= k < |more| - 1 ==> Next(more[k], more[k + 1])
    ensures var s, t := more[0], Last(more);
            && Inv(t) && t.capacity == 0 && t.result.Some? && |t.workers| == |s.workers| && t.wait == s.wait
            && (forall i :: 0 <= i < |s.workers| && !s.workers[i].Sent? ==> !t.workers[i].Sent?)
    decreases |more|
  {
    hide Inv, Next;
    if |more| > 1 {
      var n := |more| - 1;
      StrandedStay(more[..n]);
      assert Next(more[n - 1], more[(n - 1) + 1]);
      NextKeepsInv(more[n - 1], more[n]);
      NextStrands(more[n - 1], more[n]);
    }
  }

  lemma NextStrands(s: State, s': State)
    requires s.capacity == 0 && s.result.Some? && Next(s, s')
    ensures |s'.workers| == |s.workers|
    ensures forall i :: 0 <= i < |s.workers| && !s.workers[i].Sent? ==> !s'.workers[i].Sent?
  {}

  /** So the two forms differ: with no buffer a worker can be left behind. */
  lemma PollCanStrand() returns (ss: seq<State>)
    ensures Run(ss) && ss[0].capacity == 0
    ensures Last(ss).result == Some(Some("refused")) && Last(ss).wait == 1
    ensures Last(ss).workers == [Sent(Some("refused")), Ready(None)]
  {
    var s0 := State([Busy, Busy], 0, [], 2, None);
    var s1 := s0.(workers := [Ready(Some("refused")), Busy]);
    var s2 := s1.(workers := [Ready(Some("refused")), Ready(None)]);
    var s3 := State([Sent(Some("refused")), Ready(None)], 0, [], 1, Some(Some("refused")));
    assert Finish(s0, s1, 0, Some("refused"));
    assert Finish(s1, s2, 1, None);
    assert Rendezvous(s2, s3, 0);
    ss := [s0, s1, s2, s3];
    assert forall i :: 0 <= i < |ss| - 1 ==> Next(ss[i], ss[i + 1]);
  }

  ghost predicate SomeSent(ws: seq<Worker>, r: Report) { exists i :: 0 <= i < |ws| && ws[i] == Sent(r) }

  ghost predicate Sourced(s: State) {
    && (forall r <- s.buffer :: SomeSent(s.workers, r))
    && (s.result.Some? ==> SomeSent(s.workers, s.result.value) || s.result.value == Some("Timeout"))
  }

  lemma NextKeepsSourced(s: State, s': State)
    requires Sourced(s) && Next(s, s')
    ensures Sourced(s')
  {
    forall r | SomeSent(s.workers, r) ensures SomeSent(s'.workers, r) {
      var i :| 0 <= i < |s.workers| && s.workers[i] == Sent(r);
      assert s'.workers[i] == Sent(r);
    }
    if i: nat :| SendToBuffer(s, s', i) {
      assert s'.workers[i] == Sent(s.workers[i].report);
    } else if i: nat :| Rendezvous(s, s', i) {
      assert s'.workers[i] == Sent(s.workers[i].report);
    }
  }

  /** In both forms, what the collector returns is what some worker has sent, or the timeout's error. */
  lemma {:induction false} ResultWasSent(ss: seq<State>)
    requires Run(ss)
    ensures Sourced(Last(ss))
    ensures Last(ss).result.Some? ==>
              SomeSent(Last(ss).workers, Last(ss).result.value) || Last(ss).result.value == Some("Timeout")
    decreases |ss|
  {
    hide Next;
    if |ss| > 1 {
      var n := |ss| - 1;
      ResultWasSent(ss[..n]);
      assert Next(ss[n - 1], ss[(n - 1) + 1]);
      NextKeepsSourced(ss[n - 1], ss[n]);
    }
  }
}
