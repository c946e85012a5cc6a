/** Fan-out and fan-in over an unbuffered channel that is always drained: allocateCluster, killCluster,
    killAllClusters and cleanupClusters, nested in one another to any depth. */
module FanIn {
  import opened Basics

  predicate AllNil(rs: seq<Report>) { forall r <- rs :: r.None? }

  /** The first error wins. */
  function Keep(err: Report, r: Report): Report {
    if err.None? then r else err
  }

  /** The collecting loop, given the order in which the reports happen to arrive
      (daemon/clusters.go:202-208, :316-322, :352-358, daemon/daemon.go:217-223). */
  method Collect(arrivals: seq<Report>) returns (err: Report)
    ensures err.None? <==> AllNil(arrivals)
    ensures err.Some? ==> exists i :: 0 <= i < |arrivals| && arrivals[i] == err && AllNil(arrivals[..i])
  {
    err := None;
    for i := 0 to |arrivals|
      invariant err.None? <==> AllNil(arrivals[..i])
      invariant err.Some? ==> exists k :: 0 <= k < i && arrivals[k] == err && AllNil(arrivals[..k])
    {
      var r := arrivals[i];
      assert arrivals[..i + 1] == arrivals[..i] + [r];
      if r.Some? && err.None? {
        err := r;
      }
    }
    assert arrivals[..|arrivals|] == arrivals;
  }

  // ---------- Calls within calls ----------

  /** Working, blocked on the send to the caller's channel, or done with it. */
  datatype Stage = Running | Blocked | Gone

  /** A goroutine: either a plain piece of work that will report `outcome`, or a call that collects the
      reports of its own goroutines first; `taken` are those that have arrived, in order. */
  datatype Task =
    | Work(outcome: Report, stage: Stage)
    | Call(kids: seq<Task>, taken: seq<Report>, err: Report, stage: Stage)

  function ReportOf(t: Task): Report {
    match t case Work(outcome, _) => outcome case Call(_, _, err, _) => err
  }

  function At(t: Task, stage: Stage): Task {
    match t
    case Work(outcome, _) => Work(outcome, stage)
    case Call(kids, taken, err, _) => Call(kids, taken, err, stage)
  }

  ghost predicate FinishesWork(t: Task, t': Task) {
    t.Work? && t.stage.Running? && t' == At(t, Blocked)
  }

  ghost predicate Returns(t: Task, t': Task) {
    t.Call? && t.stage.Running? && |t.taken| == |t.kids| && t' == At(t, Blocked)
  }

  /** The collector takes the report of goroutine i off the channel. */
  ghost predicate Receives(t: Task, t': Task, i: nat) {
    && t.Call? && t.stage.Running? && |t.taken| < |t.kids| && i < |t.kids| && t.kids[i].stage.Blocked?
    && t' == t.(kids := t.kids[i := At(t.kids[i], Gone)], taken := t.taken + [ReportOf(t.kids[i])],
                err := Keep(t.err, ReportOf(t.kids[i])))
  }

  /** One step of one goroutine anywhere in the tree. */
  ghost predicate Step(t: Task, t': Task)
    decreases t
  {
    || FinishesWork(t, t')
    || Returns(t, t')
    || (exists i: nat :: Receives(t, t', i))
    || (exists i: nat :: Inside(t, t', i) && Step(t.kids[i], t'.kids[i]))
  }

  ghost predicate Inside(t: Task, t': Task, i: nat) {
    && t.Call? && t'.Call? && i < |t.kids| && |t'.kids| == |t.kids|
    && t' == t.(kids := t.kids[i := t'.kids[i]])
  }

  /** Everything is about to start. */
  ghost predicate Fresh(t: Task) {
    match t
    case Work(_, stage) => stage.Running?
    case Call(kids, taken, err, stage) =>
      taken == [] && err.None? && stage.Running? && forall i :: 0 <= i < |kids| ==> Fresh(kids[i])
  }

  /** Nothing in the tree will ever report an error. */
  ghost predicate ErrorFree(t: Task) {
    match t
    case Work(outcome, _) => outcome.None?
    case Call(kids, _, _, _) => forall i :: 0 <= i < |kids| ==> ErrorFree(kids[i])
  }

  /** No goroutine below this one is left. */
  ghost predicate AllGone(t: Task) {
    t.Call? ==> forall i :: 0 <= i < |t.kids| ==> t.kids[i].stage.Gone? && AllGone(t.kids[i])
  }

  function GoneCount(kids: seq<Task>): nat {
    if kids == [] then 0 else GoneCount(kids[..|kids| - 1]) + (if kids[|kids| - 1].stage.Gone? then 1 else 0)
  }

  /** The collector's two variables say what it has taken so far. */
  ghost predicate Counted(t: Task)
    requires t.Call?
  {
    && |t.taken| == GoneCount(t.kids)
    && (t.err.None? <==> forall i :: 0 <= i < |t.kids| && t.kids[i].stage.Gone? ==> ReportOf(t.kids[i]).None?)
    && (!t.stage.Running? ==> |t.taken| == |t.kids|)
  }

  ghost predicate Proper(t: Task) {
    t.Call? ==> Counted(t) && forall i :: 0 <= i < |t.kids| ==> Proper(t.kids[i])
  }

  lemma {:induction false} GoneCountUpdate(kids: seq<Task>, i: nat, kid: Task)
    requires i < |kids|
    ensures GoneCount(kids[i := kid])
            == GoneCount(kids) - (if kids[i].stage.Gone? then 1 else 0) + (if kid.stage.Gone? then 1 else 0)
  {
    var last := |kids| - 1;
    if i == last {
      assert kids[i := kid][..last] == kids[..last];
    } else {
      GoneCountUpdate(kids[..last], i, kid);
      assert kids[i := kid][..last] == kids[..last][i := kid];
    }
  }

  lemma {:induction false} GoneCountFull(kids: seq<Task>)
    ensures GoneCount(kids) <= |kids|
    ensures GoneCount(kids) == |kids| <==> forall i :: 0 <= i < |kids| ==> kids[i].stage.Gone?
  {
    if kids != [] {
      GoneCountFull(kids[..|kids| - 1]);
    }
  }

  lemma {:induction false} FreshIsProper(t: Task)
    requires Fresh(t)
    ensures Proper(t)
    decreases t
  {
    if t.Call? {
      NoneGone(t.kids);
      forall i | 0 <= i < |t.kids| ensures Proper(t.kids[i]) {
        FreshIsProper(t.kids[i]);
      }
    }
  }

  lemma {:induction false} NoneGone(kids: seq<Task>)
    requires forall i :: 0 <= i < |kids| ==> !kids[i].stage.Gone?
    ensures GoneCount(kids) == 0
  {
    if kids != [] {
      NoneGone(kids[..|kids| - 1]);
    }
  }

  /** A step never un-finishes a goroutine, and only the receiver makes one go. */
  lemma StepStage(t: Task, t': Task)
    requires Proper(t) && Step(t, t')
    ensures t'.stage == t.stage || (t.stage.Running? && t'.stage.Blocked?)
    ensures !t.stage.Running? ==> ReportOf(t') == ReportOf(t)
  {}

  /** The kept error is nil as long as every report taken was. */
  lemma ReceiveKeepsError(t: Task, t': Task, i: nat)
    requires Proper(t) && Receives(t, t', i)
    ensures t'.err.None? <==> forall k :: 0 <= k < |t'.kids| && t'.kids[k].stage.Gone? ==> ReportOf(t'.kids[k]).None?
  {
    assert ReportOf(t'.kids[i]) == ReportOf(t.kids[i]);
    if t.err.None? {
      forall k | 0 <= k < |t'.kids| && t'.kids[k].stage.Gone? && k != i ensures ReportOf(t'.kids[k]).None? {
        assert t'.kids[k] == t.kids[k];
      }
    } else {
      var k :| 0 <= k < |t.kids| && t.kids[k].stage.Gone? && ReportOf(t.kids[k]).Some?;
      assert t'.kids[k] == t.kids[k];
    }
  }

  lemma {:induction false} StepKeepsProper(t: Task, t': Task)
    requires Proper(t) && Step(t, t')
    ensures Proper(t')
    decreases t
  {
    if FinishesWork(t, t') || Returns(t, t') {
    } else if i: nat :| Receives(t, t', i) {
      GoneCountUpdate(t.kids, i, t'.kids[i]);
      ReceiveKeepsError(t, t', i);
      hide Step, GoneCount;
      ProperIgnoresGoing(t.kids[i]);
      forall k | 0 <= k < |t'.kids| ensures Proper(t'.kids[k]) {}
    } else {
      var i: nat :| Inside(t, t', i) && Step(t.kids[i], t'.kids[i]);
      StepKeepsProper(t.kids[i], t'.kids[i]);
      InsideKeepsCounts(t, t', i);
      hide Step, Counted;
      forall k | 0 <= k < |t'.kids| ensures Proper(t'.kids[k]) {}
    }
  }

  lemma ProperIgnoresGoing(t: Task)
    requires Proper(t) && t.stage.Blocked?
    ensures Proper(At(t, Gone))
  {}

  lemma InsideKeepsCounts(t: Task, t': Task, i: nat)
    requires Proper(t) && Inside(t, t', i) && Step(t.kids[i], t'.kids[i])
    ensures Counted(t')
  {
    StepStage(t.kids[i], t'.kids[i]);
    GoneCountUpdate(t.kids, i, t'.kids[i]);
    hide Step, GoneCount;
    assert forall k :: 0 <= k < |t'.kids| ==> t'.kids[k].stage.Gone? == t.kids[k].stage.Gone?;
    assert forall k :: 0 <= k < |t'.kids| && t.kids[k].stage.Gone? ==> ReportOf(t'.kids[k]) == ReportOf(t.kids[k]);
  }

  lemma OutcomesIgnoreStage(t: Task, stage: Stage)
    ensures ErrorFree(At(t, stage)) <==> ErrorFree(t)
  {}

  lemma {:induction false} StepKeepsOutcomes(t: Task, t': Task)
    requires Step(t, t')
    ensures ErrorFree(t') <==> ErrorFree(t)
    decreases t
  {
    if i: nat :| Receives(t, t', i) {
      OutcomesIgnoreStage(t.kids[i], Gone);
      assert forall k :: 0 <= k < |t.kids| ==> (ErrorFree(t'.kids[k]) <==> ErrorFree(t.kids[k]));
    } else if i: nat :| Inside(t, t', i) && Step(t.kids[i], t'.kids[i]) {
      StepKeepsOutcomes(t.kids[i], t'.kids[i]);
      assert forall k :: 0 <= k < |t.kids| ==> (ErrorFree(t'.kids[k]) <==> ErrorFree(t.kids[k]));
    }
  }

  /** A call that has returned leaves no goroutine behind, and it reports nil exactly when no piece of
      work anywhere below it failed, whatever order the reports came in. */
  lemma {:induction false} ReturnedMeansDone(t: Task)
    requires Proper(t) && !t.stage.Running?
    ensures AllGone(t)
    ensures ReportOf(t).None? <==> ErrorFree(t)
    decreases t
  {
    if t.Call? {
      GoneCountFull(t.kids);
      forall i | 0 <= i < |t.kids|
        ensures t.kids[i].stage.Gone? && AllGone(t.kids[i]) && (ReportOf(t.kids[i]).None? <==> ErrorFree(t.kids[i]))
      {
        ReturnedMeansDone(t.kids[i]);
      }
    }
  }

  // ---------- Every run ends, and none gets stuck ----------

  function StageWeight(s: Stage): nat {
    match s case Running => 2 case Blocked => 1 case Gone => 0
  }

  function Weight(t: Task): nat
    decreases t
  {
    StageWeight(t.stage) + if t.Call? then WeightOf(t, |t.kids|) else 0
  }

  function WeightOf(t: Task, n: nat): nat
    requires t.Call? && n <= |t.kids|
    decreases t, n
  {
    if n == 0 then 0 else WeightOf(t, n - 1) + Weight(t.kids[n - 1])
  }

  lemma {:induction false} WeightOfUpdate(t: Task, t': Task, i: nat, n: nat)
    requires t.Call? && t'.Call? && |t'.kids| == |t.kids| && i < |t.kids| && n <= |t.kids|
    requires forall k :: 0 <= k < |t.kids| && k != i ==> t'.kids[k] == t.kids[k]
    ensures WeightOf(t', n) == WeightOf(t, n) + if i < n then Weight(t'.kids[i]) - Weight(t.kids[i]) else 0
  {
    if n > 0 {
      WeightOfUpdate(t, t', i, n - 1);
    }
  }

  lemma {:induction false} StepDecreases(t: Task, t': Task)
    requires Step(t, t')
    ensures Weight(t') < Weight(t)
    decreases t
  {
    if FinishesWork(t, t') {
    } else if Returns(t, t') {
      if t.kids != [] {
        WeightOfUpdate(t, t', 0, |t.kids|);
      }
    } else if i: nat :| Receives(t, t', i) {
      ShedWeight(t.kids[i]);
      WeightOfUpdate(t, t', i, |t.kids|);
    } else {
      var i: nat :| Inside(t, t', i) && Step(t.kids[i], t'.kids[i]);
      StepDecreases(t.kids[i], t'.kids[i]);
      WeightOfUpdate(t, t', i, |t.kids|);
    }
  }

  lemma ShedWeight(t: Task)
    requires t.stage.Blocked?
    ensures Weight(At(t, Gone)) == Weight(t) - 1
  {
    if t.Call? && t.kids != [] {
      WeightOfUpdate(t, At(t, Gone), 0, |t.kids|);
    }
  }

  /** As long as a call has not returned, something below it can move. */
  lemma {:induction false} NeverStuck(t: Task) returns (t': Task)
    requires Proper(t) && t.stage.Running?
    ensures Step(t, t')
    decreases t
  {
    if t.Work? || |t.taken| == |t.kids| {
      t' := At(t, Blocked);
      assert FinishesWork(t, t') || Returns(t, t');
    } else {
      GoneCountFull(t.kids);
      var i: nat :| i < |t.kids| && !t.kids[i].stage.Gone?;
      if t.kids[i].stage.Blocked? {
        t' := t.(kids := t.kids[i := At(t.kids[i], Gone)], taken := t.taken + [ReportOf(t.kids[i])],
                 err := Keep(t.err, ReportOf(t.kids[i])));
        assert Receives(t, t', i);
      } else {
        var kid := NeverStuck(t.kids[i]);
        t' := t.(kids := t.kids[i := kid]);
        assert Inside(t, t', i) && Step(t.kids[i], t'.kids[i]);
      }
    }
  }

  ghost predicate Run(ts: seq<Task>) {
    && |ts| > 0 && Fresh(ts[0])
    && forall i :: 0 <= i < |ts| - 1 ==> Step(ts[i], ts[i + 1])
  }

  /** The whole story of a drained fan-in: every interleaving is finite; if it cannot go on, the call has
      returned; and once it has returned, no goroutine is left and the result is nil exactly when all work
      succeeded. */
  lemma {:induction false} DrainedFanIn(ts: seq<Task>)
    requires Run(ts)
    ensures var t := ts[|ts| - 1];
            && |ts| + Weight(t) <= Weight(ts[0]) + 1
            && Proper(t)
            && (ErrorFree(t) <==> ErrorFree(ts[0]))
            && (t.stage.Running? ==> exists t' :: Step(t, t'))
            && (!t.stage.Running? ==> AllGone(t) && (ReportOf(t).None? <==> ErrorFree(ts[0])))
  {
    var n := |ts| - 1;
    if n == 0 {
      FreshIsProper(ts[0]);
    } else {
      DrainedFanIn(ts[..n]);
      assert Step(ts[n - 1], ts[(n - 1) + 1]);
      StepKeepsProper(ts[n - 1], ts[n]);
      StepKeepsOutcomes(ts[n - 1], ts[n]);
      StepDecreases(ts[n - 1], ts[n]);
    }
    if ts[n].stage.Running? {
      var next := NeverStuck(ts[n]);
    } else {
      ReturnedMeansDone(ts[n]);
    }
  }

  // ---------- Where an error comes from ----------

  /** Some piece of work below, or this one, will report this. */
  ghost predicate HasOutcome(t: Task, r: Report) {
    match t
    case Work(outcome, _) => outcome == r
    case Call(kids, _, _, _) => exists i :: 0 <= i < |kids| && HasOutcome(kids[i], r)
  }

  /** Each kept error was the report of a goroutine that has gone. */
  ghost predicate Sourced(t: Task) {
    t.Call? ==>
      && (t.err.Some? ==> exists i :: 0 <= i < |t.kids| && t.kids[i].stage.Gone? && ReportOf(t.kids[i]) == t.err)
      && forall i :: 0 <= i < |t.kids| ==> Sourced(t.kids[i])
  }

  lemma {:induction false} FreshIsSourced(t: Task)
    requires Fresh(t)
    ensures Sourced(t)
    decreases t
  {
    if t.Call? {
      forall i | 0 <= i < |t.kids| ensures Sourced(t.kids[i]) {
        FreshIsSourced(t.kids[i]);
      }
    }
  }

  lemma {:induction false} StepKeepsSourced(t: Task, t': Task)
    requires Proper(t) && Sourced(t) && Step(t, t')
    ensures Sourced(t')
    decreases t
  {
    if FinishesWork(t, t') || Returns(t, t') {
    } else if i: nat :| Receives(t, t', i) {
      assert Sourced(t'.kids[i]) && ReportOf(t'.kids[i]) == ReportOf(t.kids[i]);
      if t.err.Some? {
        var k :| 0 <= k < |t.kids| && t.kids[k].stage.Gone? && ReportOf(t.kids[k]) == t.err;
        assert t'.kids[k] == t.kids[k];
      }
    } else {
      var i: nat :| Inside(t, t', i) && Step(t.kids[i], t'.kids[i]);
      StepKeepsSourced(t.kids[i], t'.kids[i]);
      StepStage(t.kids[i], t'.kids[i]);
      if t.err.Some? {
        var k :| 0 <= k < |t.kids| && t.kids[k].stage.Gone? && ReportOf(t.kids[k]) == t.err;
        assert t'.kids[k].stage.Gone? && ReportOf(t'.kids[k]) == t'.err;
      }
    }
  }

  /** The error that a call has returned was reported by some piece of work below it. */
  lemma {:induction false} ErrorIsSomeOutcome(t: Task)
    requires Sourced(t) && ReportOf(t).Some?
    ensures HasOutcome(t, ReportOf(t))
    decreases t
  {
    if t.Call? {
      var i :| 0 <= i < |t.kids| && t.kids[i].stage.Gone? && ReportOf(t.kids[i]) == t.err;
      ErrorIsSomeOutcome(t.kids[i]);
    }
  }

  lemma {:induction false} StepKeepsOutcome(t: Task, t': Task, r: Report)
    requires Step(t, t')
    ensures HasOutcome(t', r) <==> HasOutcome(t, r)
    decreases t
  {
    if i: nat :| Receives(t, t', i) {
      assert HasOutcome(At(t.kids[i], Gone), r) <==> HasOutcome(t.kids[i], r);
      assert forall k :: 0 <= k < |t.kids| ==> (HasOutcome(t'.kids[k], r) <==> HasOutcome(t.kids[k], r));
    } else if i: nat :| Inside(t, t', i) && Step(t.kids[i], t'.kids[i]) {
      StepKeepsOutcome(t.kids[i], t'.kids[i], r);
      assert forall k :: 0 <= k < |t.kids| ==> (HasOutcome(t'.kids[k], r) <==> HasOutcome(t.kids[k], r));
    }
  }

  /** The kept error is the first one of those that have arrived. */
  ghost predicate IsFirst(taken: seq<Report>, err: Report) {
    && (err.None? <==> AllNil(taken))
    && (err.Some? ==> exists i :: 0 <= i < |taken| && taken[i] == err && AllNil(taken[..i]))
  }

  ghost predicate FirstKept(t: Task) {
    t.Call? ==> IsFirst(t.taken, t.err) && forall i :: 0 <= i < |t.kids| ==> FirstKept(t.kids[i])
  }

  lemma KeepsFirst(taken: seq<Report>, err: Report, r: Report)
    requires IsFirst(taken, err)
    ensures IsFirst(taken + [r], Keep(err, r))
  {
    var more := taken + [r];
    if err.Some? {
      var i :| 0 <= i < |taken| && taken[i] == err && AllNil(taken[..i]);
      assert more[i] == err && more[..i] == taken[..i];
    } else if r.Some? {
      assert more[|taken|] == r && more[..|taken|] == taken;
    }
  }

  lemma {:induction false} StepKeepsFirst(t: Task, t': Task)
    requires FirstKept(t) && Step(t, t')
    ensures FirstKept(t')
    decreases t
  {
    if FinishesWork(t, t') || Returns(t, t') {
    } else if i: nat :| Receives(t, t', i) {
      KeepsFirst(t.taken, t.err, ReportOf(t.kids[i]));
      assert FirstKept(t'.kids[i]);
    } else {
      var i: nat :| Inside(t, t', i) && Step(t.kids[i], t'.kids[i]);
      StepKeepsFirst(t.kids[i], t'.kids[i]);
    }
  }

  lemma {:induction false} FreshIsFirst(t: Task)
    requires Fresh(t)
    ensures FirstKept(t)
    decreases t
  {
    if t.Call? {
      forall i | 0 <= i < |t.kids| ensures FirstKept(t.kids[i]) {
        FreshIsFirst(t.kids[i]);
      }
    }
  }

  /** In every run and at any depth, a call keeps the first error to arrive, as Collect does. */
  lemma {:induction false} FirstErrorIsKept(ts: seq<Task>)
    requires Run(ts)
    ensures FirstKept(ts[|ts| - 1])
    decreases |ts|
  {
    hide Step, FirstKept, Fresh;
    var n := |ts| - 1;
    if n == 0 {
      FreshIsFirst(ts[0]);
    } else {
      FirstErrorIsKept(ts[..n]);
      assert Step(ts[n - 1], ts[(n - 1) + 1]);
      StepKeepsFirst(ts[n - 1], ts[n]);
    }
  }

  /** So in every run, an error of the outermost call is one that some work was to report from the start. */
  lemma {:induction false} ErrorsAreReported(ts: seq<Task>)
    requires Run(ts)
    ensures Proper(ts[|ts| - 1]) && Sourced(ts[|ts| - 1])
    ensures forall r :: HasOutcome(ts[|ts| - 1], r) <==> HasOutcome(ts[0], r)
    ensures ReportOf(ts[|ts| - 1]).Some? ==> HasOutcome(ts[0], ReportOf(ts[|ts| - 1]))
    decreases |ts|
  {
    hide Step, Proper, Sourced, HasOutcome, Fresh;
    var n := |ts| - 1;
    if n == 0 {
      FreshIsProper(ts[0]);
      FreshIsSourced(ts[0]);
    } else {
      ErrorsAreReported(ts[..n]);
      assert Step(ts[n - 1], ts[(n - 1) + 1]);
      StepKeepsProper(ts[n - 1], ts[n]);
      StepKeepsSourced(ts[n - 1], ts[n]);
      forall r ensures HasOutcome(ts[n], r) <==> HasOutcome(ts[0], r) {
        StepKeepsOutcome(ts[n - 1], ts[n], r);
      }
    }
    if ReportOf(ts[n]).Some? {
      ErrorIsSomeOutcome(ts[n]);
    }
  }
}
