/** What the result of each call says about what was done for it (daemon/clusters.go:146-215, :262-364,
    daemon/daemon.go:194-229). */
module LifecycleReports {
  import opened Basics
  import opened Leases
  import opened Clusters
  import opened Lifecycle
  import opened LifecycleInvariants
  import opened LifecycleSteps
  import opened LifecycleTheorems
  import opened LifecycleEffects
  import opened LifecycleKills

  // ---------- What a call was told ----------

  ghost predicate HasWritten(log: seq<Event>, p: nat) { exists e <- log :: e.Wrote? && e.p == p }

  ghost predicate WrittenAs(log: seq<Event>, p: nat, blind: bool) {
    exists e <- log :: e.Wrote? && e.p == p && e.blind == blind
  }

  /** The lookup before the write of a refresh has failed, or has not. */
  ghost predicate ProbedAs(log: seq<Event>, p: nat, failed: bool) {
    exists e <- log :: e.Probed? && e.p == p && e.out.Failed? == failed
  }

  ghost predicate HasListed(log: seq<Event>, p: nat) { exists e <- log :: e.Listed? && e.p == p }

  /** The containers whose stop gave this call an error. */
  ghost function Errors(log: seq<Event>, p: nat): set<string> {
    set e <- log | StopError(e, p) :: e.cid
  }

  predicate StopError(e: Event, p: nat) { e.p == p && ((e.Stopped? && !e.ok) || (e.Missed? && !e.ok)) }

  /** The containers that this call has tried to stop. */
  ghost function TriedStops(log: seq<Event>, p: nat): set<string> {
    set e <- log | e.p == p && (e.Stopped? || e.Missed?) :: e.cid
  }

  /** The call's own listing shows the cluster to its caller. */
  ghost predicate Shown(log: seq<Event>, p: nat, ctx: Ctx, id: string) {
    exists listing :: Listed(p, listing) in log && id in Ids(listing) && Visible(ctx, listing, id)
  }

  /** The call's own listing does not. */
  ghost predicate Hidden(log: seq<Event>, p: nat, ctx: Ctx, id: string) {
    exists listing :: Listed(p, listing) in log && (id !in Ids(listing) || !Visible(ctx, listing, id))
  }

  ghost predicate SpawnedKill(log: seq<Event>, p: nat, c: nat) { exists id :: Spawned(p, c, id) in log }

  // ---------- Results ----------

  ghost predicate WorkerReport(log: seq<Event>, p: nat, w: nat, worker: Worker) {
    forall ok :: Worked(p, w, ok) in log <==> worker.Ended? && worker.ok == ok
  }

  /** An allocation is rejected if it has written nothing, gives up without an image if that has failed, and succeeds
      if the image and all of its nodes were reported well; otherwise it rolls back. */
  ghost predicate AllocationReport(s: State, p: nat, proc: Proc)
    requires proc.Allocation?
  {
    && (HasWritten(s.log, p) <==> Registered(proc))
    && (Imaged(p, false) in s.log <==> proc.alloc.ImageFailed?)
    && (Imaged(p, true) in s.log <==> Registered(proc) && !proc.alloc.Imaging? && !proc.alloc.ImageFailed?)
    && (forall w: nat, ok :: Worked(p, w, ok) in s.log ==> w < |proc.workers|)
    && (forall w: nat :: w < |proc.workers| ==> WorkerReport(s.log, p, w, proc.workers[w]))
    && (proc.alloc.Allocated? ==> AllOk(proc.workers))
    && (proc.alloc.RollingBack? || proc.alloc.RolledBack? ==> AllEnded(proc.workers) && !AllOk(proc.workers))
    && (!proc.alloc.FanOut? && !proc.alloc.Allocated? && !proc.alloc.RollingBack? && !proc.alloc.RolledBack? ==>
          forall w :: 0 <= w < |proc.workers| ==> proc.workers[w].Idle?)
  }

  /** A refresh succeeds exactly if it has written, and writes blindly exactly if its own lookup of the record, its
      only one, has failed. */
  ghost predicate RefreshReport(s: State, p: nat, proc: Proc)
    requires proc.Refresh?
  {
    && (HasWritten(s.log, p) <==> proc.refresh == RefreshDone(true))
    && (proc.refresh.RefreshScan? || proc.refresh.Probing? ==> !ProbedAs(s.log, p, true) && !ProbedAs(s.log, p, false))
    && (proc.refresh.Writing? ==> OnlyProbedAs(s.log, p, proc.refresh.create))
    && (forall blind :: WrittenAs(s.log, p, blind) ==> OnlyProbedAs(s.log, p, blind))
  }

  /** A refresh that has listed the containers goes on if the listing shows the cluster to its caller, and fails if
      it does not. */
  ghost predicate RefreshFinds(s: State, p: nat, proc: Proc)
    requires proc.Refresh?
  {
    var probed := ProbedAs(s.log, p, true) || ProbedAs(s.log, p, false);
    && (HasListed(s.log, p) <==> proc.refresh != RefreshScan(Listing) && (proc.refresh.RefreshDone? ==>
                                   probed || Hidden(s.log, p, proc.ctx, proc.id)))
    && (proc.refresh.Probing? || probed ==> Shown(s.log, p, proc.ctx, proc.id))
    && ListsOnce(s.log, p)
  }

  ghost predicate ListsOnlyThis(log: seq<Event>, p: nat, listing: seq<Container>) {
    forall m :: Listed(p, m) in log ==> m == listing
  }

  ghost predicate ListsOnce(log: seq<Event>, p: nat) {
    forall l, m :: Listed(p, l) in log && Listed(p, m) in log ==> l == m
  }

  ghost predicate OnlyProbedAs(log: seq<Event>, p: nat, failed: bool) {
    ProbedAs(log, p, failed) && !ProbedAs(log, p, !failed)
  }

  /** A kill fails to list exactly if it has not listed; it succeeds if it has tried all that it was to stop and no
      stop gave an error, and names those that did otherwise. */
  ghost predicate KillReport(s: State, p: nat, proc: Proc)
    requires proc.Kill?
  {
    && (HasListed(s.log, p) <==> proc.kill != KillScan(Listing) && proc.kill != KillDone(ListFailed))
    && ListsOnce(s.log, p)
    && (proc.kill == KillDone(NotFound) ==> Hidden(s.log, p, proc.ctx, proc.id))
    && (HasListed(s.log, p) && !proc.kill.KillScan? && proc.kill != KillDone(NotFound) ==>
          Shown(s.log, p, proc.ctx, proc.id))
    && match proc.kill
       case Stopping(listing, _, todo, failed) =>
         && failed == Errors(s.log, p) && TriedStops(s.log, p) + todo == Targets(listing, proc.id)
         && Listed(p, listing) in s.log
       case KillDone(Killed) => Errors(s.log, p) == {} && TriedAll(s, p, proc)
       case KillDone(StopFailed(failed)) => failed == Errors(s.log, p) && failed != {} && TriedAll(s, p, proc)
       case _ => TriedStops(s.log, p) == {}
  }

  ghost function Targets(listing: seq<Container>, id: string): set<string> {
    set c <- listing | c.cluster == id :: c.id
  }

  /** It has tried to stop just the containers of the cluster that it had listed. */
  ghost predicate TriedAll(s: State, p: nat, proc: Proc)
    requires proc.Kill?
  {
    exists listing :: Listed(p, listing) in s.log && TriedStops(s.log, p) == Targets(listing, proc.id)
  }

  /** A sweep succeeds exactly if it has listed and all the kills it has started have succeeded. */
  ghost predicate SweepReport(s: State, p: nat, proc: Proc)
    requires proc.Sweep?
  {
    && (forall c :: SpawnedKill(s.log, p, c) ==> c in s.procs && s.procs[c].Kill?)
    && match proc.sweep
       case SweepScan(scan) => (forall c :: !SpawnedKill(s.log, p, c)) && (HasListed(s.log, p) <==> scan.Reading?)
       case Comparing(_, _, _) => (forall c :: !SpawnedKill(s.log, p, c)) && HasListed(s.log, p)
       case Killing(_, kids) => (forall c :: SpawnedKill(s.log, p, c) <==> c in kids) && HasListed(s.log, p)
       case SweepDone(ok) =>
         && (HasListed(s.log, p) ==> forall c :: SpawnedKill(s.log, p, c) ==> Finished(s.procs, c))
         && (ok <==>
               HasListed(s.log, p) && forall c :: SpawnedKill(s.log, p, c) ==> s.procs[c].kill == KillDone(Killed))
  }

  ghost predicate Reports(s: State, p: nat)
    requires p in s.procs
  {
    match s.procs[p]
    case Allocation(_, _, _, _, _, _) => AllocationReport(s, p, s.procs[p])
    case Refresh(_, _, _, _) => RefreshReport(s, p, s.procs[p]) && RefreshFinds(s, p, s.procs[p])
    case Kill(_, _, _, _) => KillReport(s, p, s.procs[p])
    case Sweep(_, _, _) => SweepReport(s, p, s.procs[p])
  }

  // ---------- Steps of others ----------

  /** The calls that have logged something have begun. */
  ghost predicate Known(s: State) { forall e <- s.log :: e.p in s.procs }

  lemma KnownStays(s: State, s': State, step: Step)
    requires Does(s, s', step) && Known(s)
    ensures Known(s')
  {
    hide Does, WakesNone;
    StepEffect(s, s', step);
  }

  /** What one call has logged. */
  ghost predicate SameEvents(log: seq<Event>, log': seq<Event>, p: nat) {
    forall e: Event :: e.p == p ==> (e in log' <==> e in log)
  }

  lemma SilentMeansSame(s: State, s': State, p: nat)
    requires LogGrows(s, s') && (|s'.log| > |s.log| ==> s'.log[|s.log|].p != p)
    ensures SameEvents(s.log, s'.log, p)
  {
    forall e: Event | e.p == p ensures e in s'.log <==> e in s.log {
      if e in s.log {
        assert e in s'.log;
      }
    }
  }

  lemma SameSummaries(log: seq<Event>, log': seq<Event>, p: nat)
    requires SameEvents(log, log', p)
    ensures HasWritten(log', p) <==> HasWritten(log, p)
    ensures HasListed(log', p) <==> HasListed(log, p)
    ensures forall blind :: WrittenAs(log', p, blind) <==> WrittenAs(log, p, blind)
    ensures forall failed :: ProbedAs(log', p, failed) <==> ProbedAs(log, p, failed)
    ensures Errors(log', p) == Errors(log, p) && TriedStops(log', p) == TriedStops(log, p)
    ensures forall c :: SpawnedKill(log', p, c) <==> SpawnedKill(log, p, c)
    ensures forall ok :: Imaged(p, ok) in log' <==> Imaged(p, ok) in log
    ensures forall w, ok :: Worked(p, w, ok) in log' <==> Worked(p, w, ok) in log
    ensures forall listing :: Listed(p, listing) in log' <==> Listed(p, listing) in log
    ensures ListsOnce(log', p) <==> ListsOnce(log, p)
    ensures forall ctx, id :: Shown(log', p, ctx, id) <==> Shown(log, p, ctx, id)
    ensures forall ctx, id :: Hidden(log', p, ctx, id) <==> Hidden(log, p, ctx, id)
  {
    hide Visible, Ids;
    assert HasWritten(log', p) <==> exists e :: e in log' && e.Wrote? && e.p == p;
  }

  /** The same after one more event. */
  lemma OneMore(log: seq<Event>, e: Event, p: nat)
    ensures var log' := log + [e];
            && (HasWritten(log', p) <==> HasWritten(log, p) || (e.Wrote? && e.p == p))
            && (HasListed(log', p) <==> HasListed(log, p) || (e.Listed? && e.p == p))
            && (forall blind ::
                  WrittenAs(log', p, blind) <==> WrittenAs(log, p, blind) || (e.Wrote? && e.p == p && e.blind == blind))
            && (forall failed ::
                  ProbedAs(log', p, failed)
                  <==> ProbedAs(log, p, failed) || (e.Probed? && e.p == p && e.out.Failed? == failed))
            && Errors(log', p) == Errors(log, p) + (if StopError(e, p) then {e.cid} else {})
            && TriedStops(log', p)
               == TriedStops(log, p) + (if e.p == p && (e.Stopped? || e.Missed?) then {e.cid} else {})
            && (forall c ::
                  SpawnedKill(log', p, c) <==> SpawnedKill(log, p, c) || (e.Spawned? && e.p == p && e.child == c))
            && (forall ok :: Imaged(p, ok) in log' <==> Imaged(p, ok) in log || e == Imaged(p, ok))
            && (forall w, ok :: Worked(p, w, ok) in log' <==> Worked(p, w, ok) in log || e == Worked(p, w, ok))
            && (forall listing :: Listed(p, listing) in log' <==> Listed(p, listing) in log || e == Listed(p, listing))
            && (HasListed(log, p) <==> exists listing :: Listed(p, listing) in log)
            && (ListsOnce(log', p)
                <==> ListsOnce(log, p) && (e.Listed? && e.p == p ==> ListsOnlyThis(log, p, e.listing)))
  {
    var log' := log + [e];
    forall c ensures SpawnedKill(log', p, c) <==> SpawnedKill(log, p, c) || (e.Spawned? && e.p == p && e.child == c) {
      if SpawnedKill(log, p, c) {
        var id :| Spawned(p, c, id) in log;
        assert Spawned(p, c, id) in log';
      }
    }
    assert forall f :: f in log' <==> f in log || f == e;
  }

  lemma DoneKillsStay(s: State, s': State, step: Step, c: nat)
    requires Does(s, s', step) && Finished(s.procs, c)
    ensures Finished(s'.procs, c) && s'.procs[c].kill == s.procs[c].kill
  {
    hide WakesNone;
    if Actor(step) == Some(c) {
      KillStep(s, s', step, c);
      assert false;
    } else {
      hide Does;
      OthersStay(s, s', step, c);
    }
  }

  lemma ReportsOfOthers(s: State, s': State, step: Step, p: nat)
    requires Does(s, s', step) && Actor(step) != Some(p) && p in s.procs && Reports(s, p)
    ensures p in s'.procs && Reports(s', p)
  {
    hide Does, LogGrows;
    OthersStay(s, s', step, p);
    OthersAreSilent(s, s', step, p);
    ClockAdvances(s, s', step);
    SilentMeansSame(s, s', p);
    SameSummaries(s.log, s'.log, p);
    hide HasWritten, WrittenAs, ProbedAs, HasListed, ListsOnce, Shown, Hidden;
    hide Errors, TriedStops, SpawnedKill, SameEvents;
    match s.procs[p]
    case Allocation(_, _, _, _, _, _) =>
    case Refresh(_, _, _, _) =>
    case Kill(_, _, _, _) => KillReportStays(s, s', p, s.procs[p]);
    case Sweep(_, _, _) => SweepReportStays(s, s', step, p);
  }

  lemma KillReportStays(s: State, s': State, p: nat, proc: Proc)
    requires proc.Kill? && KillReport(s, p, proc) && SameEvents(s.log, s'.log, p)
    ensures KillReport(s', p, proc)
  {
    SameSummaries(s.log, s'.log, p);
    hide HasWritten, WrittenAs, ProbedAs, HasListed, ListsOnce, Shown, Hidden;
    hide Errors, TriedStops, SpawnedKill, SameEvents;
    if TriedAll(s, p, proc) {
      var listing :| Listed(p, listing) in s.log && TriedStops(s.log, p) == Targets(listing, proc.id);
      assert Listed(p, listing) in s'.log;
    }
  }

  lemma SweepReportStays(s: State, s': State, step: Step, p: nat)
    requires Does(s, s', step) && p in s.procs && s.procs[p].Sweep? && SweepReport(s, p, s.procs[p])
    requires SameEvents(s.log, s'.log, p)
    ensures SweepReport(s', p, s.procs[p])
  {
    hide Does, WakesNone;
    SameSummaries(s.log, s'.log, p);
    StepEffect(s, s', step);
    hide HasListed, SpawnedKill, SameEvents;
    forall c | SpawnedKill(s'.log, p, c) ensures c in s'.procs && s'.procs[c].Kill? {
      KillsStayKills(s, s', step, c);
    }
    forall c | SpawnedKill(s'.log, p, c) && Finished(s.procs, c)
      ensures Finished(s'.procs, c) && s'.procs[c].kill == s.procs[c].kill
    {
      DoneKillsStay(s, s', step, c);
    }
  }

  lemma KillsStayKills(s: State, s': State, step: Step, c: nat)
    requires Does(s, s', step) && c in s.procs && s.procs[c].Kill?
    ensures c in s'.procs && s'.procs[c].Kill?
  {
    hide WakesNone, CreateRecord, Transaction, DecideKill, Enumerates;
    if Actor(step) == Some(c) {
      KillStep(s, s', step, c);
    } else {
      hide Does;
      OthersStay(s, s', step, c);
    }
  }

  // ---------- Own steps of an allocation ----------

  lemma NewlyReports(s: State, s': State, step: Step, p: nat)
    requires Does(s, s', step) && Known(s) && p !in s.procs && p in s'.procs
    ensures Reports(s', p)
  {
    hide Does, WakesNone, LogGrows;
    Newborn(s, s', step, p);
    StepEffect(s, s', step);
    UnbornIsSilent(s, s', p);
  }

  lemma UnbornIsSilent(s: State, s': State, p: nat)
    requires Known(s) && p !in s.procs && LogGrows(s, s') && (|s'.log| > |s.log| ==> s'.log[|s.log|].p in s.procs)
    ensures forall e <- s'.log :: e.p != p
  {}

  lemma RegisterReports(s: State, s': State, p: nat)
    requires Register(s, s', p) || Clash(s, s', p)
    requires AllocationReport(s, p, s.procs[p])
    ensures p in s'.procs && s'.procs[p].Allocation? && AllocationReport(s', p, s'.procs[p])
  {
    OneMore(s.log, s'.log[|s.log|], p);
    hide HasWritten;
  }

  lemma RejectReports(s: State, s': State, p: nat)
    requires Reject(s, s', p) && AllocationReport(s, p, s.procs[p])
    ensures p in s'.procs && s'.procs[p].Allocation? && AllocationReport(s', p, s'.procs[p])
  {
    hide HasWritten, WorkerReport;
  }

  lemma SucceedReports(s: State, s': State, p: nat)
    requires Succeed(s, s', p) && AllocationReport(s, p, s.procs[p])
    ensures p in s'.procs && s'.procs[p].Allocation? && AllocationReport(s', p, s'.procs[p])
  {
    hide HasWritten, WorkerReport;
  }

  lemma RolledBackReports(s: State, s': State, p: nat)
    requires FinishRollback(s, s', p) && AllocationReport(s, p, s.procs[p])
    ensures p in s'.procs && s'.procs[p].Allocation? && AllocationReport(s', p, s'.procs[p])
  {
    hide HasWritten, WorkerReport;
  }

  lemma RollBackReports(s: State, s': State, p: nat, child: nat)
    requires RollBack(s, s', p, child) && AllocationReport(s, p, s.procs[p])
    ensures p in s'.procs && s'.procs[p].Allocation? && AllocationReport(s', p, s'.procs[p])
  {
    hide HasWritten;
  }

  lemma ImageReports(s: State, s': State, p: nat, ok: bool)
    requires Image(s, s', p, ok) && AllocationReport(s, p, s.procs[p])
    ensures p in s'.procs && s'.procs[p].Allocation? && AllocationReport(s', p, s'.procs[p])
  {
    OneMore(s.log, s'.log[|s.log|], p);
    hide HasWritten;
  }

  /** A step of one worker, with the report that ends it or without. */
  lemma WorkerReports(s: State, s': State, p: nat, w: nat, worker: Worker)
    requires WorkerIs(s, p, w) && !s.procs[p].workers[w].Ended? && AllocationReport(s, p, s.procs[p])
    requires p in s'.procs && s'.procs[p] == SetWorker(s.procs[p], w, worker)
    requires s'.log == if worker.Ended? then s.log + [Worked(p, w, worker.ok)] else s.log
    ensures AllocationReport(s', p, s'.procs[p])
  {
    hide HasWritten;
    if worker.Ended? {
      OneMore(s.log, Worked(p, w, worker.ok), p);
    }
    forall v: nat | v < |s.procs[p].workers| ensures WorkerReport(s'.log, p, v, s'.procs[p].workers[v]) {
      assert WorkerReport(s.log, p, v, s.procs[p].workers[v]);
    }
  }

  lemma CreateReports(s: State, s': State, step: Step, p: nat)
    requires Does(s, s', step) && Actor(step) == Some(p) && KindOf(step).OfCreate?
    requires p in s.procs && s.procs[p].Allocation? && AllocationReport(s, p, s.procs[p])
    ensures p in s'.procs && s'.procs[p].Allocation? && AllocationReport(s', p, s'.procs[p])
  {
    hide AllocationReport;
    WorkerReports(s, s', p, step.w, s'.procs[p].workers[step.w]);
  }

  lemma StartReports(s: State, s': State, step: Step, p: nat)
    requires Does(s, s', step) && Actor(step) == Some(p) && KindOf(step).OfStart?
    requires p in s.procs && s.procs[p].Allocation? && AllocationReport(s, p, s.procs[p])
    ensures p in s'.procs && s'.procs[p].Allocation? && AllocationReport(s', p, s'.procs[p])
  {
    hide AllocationReport;
    WorkerReports(s, s', p, step.w, s'.procs[p].workers[step.w]);
  }

  lemma AllocationReportsOn(s: State, s': State, step: Step, p: nat)
    requires Does(s, s', step) && Actor(step) == Some(p)
    requires p in s.procs && s.procs[p].Allocation? && AllocationReport(s, p, s.procs[p])
    ensures p in s'.procs && s'.procs[p].Allocation? && AllocationReport(s', p, s'.procs[p])
  {
    hide AllocationReport, WakesNone;
    AllocationSteps(s, s', step, p);
    match KindOf(step)
    case OfCreate => CreateReports(s, s', step, p);
    case OfStart => StartReports(s, s', step, p);
    case OfEnding => EndingReports(s, s', step, p);
    case OfAllocation => BeginningReports(s, s', step, p);
  }

  lemma AllocationSteps(s: State, s': State, step: Step, p: nat)
    requires Does(s, s', step) && Actor(step) == Some(p) && p in s.procs && s.procs[p].Allocation?
    ensures KindOf(step).OfCreate? || KindOf(step).OfStart? || KindOf(step).OfEnding? || KindOf(step).OfAllocation?
  {
    hide Does, WakesNone;
    StepEffect(s, s', step);
    if KindOf(step).Any? {
      ScansAreNotAllocations(s, s', step);
    }
  }

  lemma ScansAreNotAllocations(s: State, s': State, step: Step)
    requires Does(s, s', step) && KindOf(step).Any?
    ensures step.p in s.procs ==> !s.procs[step.p].Allocation?
  {
    hide Enumerates, WithScan, AfterListFailure, AfterScan, Fresh;
  }

  lemma EndingReports(s: State, s': State, step: Step, p: nat)
    requires Does(s, s', step) && Actor(step) == Some(p) && KindOf(step).OfEnding?
    requires p in s.procs && s.procs[p].Allocation? && AllocationReport(s, p, s.procs[p])
    ensures p in s'.procs && s'.procs[p].Allocation? && AllocationReport(s', p, s'.procs[p])
  {
    hide AllocationReport, Succeed, RollBack, FinishRollback;
    match step
    case RollBackStep(_, child) => RollBackReports(s, s', p, child);
    case SucceedStep(_) => SucceedReports(s, s', p);
    case FinishRollbackStep(_) => RolledBackReports(s, s', p);
  }

  lemma BeginningReports(s: State, s': State, step: Step, p: nat)
    requires Does(s, s', step) && Actor(step) == Some(p) && KindOf(step).OfAllocation?
    requires p in s.procs && s.procs[p].Allocation? && AllocationReport(s, p, s.procs[p])
    ensures p in s'.procs && s'.procs[p].Allocation? && AllocationReport(s', p, s'.procs[p])
  {
    hide AllocationReport, Register, Clash, Reject, Image;
    match step
    case RegisterStep(_) => RegisterReports(s, s', p);
    case ClashStep(_) => RegisterReports(s, s', p);
    case RejectStep(_) => RejectReports(s, s', p);
    case ImageStep(_, ok) => ImageReports(s, s', p, ok);
  }

  // ---------- Own steps of the other calls ----------

  lemma SameListing(log: seq<Event>, log': seq<Event>, p: nat)
    requires forall listing :: Listed(p, listing) in log' <==> Listed(p, listing) in log
    ensures HasListed(log', p) <==> HasListed(log, p)
    ensures ListsOnce(log', p) <==> ListsOnce(log, p)
    ensures forall ctx, id :: Shown(log', p, ctx, id) <==> Shown(log, p, ctx, id)
    ensures forall ctx, id :: Hidden(log', p, ctx, id) <==> Hidden(log, p, ctx, id)
  {
    hide Visible, Ids;
    assert forall l :: HasListed(l, p) <==> exists listing :: Listed(p, listing) in l;
  }

  lemma RefreshFindsMore(s: State, s': State, step: Step, p: nat)
    requires Does(s, s', step) && Actor(step) == Some(p)
    requires Inv(s) && p in s.procs && s.procs[p].Refresh? && RefreshFinds(s, p, s.procs[p])
    requires RefreshReport(s, p, s.procs[p])
    ensures p in s'.procs && s'.procs[p].Refresh? && RefreshFinds(s', p, s'.procs[p])
  {
    hide Inv, RefreshReport, RefreshFinds;
    hide List, ListFail, ReadMeta, FinishScan, Probe, Write, Overwrite, WriteFail, Begin;
    RefreshKinds(s, s', step, p);
    if step.ListStep? {
      RefreshLists(s, s', p, step.listing);
    } else if step.FinishScanStep? {
      RefreshDecides(s, s', p);
    } else {
      RefreshFindsTheSame(s, s', step, p);
    }
  }

  lemma RefreshLists(s: State, s': State, p: nat, listing: seq<Container>)
    requires List(s, s', p, listing) && s.procs[p].Refresh? && RefreshFinds(s, p, s.procs[p])
    requires RefreshReport(s, p, s.procs[p])
    ensures p in s'.procs && s'.procs[p].Refresh? && RefreshFinds(s', p, s'.procs[p])
  {
    hide HasWritten, WrittenAs, ProbedAs, HasListed, Shown, Hidden, Enumerates, ListsOnce;
    OneMore(s.log, s'.log[|s.log|], p);
  }

  lemma RefreshDecides(s: State, s': State, p: nat)
    requires Inv(s) && FinishScan(s, s', p) && s.procs[p].Refresh? && RefreshFinds(s, p, s.procs[p])
    requires RefreshReport(s, p, s.procs[p])
    ensures p in s'.procs && s'.procs[p].Refresh? && RefreshFinds(s', p, s'.procs[p])
  {
    hide Inv, HasWritten, WrittenAs, ProbedAs, HasListed, Visible, Ids, ListsOnce;
    Local(s, p);
    assert Listed(p, ScanOf(s.procs[p]).value.listing) in s.log;
  }

  lemma RefreshFindsTheSame(s: State, s': State, step: Step, p: nat)
    requires Does(s, s', step) && Actor(step) == Some(p) && LogGrows(s, s')
    requires !step.ListStep? && !step.FinishScanStep? && !step.BeginStep?
    requires KindOf(step).Any? || KindOf(step).OfRefresh?
    requires p in s.procs && s.procs[p].Refresh? && RefreshFinds(s, p, s.procs[p])
    requires RefreshReport(s, p, s.procs[p])
    ensures p in s'.procs && s'.procs[p].Refresh? && RefreshFinds(s', p, s'.procs[p])
  {
    hide HasWritten, WrittenAs, ProbedAs, HasListed, Shown, Hidden, ListsOnce, CreateRecord, Transaction;
    if |s'.log| > |s.log| {
      OneMore(s.log, s'.log[|s.log|], p);
    }
    SameListing(s.log, s'.log, p);
    if step.ListFailStep? {
      NeverListed(s.log, p);
    }
  }

  lemma NeverListed(log: seq<Event>, p: nat)
    requires !HasListed(log, p)
    ensures forall ctx, id :: !Hidden(log, p, ctx, id)
  {}

  lemma RefreshReportsOn(s: State, s': State, step: Step, p: nat)
    requires Does(s, s', step) && Actor(step) == Some(p)
    requires Inv(s) && p in s.procs && s.procs[p].Refresh? && RefreshReport(s, p, s.procs[p])
    ensures p in s'.procs && s'.procs[p].Refresh? && RefreshReport(s', p, s'.procs[p])
  {
    hide Inv, Does, RefreshReport;
    RefreshKinds(s, s', step, p);
    if KindOf(step).Any? {
      RefreshScans(s, s', step, p);
    } else {
      RefreshWrites(s, s', step, p);
    }
  }

  lemma RefreshScans(s: State, s': State, step: Step, p: nat)
    requires Does(s, s', step) && Actor(step) == Some(p) && KindOf(step).Any? && !step.BeginStep? && LogGrows(s, s')
    requires p in s.procs && s.procs[p].Refresh? && RefreshReport(s, p, s.procs[p])
    ensures p in s'.procs && s'.procs[p].Refresh? && RefreshReport(s', p, s'.procs[p])
  {
    if |s'.log| > |s.log| {
      OneMore(s.log, s'.log[|s.log|], p);
    }
    hide HasWritten, WrittenAs, ProbedAs, DecideKill, Enumerates, Ids, Visible;
  }

  lemma RefreshWrites(s: State, s': State, step: Step, p: nat)
    requires Does(s, s', step) && Actor(step) == Some(p) && KindOf(step).OfRefresh?
    requires Inv(s) && p in s.procs && s.procs[p].Refresh? && RefreshReport(s, p, s.procs[p])
    ensures p in s'.procs && s'.procs[p].Refresh? && RefreshReport(s', p, s'.procs[p])
  {
    hide Inv;
    if |s'.log| > |s.log| {
      OneMore(s.log, s'.log[|s.log|], p);
    }
    if step.WriteStep? {
      RefreshUpdates(s, p);
    }
    WritesAreWritten(s.log, p);
    hide HasWritten, WrittenAs, ProbedAs, CreateRecord, Transaction;
  }

  lemma WritesAreWritten(log: seq<Event>, p: nat)
    ensures HasWritten(log, p) <==> WrittenAs(log, p, true) || WrittenAs(log, p, false)
  {}

  /** A transaction that inserts is refused, as what a refresh has found has a record. */
  lemma RefreshUpdates(s: State, p: nat)
    requires Inv(s) && IsWriting(s, p) && Transaction(s.meta, s.procs[p]).Ok?
    ensures !s.procs[p].refresh.create
  {
    hide Inv;
    Local(s, p);
  }

  lemma RefreshKinds(s: State, s': State, step: Step, p: nat)
    requires Does(s, s', step) && Actor(step) == Some(p) && p in s.procs && s.procs[p].Refresh?
    ensures !step.BeginStep? && (KindOf(step).Any? || KindOf(step).OfRefresh?)
    ensures LogGrows(s, s')
  {
    hide Does, WakesNone;
    StepEffect(s, s', step);
  }

  lemma KillReportsListed(s: State, s': State, p: nat, listing: seq<Container>)
    requires List(s, s', p, listing) && s.procs[p].Kill? && KillReport(s, p, s.procs[p])
    ensures p in s'.procs && s'.procs[p].Kill? && KillReport(s', p, s'.procs[p])
  {
    hide HasListed, Shown, Hidden, Errors, TriedStops;
    OneMore(s.log, s'.log[|s.log|], p);
  }

  lemma KillReportsRead(s: State, s': State, p: nat, id: string, out: Outcome)
    requires ReadMeta(s, s', p, id, out) && s.procs[p].Kill? && KillReport(s, p, s.procs[p])
    ensures p in s'.procs && s'.procs[p].Kill? && KillReport(s', p, s'.procs[p])
  {
    hide HasListed, Shown, Hidden, Errors, TriedStops;
    OneMore(s.log, s'.log[|s.log|], p);
    SameListing(s.log, s'.log, p);
  }

  lemma KillReportsScanned(s: State, s': State, p: nat)
    requires Inv(s) && FinishScan(s, s', p) && s.procs[p].Kill? && KillReport(s, p, s.procs[p])
    ensures p in s'.procs && s'.procs[p].Kill? && KillReport(s', p, s'.procs[p])
  {
    hide Inv, HasListed, Visible, Ids;
    Local(s, p);
    assert Listed(p, ScanOf(s.procs[p]).value.listing) in s.log;
    ErrorsAreTries(s.log, p);
  }

  lemma ErrorsAreTries(log: seq<Event>, p: nat)
    ensures Errors(log, p) <= TriedStops(log, p)
  {}

  lemma KillReportsStop(s: State, s': State, p: nat, cid: string, ok: bool)
    requires StopRunning(s, s', p, cid, ok) || StopNothing(s, s', p, cid, ok)
    requires KillReport(s, p, s.procs[p])
    ensures p in s'.procs && s'.procs[p].Kill? && KillReport(s', p, s'.procs[p])
  {
    hide HasWritten, WrittenAs, ProbedAs, SpawnedKill, HasListed, Shown, Hidden, Errors, TriedStops, TriedAll, Targets;
    var e := s'.log[|s.log|];
    OneMore(s.log, e, p);
    SameListing(s.log, s'.log, p);
    var Stopping(listing, out, todo, failed) := s.procs[p].kill;
    assert TriedStops(s.log, p) + {cid} + (todo - {cid}) == Targets(listing, s.procs[p].id);
  }

  lemma KillReportsEnd(s: State, s': State, p: nat)
    requires FinishKill(s, s', p) && KillReport(s, p, s.procs[p])
    ensures p in s'.procs && s'.procs[p].Kill? && KillReport(s', p, s'.procs[p])
  {
    hide HasListed, Shown, Hidden, Errors, TriedStops;
    var Stopping(listing, out, todo, failed) := s.procs[p].kill;
    assert TriedStops(s.log, p) + {} == TriedStops(s.log, p);
  }

  lemma KillReportsUnlisted(s: State, s': State, p: nat)
    requires ListFail(s, s', p) && s.procs[p].Kill? && KillReport(s, p, s.procs[p])
    ensures p in s'.procs && s'.procs[p].Kill? && KillReport(s', p, s'.procs[p])
  {
    hide HasListed, Shown, Hidden, Errors, TriedStops;
  }

  lemma KillReportsOn(s: State, s': State, step: Step, p: nat)
    requires Inv(s) && Does(s, s', step) && Actor(step) == Some(p)
    requires p in s.procs && s.procs[p].Kill? && KillReport(s, p, s.procs[p])
    ensures p in s'.procs && s'.procs[p].Kill? && KillReport(s', p, s'.procs[p])
  {
    hide Inv, KillReport, List, ListFail, ReadMeta, FinishScan, StopRunning, StopNothing, FinishKill, Begin;
    KillStep(s, s', step, p);
    match step
    case ListStep(_, listing) => KillReportsListed(s, s', p, listing);
    case ListFailStep(_) => KillReportsUnlisted(s, s', p);
    case ReadMetaStep(_, id, out) => KillReportsRead(s, s', p, id, out);
    case FinishScanStep(_) => KillReportsScanned(s, s', p);
    case StopRunningStep(_, cid, ok) => KillReportsStop(s, s', p, cid, ok);
    case StopNothingStep(_, cid, ok) => KillReportsStop(s, s', p, cid, ok);
    case FinishKillStep(_) => KillReportsEnd(s, s', p);
  }

  lemma SweepReportsLogged(s: State, s': State, step: Step, p: nat)
    requires Does(s, s', step) && Actor(step) == Some(p)
    requires step.ListStep? || step.ReadMetaStep?
    requires p in s.procs && s.procs[p].Sweep? && SweepReport(s, p, s.procs[p])
    ensures p in s'.procs && s'.procs[p].Sweep? && SweepReport(s', p, s'.procs[p])
  {
    OneMore(s.log, s'.log[|s.log|], p);
    hide HasListed, SpawnedKill, Enumerates;
  }

  lemma SweepReportsCompared(s: State, s': State, step: Step, p: nat)
    requires Does(s, s', step) && Actor(step) == Some(p)
    requires step.SelectStep? || step.SpareStep? || step.FinishCompareStep?
    requires p in s.procs && s.procs[p].Sweep? && SweepReport(s, p, s.procs[p])
    ensures p in s'.procs && s'.procs[p].Sweep? && SweepReport(s', p, s'.procs[p])
  {
    hide HasListed, ListsOnce, HasWritten, WrittenAs, ProbedAs, Errors, TriedStops, SpawnedKill, ViewOf;
    if step.SelectStep? {
      OneMore(s.log, s'.log[|s.log|], p);
    }
  }

  lemma SweepReportsQuiet(s: State, s': State, step: Step, p: nat)
    requires Does(s, s', step) && Actor(step) == Some(p) && (step.ListFailStep? || step.FinishScanStep?)
    requires p in s.procs && s.procs[p].Sweep? && SweepReport(s, p, s.procs[p])
    ensures p in s'.procs && s'.procs[p].Sweep? && SweepReport(s', p, s'.procs[p])
  {
    hide HasListed, SpawnedKill, Visible, Ids;
  }

  lemma SweepReportsSpawn(s: State, s': State, p: nat, id: string, child: nat)
    requires SpawnKill(s, s', p, id, child) && SweepReport(s, p, s.procs[p])
    ensures p in s'.procs && s'.procs[p].Sweep? && SweepReport(s', p, s'.procs[p])
  {
    OneMore(s.log, Spawned(p, child, id), p);
    hide HasListed, SpawnedKill;
  }

  lemma SweepReportsEnd(s: State, s': State, p: nat)
    requires FinishSweep(s, s', p) && SweepReport(s, p, s.procs[p])
    ensures p in s'.procs && s'.procs[p].Sweep? && SweepReport(s', p, s'.procs[p])
  {
    hide HasListed, SpawnedKill;
  }

  lemma SweepReportsOn(s: State, s': State, step: Step, p: nat)
    requires Does(s, s', step) && Actor(step) == Some(p)
    requires p in s.procs && s.procs[p].Sweep? && SweepReport(s, p, s.procs[p])
    ensures p in s'.procs && s'.procs[p].Sweep? && SweepReport(s', p, s'.procs[p])
  {
    hide SweepReport, List, ListFail, ReadMeta, FinishScan, Select, Spare, FinishCompare, SpawnKill, FinishSweep;
    SweepStep(s, s', step, p);
    match step
    case ListStep(_, _) => SweepReportsLogged(s, s', step, p);
    case ReadMetaStep(_, _, _) => SweepReportsLogged(s, s', step, p);
    case SelectStep(_, _) => SweepReportsCompared(s, s', step, p);
    case SpareStep(_, _) => SweepReportsCompared(s, s', step, p);
    case FinishCompareStep(_) => SweepReportsCompared(s, s', step, p);
    case ListFailStep(_) => SweepReportsQuiet(s, s', step, p);
    case FinishScanStep(_) => SweepReportsQuiet(s, s', step, p);
    case SpawnKillStep(_, id, child) => SweepReportsSpawn(s, s', p, id, child);
    case FinishSweepStep(_) => SweepReportsEnd(s, s', p);
  }

  lemma ReportsOn(s: State, s': State, step: Step, p: nat)
    requires Inv(s) && Does(s, s', step) && Actor(step) == Some(p) && p in s.procs && Reports(s, p)
    ensures p in s'.procs && Reports(s', p)
  {
    hide Inv, Does, AllocationReport, RefreshReport, RefreshFinds, KillReport, SweepReport;
    match s.procs[p]
    case Allocation(_, _, _, _, _, _) => AllocationReportsOn(s, s', step, p);
    case Refresh(_, _, _, _) =>
      RefreshReportsOn(s, s', step, p);
      RefreshFindsMore(s, s', step, p);
    case Kill(_, _, _, _) => KillReportsOn(s, s', step, p);
    case Sweep(_, _, _) => SweepReportsOn(s, s', step, p);
  }

  // ---------- Every run ----------

  /** In every state of every run, each call's stage and result say just what it was told and did. */
  lemma {:induction false} ReportsAreTrue(ss: seq<State>, n: nat)
    requires Run(ss) && n < |ss|
    ensures Known(ss[n]) && forall p <- ss[n].procs :: Reports(ss[n], p)
  {
    hide Run, Inv, Does, Grows, Reports, Known;
    if n == 0 {
      AtFirst(ss);
    } else {
      ReportsAreTrue(ss, n - 1);
      var step := StepOf(ss, n);
      var s, s' := ss[n - 1], ss[n];
      KnownStays(s, s', step);
      forall p | p in s'.procs ensures Reports(s', p) {
        if p !in s.procs {
          NewlyReports(s, s', step, p);
        } else if Actor(step) == Some(p) {
          ReportsOn(s, s', step, p);
        } else {
          ReportsOfOthers(s, s', step, p);
        }
      }
    }
  }

  lemma AtFirst(ss: seq<State>)
    requires Run(ss)
    ensures Known(ss[0]) && ss[0].procs == map[]
  {}

  /** An allocation that has ended: it was rejected exactly if it has written no record, it has given up exactly if
      the image has failed, and it has succeeded exactly if the image and every one of its nodes was reported well. */
  lemma AllocationResult(ss: seq<State>, n: nat, p: nat)
    requires Run(ss) && n < |ss| && p in ss[n].procs && ss[n].procs[p].Allocation?
    requires var stage := ss[n].procs[p].alloc;
             stage.Rejected? || stage.ImageFailed? || stage.Allocated? || stage.RollingBack? || stage.RolledBack?
    ensures var log, proc := ss[n].log, ss[n].procs[p];
            && |proc.workers| == proc.count
            && (proc.alloc.Rejected? <==> !HasWritten(log, p))
            && (proc.alloc.ImageFailed? <==> Imaged(p, false) in log)
            && (proc.alloc.Allocated? <==>
                  Imaged(p, true) in log && forall w: nat :: w < proc.count ==> Worked(p, w, true) in log)
  {
    hide Run, Inv, HasWritten, Known, Reports, WorkersOk;
    ReportsAreTrue(ss, n);
    RunInv(ss, n);
    WorkerCount(ss[n], p);
    ResultOfReport(ss[n], p);
  }

  lemma WorkerCount(s: State, p: nat)
    requires Inv(s) && p in s.procs && s.procs[p].Allocation?
    ensures |s.procs[p].workers| == s.procs[p].count
  {
    hide Inv;
    Local(s, p);
  }

  lemma ResultOfReport(s: State, p: nat)
    requires p in s.procs && s.procs[p].Allocation? && Reports(s, p) && |s.procs[p].workers| == s.procs[p].count
    requires var stage := s.procs[p].alloc;
             stage.Rejected? || stage.ImageFailed? || stage.Allocated? || stage.RollingBack? || stage.RolledBack?
    ensures var log, proc := s.log, s.procs[p];
            && (proc.alloc.Rejected? <==> !HasWritten(log, p))
            && (proc.alloc.ImageFailed? <==> Imaged(p, false) in log)
            && (proc.alloc.Allocated? <==>
                  Imaged(p, true) in log && forall w: nat :: w < proc.count ==> Worked(p, w, true) in log)
  {
    hide HasWritten;
    var log, proc := s.log, s.procs[p];
    assert AllocationReport(s, p, proc);
    forall w: nat | w < proc.count ensures Worked(p, w, true) in log <==> proc.workers[w].Ended? && proc.workers[w].ok {
      assert WorkerReport(log, p, w, proc.workers[w]);
    }
  }

  /** A refresh that has ended: it succeeds exactly if it has written, which it does only for a cluster that its one
      listing shows to its caller, and blindly exactly if its one lookup of the record has failed.  It fails without
      a lookup exactly if it has not listed the containers or the listing does not show the cluster. */
  lemma RefreshResult(ss: seq<State>, n: nat, p: nat)
    requires Run(ss) && n < |ss| && p in ss[n].procs && ss[n].procs[p].Refresh? && ss[n].procs[p].refresh.RefreshDone?
    ensures var log, proc := ss[n].log, ss[n].procs[p];
            var probed := ProbedAs(log, p, true) || ProbedAs(log, p, false);
            && (proc.refresh == RefreshDone(true) <==> WrittenAs(log, p, true) || WrittenAs(log, p, false))
            && (forall blind :: WrittenAs(log, p, blind) ==> probed && (blind <==> ProbedAs(log, p, true)))
            && (probed <==> Shown(log, p, proc.ctx, proc.id))
            && (!probed <==> !HasListed(log, p) || Hidden(log, p, proc.ctx, proc.id))
  {
    hide Run, ProbedAs, WrittenAs, HasListed, HasWritten, Known;
    ReportsAreTrue(ss, n);
    assert Reports(ss[n], p);
    WritesAreWritten(ss[n].log, p);
    ShownOrHidden(ss[n].log, p, ss[n].procs[p].ctx, ss[n].procs[p].id);
  }

  /** The outcome of the kill's own read of the record (ReadOnce) turns its caller away. */
  ghost predicate TurnedAway(log: seq<Event>, p: nat, proc: Proc)
    requires proc.Kill?
  {
    exists out :: Read(p, proc.id, out) in log && Refused(proc.ctx, out)
  }

  /** A kill that has ended: which result it gives, exactly, by what it has listed, read and stopped. */
  lemma KillResult(ss: seq<State>, n: nat, p: nat)
    requires Run(ss) && n < |ss| && Finished(ss[n].procs, p)
    ensures var s, proc, result := ss[n], ss[n].procs[p], ss[n].procs[p].kill.result;
            && (result == ListFailed <==> !HasListed(s.log, p))
            && (result == NotFound <==> Hidden(s.log, p, proc.ctx, proc.id))
            && (result == NotOwner <==> Shown(s.log, p, proc.ctx, proc.id) && TurnedAway(s.log, p, proc))
            && (result == Killed || result.StopFailed? ==>
                  && TriedAll(s, p, proc) && Errors(s.log, p) == if result == Killed then {} else result.failed)
            && (result.StopFailed? ==> result.failed != {})
  {
    hide Run, Inv, HasListed, HasWritten, Known, Shown, Hidden, Errors, TriedStops, TriedAll;
    ReportsAreTrue(ss, n);
    RunInv(ss, n);
    var s, proc := ss[n], ss[n].procs[p];
    assert Reports(s, p);
    ShownOrHidden(s.log, p, proc.ctx, proc.id);
    if HasListed(s.log, p) && proc.kill != KillDone(NotFound) {
      ReadDecides(s, p);
    }
  }

  lemma ReadDecides(s: State, p: nat)
    requires Inv(s) && Finished(s.procs, p)
    requires !s.procs[p].kill.result.ListFailed? && !s.procs[p].kill.result.NotFound?
    ensures s.procs[p].kill.result.NotOwner? <==> TurnedAway(s.log, p, s.procs[p])
  {
    hide Stores, Allocations, Rollbacks, Causal, Records, Owners;
    assert ScanOk(s, p, s.procs[p]);
    var proc := s.procs[p];
    var out :| Read(p, proc.id, out) in s.log && (proc.kill.result.NotOwner? <==> Refused(proc.ctx, out));
    forall o | Read(p, proc.id, o) in s.log ensures o == out {
      ReadsOnce(s, p, proc.id, o, out);
    }
  }

  lemma ReadsOnce(s: State, p: nat, id: string, a: Outcome, b: Outcome)
    requires ReadOnce(s) && Read(p, id, a) in s.log && Read(p, id, b) in s.log
    ensures a == b
  {}

  lemma ShownOrHidden(log: seq<Event>, p: nat, ctx: Ctx, id: string)
    requires ListsOnce(log, p)
    ensures !(Shown(log, p, ctx, id) && Hidden(log, p, ctx, id))
    ensures HasListed(log, p) <==> Shown(log, p, ctx, id) || Hidden(log, p, ctx, id)
  {
    hide Visible, Ids;
    if HasListed(log, p) {
      var e :| e in log && e.Listed? && e.p == p;
      assert Listed(p, e.listing) in log;
    }
  }

  /** A sweep that has ended reports success exactly if it has listed the containers and all the kills that it has
      started, which have ended too, report success. */
  lemma SweepResult(ss: seq<State>, n: nat, p: nat)
    requires Run(ss) && n < |ss| && p in ss[n].procs && ss[n].procs[p].Sweep? && ss[n].procs[p].sweep.SweepDone?
    ensures var s := ss[n];
            && (HasListed(s.log, p) ==> forall c :: SpawnedKill(s.log, p, c) ==> Finished(s.procs, c))
            && (forall c :: SpawnedKill(s.log, p, c) ==> c in s.procs && s.procs[c].Kill?)
            && (s.procs[p].sweep == SweepDone(true) <==>
                  HasListed(s.log, p) && forall c :: SpawnedKill(s.log, p, c) ==> s.procs[c].kill == KillDone(Killed))
  {
    ReportsAreTrue(ss, n);
    hide Run, HasListed, SpawnedKill;
    assert Reports(ss[n], p);
  }

  // ---------- What killAllClusters is aimed at ----------

  ghost predicate AimsWell(s: State, p: nat, proc: Proc)
    requires proc.Sweep?
  {
    !proc.reaping ==>
      && !proc.sweep.Comparing?
      && (forall c, id :: Spawned(p, c, id) in s.log ==> Shown(s.log, p, proc.ctx, id))
      && (proc.sweep.Killing? ==> forall id <- proc.sweep.pending :: Shown(s.log, p, proc.ctx, id))
  }

  lemma ShownStays(log: seq<Event>, log': seq<Event>, p: nat, ctx: Ctx, id: string)
    requires Shown(log, p, ctx, id) && forall e <- log :: e in log'
    ensures Shown(log', p, ctx, id)
  {
    var listing :| Listed(p, listing) in log && id in Ids(listing) && Visible(ctx, listing, id);
    assert Listed(p, listing) in log';
  }

  /** A step without a new spawn, and without new targets. */
  lemma AimsAsWell(s: State, s': State, p: nat, proc: Proc, proc': Proc)
    requires proc.Sweep? && AimsWell(s, p, proc) && SameIdentity(proc, proc') && LogGrows(s, s')
    requires |s'.log| > |s.log| ==> s'.log[|s.log|].p != p || !s'.log[|s.log|].Spawned?
    requires !proc.reaping ==> !proc'.sweep.Comparing?
    requires proc'.sweep.Killing? && !proc.reaping ==> proc.sweep.Killing? && proc'.sweep.pending <= proc.sweep.pending
    ensures AimsWell(s', p, proc')
  {
    hide Shown;
    forall e | e in s.log ensures e in s'.log {}
    forall id | Shown(s.log, p, proc.ctx, id) ensures Shown(s'.log, p, proc.ctx, id) {
      ShownStays(s.log, s'.log, p, proc.ctx, id);
    }
    if !proc.reaping {
      forall c, id | Spawned(p, c, id) in s'.log ensures Shown(s'.log, p, proc'.ctx, id) {
        assert Spawned(p, c, id) in s.log;
      }
    }
  }

  lemma AimsWhenScanned(s: State, s': State, p: nat)
    requires Inv(s) && FinishScan(s, s', p) && s.procs[p].Sweep? && AimsWell(s, p, s.procs[p])
    ensures p in s'.procs && s'.procs[p].Sweep? && AimsWell(s', p, s'.procs[p])
  {
    hide Inv;
    Local(s, p);
    var listing := ScanOf(s.procs[p]).value.listing;
    assert Listed(p, listing) in s'.log;
  }

  lemma AimsWhenSpawned(s: State, s': State, p: nat, id: string, child: nat)
    requires SpawnKill(s, s', p, id, child) && AimsWell(s, p, s.procs[p])
    ensures p in s'.procs && s'.procs[p].Sweep? && AimsWell(s', p, s'.procs[p])
  {
    hide Shown;
    var proc := s.procs[p];
    forall e | e in s.log ensures e in s'.log {}
    forall k | Shown(s.log, p, proc.ctx, k) ensures Shown(s'.log, p, proc.ctx, k) {
      ShownStays(s.log, s'.log, p, proc.ctx, k);
    }
    if !proc.reaping {
      forall c, k | Spawned(p, c, k) in s'.log ensures Shown(s'.log, p, proc.ctx, k) {
        assert Spawned(p, c, k) in s.log || k == id;
      }
    }
  }

  lemma AimsOn(s: State, s': State, step: Step, p: nat)
    requires Inv(s) && Does(s, s', step) && Grows(s, s') && Actor(step) == Some(p)
    requires p in s.procs && s.procs[p].Sweep? && AimsWell(s, p, s.procs[p])
    ensures p in s'.procs && s'.procs[p].Sweep? && AimsWell(s', p, s'.procs[p])
  {
    hide Inv, Grows, AimsWell, FinishScan, SpawnKill;
    SweepStep(s, s', step, p);
    SameKind(s, s', p);
    ClockAdvances(s, s', step);
    match step
    case FinishScanStep(_) => AimsWhenScanned(s, s', p);
    case SpawnKillStep(_, id, child) => AimsWhenSpawned(s, s', p, id, child);
    case _ => AimsElsewhere(s, s', step, p);
  }

  lemma AimsElsewhere(s: State, s': State, step: Step, p: nat)
    requires Does(s, s', step) && Actor(step) == Some(p) && !step.FinishScanStep? && !step.SpawnKillStep?
    requires !step.BeginStep? && (KindOf(step).Any? || KindOf(step).OfSweep?)
    requires p in s.procs && s.procs[p].Sweep? && AimsWell(s, p, s.procs[p])
    ensures p in s'.procs && s'.procs[p].Sweep? && AimsWell(s', p, s'.procs[p])
  {
    hide Shown, Enumerates, ViewOf;
    ClockAdvances(s, s', step);
    AimsAsWell(s, s', p, s.procs[p], s'.procs[p]);
  }

  lemma {:induction false} AimsFrom(ss: seq<State>, n: nat, p: nat)
    requires Run(ss) && n < |ss| && p in ss[n].procs && ss[n].procs[p].Sweep?
    ensures AimsWell(ss[n], p, ss[n].procs[p])
    decreases n
  {
    hide Run, Inv, Does, Grows, Shown, Known;
    ReportsAreTrue(ss, n);
    if n == 0 {
      AtFirst(ss);
    } else {
      var step := StepOf(ss, n);
      var s, s' := ss[n - 1], ss[n];
      if p !in s.procs {
        Newborn(s, s', step, p);
        NothingSpawned(s', p);
      } else {
        SameKind(s, s', p);
        AimsFrom(ss, n - 1, p);
        hide AimsWell;
        if Actor(step) == Some(p) {
          AimsOn(s, s', step, p);
        } else {
          OthersStay(s, s', step, p);
          OthersAreSilent(s, s', step, p);
          ClockAdvances(s, s', step);
          AimsOfOthers(s, s', p);
        }
      }
    }
  }

  lemma AimsOfOthers(s: State, s': State, p: nat)
    requires p in s.procs && s.procs[p].Sweep? && AimsWell(s, p, s.procs[p]) && LogGrows(s, s')
    requires |s'.log| > |s.log| ==> s'.log[|s.log|].p != p
    ensures AimsWell(s', p, s.procs[p])
  {
    AimsAsWell(s, s', p, s.procs[p], s.procs[p]);
  }

  lemma NothingSpawned(s: State, p: nat)
    requires p in s.procs && s.procs[p].Sweep? && s.procs[p].sweep.SweepScan? && Reports(s, p)
    ensures forall c, id :: Spawned(p, c, id) !in s.log
  {
    forall c, id ensures Spawned(p, c, id) !in s.log {
      assert !SpawnedKill(s.log, p, c);
    }
  }

  /** killAllClusters starts kills only of clusters that its own listing shows to its caller. */
  lemma KillsOnlyTheVisible(ss: seq<State>, n: nat, p: nat, c: nat, id: string)
    requires Run(ss) && n < |ss| && Spawned(p, c, id) in ss[n].log
    requires p in ss[n].procs && ss[n].procs[p].Sweep? && !ss[n].procs[p].reaping
    ensures Shown(ss[n].log, p, ss[n].procs[p].ctx, id)
  {
    AimsFrom(ss, n, p);
  }
}
