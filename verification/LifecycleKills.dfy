/** What a kill, a kill of all clusters and a run of the reaper have done when they report success
    (daemon/clusters.go:291-364, daemon/daemon.go:194-229). */
module LifecycleKills {
  import opened Basics
  import opened Leases
  import opened Clusters
  import opened Lifecycle
  import opened LifecycleInvariants
  import opened LifecycleSteps
  import opened LifecycleTheorems
  import opened LifecycleEffects

  // ---------- Clusters that nobody is building ----------

  /** The cluster is registered, and no allocation of it is still going to start a container. */
  ghost predicate Quiet(s: State, id: string) {
    id in s.meta && forall q <- s.procs :: Builds(s.procs[q]) ==> s.procs[q].id != id
  }

  lemma QuietStays(s: State, s': State, step: Step, id: string)
    requires Does(s, s', step) && Quiet(s, id) && !s'.clashed && s.meta.Keys <= s'.meta.Keys
    ensures Quiet(s', id)
  {
    hide Does, WakesNone;
    StepEffect(s, s', step);
  }

  lemma StartWakesOwn(s: State, s': State, p: nat, w: nat, id: string)
    requires Inv(s) && StartContainer(s, s', p, w) && Quiet(s, id)
    ensures NoneWoken(s, s', id)
  {
    hide Inv, Allocations;
    Local(s, p);
    StoresOf(s);
  }

  lemma WakesNoneOf(s: State, s': State, id: string)
    requires WakesNone(s, s')
    ensures NoneWoken(s, s', id)
  {}

  lemma QuietWakesNone(s: State, s': State, step: Step, id: string)
    requires Inv(s) && Does(s, s', step) && Quiet(s, id)
    ensures NoneWoken(s, s', id)
  {
    hide Inv, Quiet, NoneWoken, WakesNone;
    if step.StartContainerStep? {
      StartWakesOwn(s, s', step.p, step.w, id);
    } else {
      hide Does;
      StepEffect(s, s', step);
      WakesNoneOf(s, s', id);
    }
  }

  // ---------- One kill ----------

  /** All of the cluster that runs is in this listing. */
  ghost predicate ListsAll(s: State, listing: seq<Container>, id: string) {
    forall k <- s.containers :: IsRunning(s, k) && s.containers[k].cluster == id ==> Shows(listing, k, id)
  }

  /** How far a kill has got in hand all that runs of its cluster.  One that may see every cluster finds nothing
      only if nothing runs. */
  ghost predicate KillHolds(s: State, kill: Proc)
    requires kill.Kill?
  {
    match kill.kill
    case KillScan(Listing) => true
    case KillScan(Reading(listing, _)) => ListsAll(s, listing, kill.id)
    case Stopping(_, _, todo, failed) => RunningWithin(s, kill.id, todo + failed)
    case KillDone(Killed) => RunningWithin(s, kill.id, {})
    case KillDone(StopFailed(failed)) => RunningWithin(s, kill.id, failed)
    case KillDone(NotFound) => kill.ctx.ignoreOwnership && kill.id != "" ==> RunningWithin(s, kill.id, {})
    case KillDone(_) => true
  }

  lemma HoldsWhileOthersAct(s: State, s': State, kill: Proc)
    requires kill.Kill? && KillHolds(s, kill) && NoneWoken(s, s', kill.id)
    ensures KillHolds(s', kill)
  {}

  lemma ListingListsAll(s: State, listing: seq<Container>, id: string)
    requires Stores(s) && Enumerates(listing, s.containers)
    ensures ListsAll(s, listing, id)
  {}

  lemma HoldsAfterScan(s: State, s': State, p: nat)
    requires FinishScan(s, s', p) && s.procs[p].Kill? && KillHolds(s, s.procs[p])
    ensures p in s'.procs && s'.procs[p].Kill? && KillHolds(s', s'.procs[p])
  {}

  lemma HoldsAfterStop(s: State, s': State, p: nat, cid: string, ok: bool)
    requires StopRunning(s, s', p, cid, ok) || StopNothing(s, s', p, cid, ok)
    requires KillHolds(s, s.procs[p])
    ensures p in s'.procs && s'.procs[p].Kill? && KillHolds(s', s'.procs[p])
  {}

  lemma HoldsAtEnd(s: State, s': State, p: nat)
    requires FinishKill(s, s', p) && KillHolds(s, s.procs[p])
    ensures p in s'.procs && s'.procs[p].Kill? && KillHolds(s', s'.procs[p])
  {}

  lemma KillStep(s: State, s': State, step: Step, p: nat)
    requires Does(s, s', step) && Actor(step) == Some(p) && p in s.procs && s.procs[p].Kill?
    ensures !step.BeginStep? && (KindOf(step).Any? || KindOf(step).OfKill?)
  {
    hide Does, WakesNone;
    StepEffect(s, s', step);
  }

  lemma HoldsByOwnStep(s: State, s': State, step: Step, p: nat)
    requires Stores(s) && Does(s, s', step) && Actor(step) == Some(p)
    requires p in s.procs && s.procs[p].Kill? && KillHolds(s, s.procs[p])
    ensures p in s'.procs && s'.procs[p].Kill? && KillHolds(s', s'.procs[p])
  {
    hide Stores, KillHolds, List, ListFail, ReadMeta, FinishScan, StopRunning, StopNothing, FinishKill;
    hide Register, Clash, Reject, Image, CreateContainer, CreateFail, StartContainer, StartFail, Inspect, Succeed,
         RollBack, FinishRollback, Probe, Write, Overwrite, WriteFail, Select, Spare, FinishCompare, SpawnKill,
         FinishSweep, Tick, Begin;
    KillStep(s, s', step, p);
    match step
    case ListStep(_, listing) => HoldsOnceListed(s, s', p, listing);
    case ListFailStep(_) => HoldsUnlisted(s, s', p);
    case ReadMetaStep(_, id, out) => HoldsWhileReading(s, s', p, id, out);
    case FinishScanStep(_) => HoldsAfterScan(s, s', p);
    case StopRunningStep(_, cid, ok) => HoldsAfterStop(s, s', p, cid, ok);
    case StopNothingStep(_, cid, ok) => HoldsAfterStop(s, s', p, cid, ok);
    case FinishKillStep(_) => HoldsAtEnd(s, s', p);
  }

  lemma HoldsOnceListed(s: State, s': State, p: nat, listing: seq<Container>)
    requires Stores(s) && List(s, s', p, listing) && s.procs[p].Kill?
    ensures p in s'.procs && s'.procs[p].Kill? && KillHolds(s', s'.procs[p])
  {
    ListingListsAll(s, listing, s.procs[p].id);
  }

  lemma HoldsUnlisted(s: State, s': State, p: nat)
    requires ListFail(s, s', p) && s.procs[p].Kill?
    ensures p in s'.procs && s'.procs[p].Kill? && KillHolds(s', s'.procs[p])
  {}

  lemma HoldsWhileReading(s: State, s': State, p: nat, id: string, out: Outcome)
    requires ReadMeta(s, s', p, id, out) && s.procs[p].Kill? && KillHolds(s, s.procs[p])
    ensures p in s'.procs && s'.procs[p].Kill? && KillHolds(s', s'.procs[p])
  {}

  /** A kill keeps hold of its cluster, whatever step is taken. */
  lemma KeepsHold(s: State, s': State, step: Step, p: nat)
    requires Inv(s) && Does(s, s', step) && p in s.procs && s.procs[p].Kill? && KillHolds(s, s.procs[p])
    requires NoneWoken(s, s', s.procs[p].id)
    ensures p in s'.procs && s'.procs[p].Kill? && KillHolds(s', s'.procs[p])
  {
    hide Inv, Does, KillHolds, NoneWoken;
    if Actor(step) == Some(p) {
      StoresOf(s);
      HoldsByOwnStep(s, s', step, p);
    } else {
      OthersStay(s, s', step, p);
      HoldsWhileOthersAct(s, s', s.procs[p]);
    }
  }

  lemma {:induction false} StaysQuiet(ss: seq<State>, i: nat, j: nat, id: string)
    requires Run(ss) && i <= j < |ss| && Quiet(ss[i], id) && !ss[j].clashed
    ensures Quiet(ss[j], id)
    decreases j
  {
    hide Run, Quiet, Inv, Does;
    if i < j {
      var step := StepOf(ss, j);
      StaysQuiet(ss, i, j - 1, id);
      QuietStays(ss[j - 1], ss[j], step, id);
    }
  }

  /** A call that had not listed the containers at this point of the run, if it had begun at all. */
  predicate NotYet(s: State, p: nat) {
    p in s.procs && (s.procs[p].Kill? || s.procs[p].Sweep?) ==> ScanOf(s.procs[p]) == Some(Listing)
  }

  lemma {:induction false} HoldsFrom(ss: seq<State>, i: nat, j: nat, p: nat)
    requires Run(ss) && i <= j < |ss| && NotYet(ss[i], p) && !ss[j].clashed
    requires p in ss[j].procs && ss[j].procs[p].Kill? && Quiet(ss[i], ss[j].procs[p].id)
    ensures KillHolds(ss[j], ss[j].procs[p])
    decreases j
  {
    hide Run, Quiet, Inv, Does, Grows;
    if i < j {
      var step := StepOf(ss, j);
      var s, s' := ss[j - 1], ss[j];
      if p in s.procs {
        SameKind(s, s', p);
        HoldsFrom(ss, i, j - 1, p);
        StaysQuiet(ss, i, j - 1, s.procs[p].id);
        QuietWakesNone(s, s', step, s.procs[p].id);
        hide KillHolds;
        KeepsHold(s, s', step, p);
      } else {
        Newborn(s, s', step, p);
      }
    }
  }

  /** A kill of a cluster that no allocation was building any more when the kill listed the containers: if it
      reports success, none of them runs; if some stops failed, only these may run; and if its caller may see
      every cluster, none runs either when it finds nothing. */
  lemma KilledIsGone(ss: seq<State>, i: nat, j: nat, p: nat)
    requires Run(ss) && i <= j < |ss| && NotYet(ss[i], p) && !ss[j].clashed
    requires p in ss[j].procs && ss[j].procs[p].Kill? && Quiet(ss[i], ss[j].procs[p].id)
    ensures var kill := ss[j].procs[p];
            && (kill.kill == KillDone(Killed) ==> RunningFor(ss[j], kill.id) == {})
            && (kill.kill.KillDone? && kill.kill.result.StopFailed? ==>
                  RunningFor(ss[j], kill.id) <= kill.kill.result.failed)
            && (kill.kill == KillDone(NotFound) && kill.ctx.ignoreOwnership && kill.id != "" ==>
                  RunningFor(ss[j], kill.id) == {})
  {
    HoldsFrom(ss, i, j, p);
  }

  // ---------- Killing all clusters, and reaping ----------

  ghost predicate Gone(s: State, id: string) { RunningWithin(s, id, {}) }

  /** All containers of the cluster name this creator. */
  ghost predicate CreatedBy(s: State, id: string, user: string) {
    forall k <- s.issued :: s.issued[k].cluster == id ==> s.issued[k].creator == user
  }

  /** The clusters that a sweep is to kill: those that the reaper has selected, or all that its caller may see. */
  ghost predicate Aimed(s: State, p: nat, proc: Proc, id: string)
    requires proc.Sweep?
  {
    if proc.reaping then WasSelected(s.log, p, id)
    else id != "" && (proc.ctx.ignoreOwnership || CreatedBy(s, id, proc.ctx.user))
  }

  ghost predicate KidHolds(s: State, c: nat, id: string) {
    c in s.procs && s.procs[c].Kill? && s.procs[c].id == id && KillHolds(s, s.procs[c])
  }

  /** How far a sweep has got the cluster in hand. */
  ghost predicate SweepHolds(s: State, p: nat, proc: Proc, id: string)
    requires proc.Sweep?
  {
    match proc.sweep
    case SweepScan(Listing) => proc.reaping ==> !WasSelected(s.log, p, id)
    case SweepScan(Reading(listing, _)) =>
      ListsAll(s, listing, id) && (proc.reaping ==> !WasSelected(s.log, p, id))
    case Comparing(_, _, chosen) => proc.reaping && (WasSelected(s.log, p, id) ==> id in chosen)
    case Killing(pending, kids) =>
      Aimed(s, p, proc, id) ==> id in pending || Gone(s, id) || exists c <- kids :: KidHolds(s, c, id)
    case SweepDone(ok) => ok && Aimed(s, p, proc, id) ==> Gone(s, id)
  }

  /** Without an event of its own, a sweep is aimed at nothing more than before. */
  lemma AimsAtNoMore(s: State, s': State, p: nat, proc: Proc, id: string)
    requires Grows(s, s') && proc.Sweep?
    requires |s'.log| > |s.log| ==> s'.log[|s.log|].p != p || !s'.log[|s.log|].Selected?
    ensures Aimed(s', p, proc, id) ==> Aimed(s, p, proc, id)
    ensures WasSelected(s'.log, p, id) ==> WasSelected(s.log, p, id)
  {}

  lemma GoneStays(s: State, s': State, id: string)
    requires NoneWoken(s, s', id)
    ensures Gone(s, id) ==> Gone(s', id)
  {}

  lemma KidsKeepHold(s: State, s': State, step: Step, kids: set<nat>, id: string)
    requires Inv(s) && Grows(s, s') && Does(s, s', step) && NoneWoken(s, s', id)
    ensures (exists c <- kids :: KidHolds(s, c, id)) ==> exists c <- kids :: KidHolds(s', c, id)
  {
    hide Inv, Does, KillHolds, NoneWoken, Grows;
    if c :| c in kids && KidHolds(s, c, id) {
      KeepsHold(s, s', step, c);
      SameKind(s, s', c);
      assert KidHolds(s', c, id);
    }
  }

  lemma SweepHoldsWhileOthersAct(s: State, s': State, step: Step, p: nat, id: string)
    requires Inv(s) && Grows(s, s') && Does(s, s', step) && NoneWoken(s, s', id) && Actor(step) != Some(p)
    requires p in s.procs && s.procs[p].Sweep? && SweepHolds(s, p, s.procs[p], id)
    ensures SweepHolds(s', p, s.procs[p], id)
  {
    hide Inv, Does, Grows, NoneWoken, Aimed, WasSelected, KidHolds, Gone, ListsAll;
    OthersAreSilent(s, s', step, p);
    AimsAtNoMore(s, s', p, s.procs[p], id);
    match s.procs[p].sweep
    case SweepScan(Listing) =>
    case SweepScan(Reading(listing, _)) => ListsAllStays(s, s', listing, id);
    case Comparing(_, _, _) =>
    case Killing(_, kids) =>
      KidsKeepHold(s, s', step, kids, id);
      GoneStays(s, s', id);
    case SweepDone(_) => GoneStays(s, s', id);
  }

  lemma ListsAllStays(s: State, s': State, listing: seq<Container>, id: string)
    requires NoneWoken(s, s', id) && ListsAll(s, listing, id)
    ensures ListsAll(s', listing, id)
  {}

  lemma SweepStep(s: State, s': State, step: Step, p: nat)
    requires Does(s, s', step) && Actor(step) == Some(p) && p in s.procs && s.procs[p].Sweep?
    ensures !step.BeginStep? && (KindOf(step).Any? || KindOf(step).OfSweep?)
  {
    hide Does, WakesNone;
    StepEffect(s, s', step);
  }

  lemma SweepListed(s: State, s': State, p: nat, listing: seq<Container>, id: string)
    requires Stores(s) && List(s, s', p, listing) && s.procs[p].Sweep? && SweepHolds(s, p, s.procs[p], id)
    ensures p in s'.procs && s'.procs[p].Sweep? && SweepHolds(s', p, s'.procs[p], id)
  {
    ListingListsAll(s, listing, id);
  }

  lemma SweepUnlisted(s: State, s': State, p: nat, id: string)
    requires ListFail(s, s', p) && s.procs[p].Sweep?
    ensures p in s'.procs && s'.procs[p].Sweep? && SweepHolds(s', p, s'.procs[p], id)
  {}

  lemma SweepReads(s: State, s': State, p: nat, key: string, out: Outcome, id: string)
    requires ReadMeta(s, s', p, key, out) && s.procs[p].Sweep? && SweepHolds(s, p, s.procs[p], id)
    ensures p in s'.procs && s'.procs[p].Sweep? && SweepHolds(s', p, s'.procs[p], id)
  {}

  lemma SweepScanned(s: State, s': State, p: nat, id: string)
    requires Inv(s) && FinishScan(s, s', p) && s.procs[p].Sweep? && SweepHolds(s, p, s.procs[p], id)
    ensures p in s'.procs && s'.procs[p].Sweep? && SweepHolds(s', p, s'.procs[p], id)
  {
    hide Inv;
    Local(s, p);
    var proc := s.procs[p];
    var listing := ScanOf(proc).value.listing;
    if !proc.reaping && Aimed(s, p, proc, id) && id in Ids(listing) {
      SeesItsOwn(s, listing, proc.ctx, id);
    }
  }

  lemma SeesItsOwn(s: State, listing: seq<Container>, ctx: Ctx, id: string)
    requires Inv(s) && Genuine(s, listing) && id in Ids(listing) && (ctx.ignoreOwnership || CreatedBy(s, id, ctx.user))
    ensures Visible(ctx, listing, id)
  {
    hide Inv, Allocations;
    StoresOf(s);
    if !ctx.ignoreOwnership {
      var c :| c in listing && c.cluster == id && id != "";
      CreatorIsCommonLabel(listing, id, ctx.user);
    }
  }

  lemma SweepSelects(s: State, s': State, p: nat, key: string, id: string)
    requires Select(s, s', p, key) && SweepHolds(s, p, s.procs[p], id)
    ensures p in s'.procs && s'.procs[p].Sweep? && SweepHolds(s', p, s'.procs[p], id)
  {}

  lemma SweepSpares(s: State, s': State, p: nat, key: string, id: string)
    requires Spare(s, s', p, key) && SweepHolds(s, p, s.procs[p], id)
    ensures p in s'.procs && s'.procs[p].Sweep? && SweepHolds(s', p, s'.procs[p], id)
  {}

  lemma SweepCompared(s: State, s': State, p: nat, id: string)
    requires FinishCompare(s, s', p) && SweepHolds(s, p, s.procs[p], id)
    ensures p in s'.procs && s'.procs[p].Sweep? && SweepHolds(s', p, s'.procs[p], id)
  {}

  lemma SweepSpawns(s: State, s': State, p: nat, key: string, child: nat, id: string)
    requires Inv(s) && Grows(s, s') && SpawnKill(s, s', p, key, child) && NoneWoken(s, s', id)
    requires SweepHolds(s, p, s.procs[p], id)
    ensures p in s'.procs && s'.procs[p].Sweep? && SweepHolds(s', p, s'.procs[p], id)
  {
    hide Inv, Grows, NoneWoken, Aimed, WasSelected, KidHolds, Gone, ListsAll;
    KidsKeepHold(s, s', SpawnKillStep(p, key, child), s.procs[p].sweep.kids, id);
    GoneStays(s, s', id);
    AimsAtNoMore(s, s', p, s.procs[p], id);
    SameAim(s', p, s.procs[p], s'.procs[p], id);
    ChildHolds(s, s', p, key, child);
  }

  lemma SameAim(s: State, p: nat, proc: Proc, proc': Proc, id: string)
    requires proc.Sweep? && proc'.Sweep? && SameIdentity(proc, proc')
    ensures Aimed(s, p, proc', id) <==> Aimed(s, p, proc, id)
  {}

  lemma ChildHolds(s: State, s': State, p: nat, key: string, child: nat)
    requires SpawnKill(s, s', p, key, child)
    ensures KidHolds(s', child, key)
  {}

  lemma SweepEnds(s: State, s': State, p: nat, id: string)
    requires FinishSweep(s, s', p) && SweepHolds(s, p, s.procs[p], id)
    ensures p in s'.procs && s'.procs[p].Sweep? && SweepHolds(s', p, s'.procs[p], id)
  {
    var kids := s.procs[p].sweep.kids;
    if c :| c in kids && KidHolds(s, c, id) {
      assert s.procs[c].kill == KillDone(Killed) ==> Gone(s, id);
    }
  }

  lemma SweepHoldsByOwnStep(s: State, s': State, step: Step, p: nat, id: string)
    requires Inv(s) && Grows(s, s') && Does(s, s', step) && NoneWoken(s, s', id) && Actor(step) == Some(p)
    requires p in s.procs && s.procs[p].Sweep? && SweepHolds(s, p, s.procs[p], id)
    ensures p in s'.procs && s'.procs[p].Sweep? && SweepHolds(s', p, s'.procs[p], id)
  {
    hide Inv, Grows, NoneWoken, SweepHolds, List, ListFail, ReadMeta, FinishScan, Select, Spare, FinishCompare,
         SpawnKill, FinishSweep;
    hide CreateRecord, Transaction, Register, Clash, Reject, Image, CreateContainer, CreateFail, StartContainer,
         StartFail, Inspect, Succeed, RollBack, FinishRollback, Probe, Write, Overwrite, WriteFail, StopRunning,
         StopNothing, FinishKill, Tick, Begin;
    SweepStep(s, s', step, p);
    match step
    case ListStep(_, listing) =>
      assert Stores(s) by { StoresOf(s); }
      hide Stores;
      SweepListed(s, s', p, listing, id);
    case ListFailStep(_) => SweepUnlisted(s, s', p, id);
    case ReadMetaStep(_, key, out) => SweepReads(s, s', p, key, out, id);
    case FinishScanStep(_) => SweepScanned(s, s', p, id);
    case SelectStep(_, key) => SweepSelects(s, s', p, key, id);
    case SpareStep(_, key) => SweepSpares(s, s', p, key, id);
    case FinishCompareStep(_) => SweepCompared(s, s', p, id);
    case SpawnKillStep(_, key, child) => SweepSpawns(s, s', p, key, child, id);
    case FinishSweepStep(_) => SweepEnds(s, s', p, id);
  }

  /** Nobody has selected anything before he has begun. */
  lemma UnbornSelectsNothing(s: State, p: nat, id: string)
    requires Inv(s) && (p !in s.procs || ScanOf(s.procs[p]) == Some(Listing))
    ensures !WasSelected(s.log, p, id)
  {
    hide Inv;
    forall m | 0 <= m < |s.log| && s.log[m].Selected?
      ensures s.log[m].p in s.procs && ScanOf(s.procs[s.log[m].p]) != Some(Listing)
    {
      SelectorHasRead(s, m);
    }
  }

  lemma SelectorHasRead(s: State, m: nat)
    requires Inv(s) && m < |s.log| && s.log[m].Selected?
    ensures s.log[m].p in s.procs && ScanOf(s.procs[s.log[m].p]) != Some(Listing)
  {
    hide Inv, Causal, Records;
    var j := ReadOf(s, m);
    ParticularsOf(s);
  }

  lemma {:induction false} SweepHoldsFrom(ss: seq<State>, i: nat, j: nat, p: nat, id: string)
    requires Run(ss) && i <= j < |ss| && NotYet(ss[i], p) && !ss[j].clashed && Quiet(ss[i], id)
    requires p in ss[j].procs && ss[j].procs[p].Sweep?
    ensures SweepHolds(ss[j], p, ss[j].procs[p], id)
    decreases j
  {
    hide Run, Quiet, Inv, Does, Grows, WasSelected, Aimed, KillHolds;
    if i == j {
      RunInv(ss, j);
      UnbornSelectsNothing(ss[j], p, id);
    } else {
      var step := StepOf(ss, j);
      var s, s' := ss[j - 1], ss[j];
      if p in s.procs {
        SameKind(s, s', p);
        SweepHoldsFrom(ss, i, j - 1, p, id);
        StaysQuiet(ss, i, j - 1, id);
        QuietWakesNone(s, s', step, id);
        hide SweepHolds, NoneWoken;
        if Actor(step) == Some(p) {
          SweepHoldsByOwnStep(s, s', step, p, id);
        } else {
          OthersStay(s, s', step, p);
          SweepHoldsWhileOthersAct(s, s', step, p, id);
        }
      } else {
        Newborn(s, s', step, p);
        UnbornSelectsNothing(s', p, id);
      }
    }
  }

  /** A sweep that reports success has killed what it was aimed at: of every cluster that the reaper selected, or
      that the caller of killAllClusters may see, none runs, if no allocation was building it any more when the
      sweep listed the containers. */
  lemma SweptIsGone(ss: seq<State>, i: nat, j: nat, p: nat, id: string)
    requires Run(ss) && i <= j < |ss| && NotYet(ss[i], p) && !ss[j].clashed && Quiet(ss[i], id)
    requires p in ss[j].procs && ss[j].procs[p].Sweep? && ss[j].procs[p].sweep == SweepDone(true)
    requires Aimed(ss[j], p, ss[j].procs[p], id)
    ensures RunningFor(ss[j], id) == {}
  {
    SweepHoldsFrom(ss, i, j, p, id);
  }

  /** So when an administrator's killAllClusters reports success, nothing runs of any cluster that was complete
      when it began. */
  lemma KillAllLeavesNothing(ss: seq<State>, i: nat, j: nat, p: nat)
    requires Run(ss) && i <= j < |ss| && NotYet(ss[i], p) && !ss[j].clashed
    requires p in ss[j].procs && ss[j].procs[p].Sweep? && ss[j].procs[p].sweep == SweepDone(true)
    requires !ss[j].procs[p].reaping && ss[j].procs[p].ctx.ignoreOwnership
    ensures forall id :: Quiet(ss[i], id) && id != "" ==> RunningFor(ss[j], id) == {}
  {
    hide Run, Quiet, RunningFor;
    forall id | Quiet(ss[i], id) && id != "" ensures RunningFor(ss[j], id) == {} {
      SweptIsGone(ss, i, j, p, id);
    }
  }
}
