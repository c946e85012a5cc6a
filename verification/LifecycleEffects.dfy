/** What every step of the lifecycle leaves alone, whichever call takes it. */
module LifecycleEffects {
  import opened Basics
  import opened Leases
  import opened Clusters
  import opened Lifecycle
  import opened LifecycleInvariants
  import opened LifecycleTheorems

  // ---------- Who acts ----------

  /** What kind of call a step belongs to. */
  datatype Kind = Time | Any | OfAllocation | OfEnding | OfCreate | OfStart | OfRefresh | OfKill | OfSweep

  function KindOf(step: Step): Kind {
    match step
    case TickStep(_) => Time
    case BeginStep(_, _) => Any
    case ListStep(_, _) => Any
    case ListFailStep(_) => Any
    case ReadMetaStep(_, _, _) => Any
    case FinishScanStep(_) => Any
    case RegisterStep(_) => OfAllocation
    case ClashStep(_) => OfAllocation
    case RejectStep(_) => OfAllocation
    case ImageStep(_, _) => OfAllocation
    case SucceedStep(_) => OfEnding
    case RollBackStep(_, _) => OfEnding
    case FinishRollbackStep(_) => OfEnding
    case CreateContainerStep(_, _, _) => OfCreate
    case CreateFailStep(_, _) => OfCreate
    case StartContainerStep(_, _) => OfStart
    case StartFailStep(_, _) => OfStart
    case InspectStep(_, _, _) => OfStart
    case ProbeStep(_, _) => OfRefresh
    case WriteStep(_) => OfRefresh
    case OverwriteStep(_) => OfRefresh
    case WriteFailStep(_) => OfRefresh
    case StopRunningStep(_, _, _) => OfKill
    case StopNothingStep(_, _, _) => OfKill
    case FinishKillStep(_) => OfKill
    case SelectStep(_, _) => OfSweep
    case SpareStep(_, _) => OfSweep
    case FinishCompareStep(_) => OfSweep
    case SpawnKillStep(_, _, _) => OfSweep
    case FinishSweepStep(_) => OfSweep
  }

  /** The call that takes a step; time passes by itself. */
  function Actor(step: Step): Option<nat> {
    if step.TickStep? then None else Some(step.p)
  }

  predicate Suits(kind: Kind, proc: Proc) {
    match kind
    case OfAllocation => proc.Allocation?
    case OfEnding => proc.Allocation?
    case OfCreate => proc.Allocation?
    case OfStart => proc.Allocation?
    case OfRefresh => proc.Refresh?
    case OfKill => proc.Kill?
    case OfSweep => proc.Sweep?
    case _ => true
  }

  /** The image or the containers of the cluster are being made. */
  predicate Builds(proc: Proc) { proc.Allocation? && (proc.alloc.Imaging? || proc.alloc.FanOut?) }

  ghost predicate WakesNone(s: State, s': State) {
    forall k <- s'.containers :: IsRunning(s', k) ==> k in s.containers && s'.containers[k] == s.containers[k]
  }

  /** What any step leaves alone: the other calls, the log but for an event of its own, and who builds what. */
  ghost predicate Effect(s: State, s': State, step: Step) {
    && (forall q <- s.procs :: q in s'.procs && (Actor(step) == Some(q) || s'.procs[q] == s.procs[q]))
    && (forall q <- s'.procs :: q !in s.procs ==>
          (s'.procs[q].Allocation? && Fresh(s'.procs[q], s.clock)) || ScanOf(s'.procs[q]) == Some(Listing))
    && LogGrows(s, s')
    && (|s'.log| > |s.log| ==> Actor(step) == Some(s'.log[|s.log|].p) && s'.log[|s.log|].p in s.procs)
    && s.clock <= s'.clock && (step.TickStep? || s'.clock == s.clock)
    && (forall q <- s'.procs :: Builds(s'.procs[q]) ==>
          (q in s.procs && Builds(s.procs[q]) && s.procs[q].id == s'.procs[q].id)
          || s'.procs[q].id !in s.meta || s'.clashed)
    && (Actor(step).Some? && Actor(step).value in s.procs ==> Suits(KindOf(step), s.procs[Actor(step).value]))
    && (step.BeginStep? ==> step.p !in s.procs)
    && (!step.StartContainerStep? ==> WakesNone(s, s'))
  }

  lemma TimeEffect(s: State, s': State, step: Step)
    requires Does(s, s', step) && KindOf(step).Time?
    ensures Effect(s, s', step)
  {}

  lemma AnyEffect(s: State, s': State, step: Step)
    requires Does(s, s', step) && KindOf(step).Any?
    ensures Effect(s, s', step)
  {
    hide Enumerates, Visible, DecideKill, Ids, ViewOf;
  }

  lemma AllocationEffect(s: State, s': State, step: Step)
    requires Does(s, s', step) && KindOf(step).OfAllocation?
    ensures Effect(s, s', step)
  {}

  lemma EndingEffect(s: State, s': State, step: Step)
    requires Does(s, s', step) && KindOf(step).OfEnding?
    ensures Effect(s, s', step)
  {}

  lemma CreateEffect(s: State, s': State, step: Step)
    requires Does(s, s', step) && KindOf(step).OfCreate?
    ensures Effect(s, s', step)
  {}

  lemma StartEffect(s: State, s': State, step: Step)
    requires Does(s, s', step) && KindOf(step).OfStart?
    ensures Effect(s, s', step)
  {}

  lemma RefreshEffect(s: State, s': State, step: Step)
    requires Does(s, s', step) && KindOf(step).OfRefresh?
    ensures Effect(s, s', step)
  {}

  lemma KillEffect(s: State, s': State, step: Step)
    requires Does(s, s', step) && KindOf(step).OfKill?
    ensures Effect(s, s', step)
  {}

  lemma SweepEffect(s: State, s': State, step: Step)
    requires Does(s, s', step) && KindOf(step).OfSweep?
    ensures Effect(s, s', step)
  {}

  lemma StepEffect(s: State, s': State, step: Step)
    requires Does(s, s', step)
    ensures Effect(s, s', step)
  {
    hide Does, Effect;
    match KindOf(step)
    case Time => TimeEffect(s, s', step);
    case Any => AnyEffect(s, s', step);
    case OfAllocation => AllocationEffect(s, s', step);
    case OfEnding => EndingEffect(s, s', step);
    case OfCreate => CreateEffect(s, s', step);
    case OfStart => StartEffect(s, s', step);
    case OfRefresh => RefreshEffect(s, s', step);
    case OfKill => KillEffect(s, s', step);
    case OfSweep => SweepEffect(s, s', step);
  }

  lemma OthersStay(s: State, s': State, step: Step, p: nat)
    requires Does(s, s', step) && p in s.procs && Actor(step) != Some(p)
    ensures p in s'.procs && s'.procs[p] == s.procs[p]
  {
    hide Does, WakesNone;
    StepEffect(s, s', step);
  }

  lemma OthersAreSilent(s: State, s': State, step: Step, p: nat)
    requires Does(s, s', step) && Actor(step) != Some(p)
    ensures |s'.log| > |s.log| ==> s'.log[|s.log|].p != p
  {
    hide Does, WakesNone;
    StepEffect(s, s', step);
  }

  /** A new kill has not listed anything yet, nor has a new sweep or refresh. */
  lemma Newborn(s: State, s': State, step: Step, p: nat)
    requires Does(s, s', step) && p !in s.procs && p in s'.procs
    ensures s'.procs[p].Kill? ==> s'.procs[p].kill == KillScan(Listing)
    ensures s'.procs[p].Sweep? ==> s'.procs[p].sweep == SweepScan(Listing)
    ensures s'.procs[p].Refresh? ==> s'.procs[p].refresh == RefreshScan(Listing)
    ensures s'.procs[p].Allocation? ==> Fresh(s'.procs[p], s.clock)
  {
    hide Does, WakesNone;
    StepEffect(s, s', step);
  }

  lemma ClockAdvances(s: State, s': State, step: Step)
    requires Does(s, s', step)
    ensures s.clock <= s'.clock && LogGrows(s, s')
  {
    hide Does, WakesNone;
    StepEffect(s, s', step);
  }

  /** A step from one state of a run to the next. */
  lemma StepOf(ss: seq<State>, j: nat) returns (step: Step)
    requires Run(ss) && 0 < j < |ss|
    ensures Inv(ss[j - 1]) && Inv(ss[j]) && Grows(ss[j - 1], ss[j]) && Does(ss[j - 1], ss[j], step)
  {
    hide Inv, Grows, Does;
    RunInv(ss, j - 1);
    RunInv(ss, j);
    RunGrows(ss, j);
    assert Next(ss[j - 1], ss[(j - 1) + 1]);
    step :| Does(ss[j - 1], ss[j], step);
  }

  lemma SameKind(s: State, s': State, p: nat)
    requires Grows(s, s') && p in s.procs
    ensures p in s'.procs && SameIdentity(s.procs[p], s'.procs[p]) && (s.clashed ==> s'.clashed)
  {}

  lemma {:induction false} ClockNeverGoesBack(ss: seq<State>, i: nat, j: nat)
    requires Run(ss) && i <= j < |ss|
    ensures ss[i].clock <= ss[j].clock
    decreases j
  {
    hide Run, Inv, Does, Grows;
    if i < j {
      ClockNeverGoesBack(ss, i, j - 1);
      var step := StepOf(ss, j);
      ClockAdvances(ss[j - 1], ss[j], step);
    }
  }

  /** The step that logged an event: it led from state m to the next. */
  lemma {:induction false} LoggedAt(ss: seq<State>, n: nat, k: nat) returns (m: nat, step: Step)
    requires Run(ss) && n < |ss| && k < |ss[n].log|
    ensures m + 1 <= n && |ss[m].log| == k && Does(ss[m], ss[m + 1], step)
    ensures ss[m + 1].log == ss[m].log + [ss[n].log[k]] && ss[m].log == ss[n].log[..k]
    decreases n
  {
    hide Run, Inv, Does, Grows;
    if n == 0 {
      BeginsSilent(ss);
      assert false;
    } else {
      step := StepOf(ss, n);
      ClockAdvances(ss[n - 1], ss[n], step);
      if k < |ss[n - 1].log| {
        m, step := LoggedAt(ss, n - 1, k);
      } else {
        m := n - 1;
      }
    }
  }

  lemma BeginsSilent(ss: seq<State>)
    requires Run(ss)
    ensures ss[0].log == []
  {}
}
