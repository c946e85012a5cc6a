/** That the reaper does take what has expired (daemon/daemon.go:194-229). */
module LifecycleReaping {
  import opened Basics
  import opened Leases
  import opened Clusters
  import opened Lifecycle
  import opened LifecycleInvariants
  import opened LifecycleSteps
  import opened LifecycleTheorems
  import opened LifecycleEffects
  import opened LifecycleKills

  /** This sweep has read the record, and what it read ends before that time. */
  ghost predicate Due(s: State, p: nat, id: string, at: int) {
    exists out :: Read(p, id, out) in s.log && ViewOf(out).timeout < at
  }

  /** A reaper that has read an expired lease has yet to compare it, or has selected the cluster. */
  ghost predicate Follows(s: State, p: nat, proc: Proc, id: string, at: int)
    requires proc.Sweep?
  {
    match proc.sweep
    case SweepScan(_) => true
    case Comparing(_, pending, _) => Due(s, p, id, at) ==> id in pending || WasSelected(s.log, p, id)
    case Killing(_, _) => Due(s, p, id, at) ==> WasSelected(s.log, p, id)
    case SweepDone(_) => Due(s, p, id, at) ==> WasSelected(s.log, p, id)
  }

  /** Reads and selections stay as they are when the sweep logs neither. */
  lemma SameReads(s: State, s': State, p: nat, id: string, at: int)
    requires LogGrows(s, s')
    requires |s'.log| > |s.log| ==> s'.log[|s.log|].p != p || (!s'.log[|s.log|].Read? && !s'.log[|s.log|].Selected?)
    ensures Due(s', p, id, at) <==> Due(s, p, id, at)
    ensures WasSelected(s'.log, p, id) <==> WasSelected(s.log, p, id)
  {
    forall e | e in s.log ensures e in s'.log {}
  }

  lemma FollowsWhileOthersAct(s: State, s': State, step: Step, p: nat, id: string, at: int)
    requires Does(s, s', step) && Actor(step) != Some(p)
    requires p in s.procs && s.procs[p].Sweep? && Follows(s, p, s.procs[p], id, at)
    ensures Follows(s', p, s.procs[p], id, at)
  {
    hide Does, Due, WasSelected;
    OthersAreSilent(s, s', step, p);
    ClockAdvances(s, s', step);
    SameReads(s, s', p, id, at);
  }

  /** Before its listing a sweep has read nothing. */
  lemma NothingRead(s: State, p: nat, id: string)
    requires Inv(s) && (p !in s.procs || ScanOf(s.procs[p]) == Some(Listing))
    ensures forall out :: Read(p, id, out) !in s.log
  {
    ParticularsOf(s);
    hide Inv, Causal, Records;
  }

  lemma OneRead(s: State, p: nat, id: string, a: Outcome, b: Outcome)
    requires Inv(s) && Read(p, id, a) in s.log && Read(p, id, b) in s.log
    ensures a == b
  {
    ParticularsOf(s);
    hide Inv, Causal, Records;
    var i :| 0 <= i < |s.log| && s.log[i] == Read(p, id, a);
    var j :| 0 <= j < |s.log| && s.log[j] == Read(p, id, b);
    assert i == j;
  }

  lemma FollowsUnlisted(s: State, s': State, p: nat, id: string, at: int)
    requires Inv(s) && ListFail(s, s', p) && s.procs[p].Sweep?
    ensures p in s'.procs && s'.procs[p].Sweep? && Follows(s', p, s'.procs[p], id, at)
  {
    NothingRead(s, p, id);
    hide Inv;
  }

  lemma FollowsScanned(s: State, s': State, p: nat, id: string, at: int)
    requires Inv(s) && FinishScan(s, s', p) && s.procs[p].Sweep? && s.procs[p].reaping
    ensures p in s'.procs && s'.procs[p].Sweep? && Follows(s', p, s'.procs[p], id, at)
  {
    ReadsAreHeld(s, p, id);
    hide Inv;
    Local(s, p);
  }

  /** While it reads, a scan holds all that it has read. */
  lemma ReadsAreHeld(s: State, p: nat, id: string)
    requires Inv(s) && IsReading(s, p)
    ensures forall out :: Read(p, id, out) in s.log ==> id in ScanOf(s.procs[p]).value.outs
  {
    ParticularsOf(s);
    hide Inv, Causal, Records;
  }

  lemma FollowsSelected(s: State, s': State, p: nat, key: string, id: string, at: int)
    requires Select(s, s', p, key) && Follows(s, p, s.procs[p], id, at)
    ensures p in s'.procs && s'.procs[p].Sweep? && Follows(s', p, s'.procs[p], id, at)
  {
    var e := s'.log[|s.log|];
    assert e in s'.log;
    forall f | f in s.log ensures f in s'.log {}
    if Due(s', p, id, at) {
      var out :| Read(p, id, out) in s'.log && ViewOf(out).timeout < at;
      assert Read(p, id, out) in s.log;
    }
  }

  lemma FollowsSpared(s: State, s': State, p: nat, key: string, id: string, at: int)
    requires Inv(s) && Spare(s, s', p, key) && at <= s.clock && Follows(s, p, s.procs[p], id, at)
    ensures p in s'.procs && s'.procs[p].Sweep? && Follows(s', p, s'.procs[p], id, at)
  {
    hide Inv;
    Local(s, p);
    if key == id && Due(s, p, id, at) {
      var out :| Read(p, id, out) in s.log && ViewOf(out).timeout < at;
      OneRead(s, p, id, out, s.procs[p].sweep.outs[id]);
      assert false;
    }
  }

  lemma FollowsCompared(s: State, s': State, p: nat, id: string, at: int)
    requires FinishCompare(s, s', p) && Follows(s, p, s.procs[p], id, at)
    ensures p in s'.procs && s'.procs[p].Sweep? && Follows(s', p, s'.procs[p], id, at)
  {}

  lemma FollowsSpawned(s: State, s': State, p: nat, key: string, child: nat, id: string, at: int)
    requires SpawnKill(s, s', p, key, child) && Follows(s, p, s.procs[p], id, at)
    ensures p in s'.procs && s'.procs[p].Sweep? && Follows(s', p, s'.procs[p], id, at)
  {
    SameReads(s, s', p, id, at);
    hide Due, WasSelected;
  }

  lemma FollowsEnded(s: State, s': State, p: nat, id: string, at: int)
    requires FinishSweep(s, s', p) && Follows(s, p, s.procs[p], id, at)
    ensures p in s'.procs && s'.procs[p].Sweep? && Follows(s', p, s'.procs[p], id, at)
  {}

  lemma FollowsByOwnStep(s: State, s': State, step: Step, p: nat, id: string, at: int)
    requires Inv(s) && Does(s, s', step) && Actor(step) == Some(p) && at <= s.clock
    requires p in s.procs && s.procs[p].Sweep? && s.procs[p].reaping && Follows(s, p, s.procs[p], id, at)
    ensures p in s'.procs && s'.procs[p].Sweep? && Follows(s', p, s'.procs[p], id, at)
  {
    hide Inv, Due, WasSelected, FinishScan, Select, Spare, FinishCompare, SpawnKill, FinishSweep, ListFail;
    hide CreateRecord, Transaction, Register, Clash, Reject, Image, CreateContainer, CreateFail, StartContainer,
         StartFail, Inspect, Succeed, RollBack, FinishRollback, Probe, Write, Overwrite, WriteFail, StopRunning,
         StopNothing, FinishKill, Tick, Begin;
    SweepStep(s, s', step, p);
    match step
    case ListStep(_, listing) =>
    case ListFailStep(_) => FollowsUnlisted(s, s', p, id, at);
    case ReadMetaStep(_, key, out) =>
    case FinishScanStep(_) => FollowsScanned(s, s', p, id, at);
    case SelectStep(_, key) => FollowsSelected(s, s', p, key, id, at);
    case SpareStep(_, key) => FollowsSpared(s, s', p, key, id, at);
    case FinishCompareStep(_) => FollowsCompared(s, s', p, id, at);
    case SpawnKillStep(_, key, child) => FollowsSpawned(s, s', p, key, child, id, at);
    case FinishSweepStep(_) => FollowsEnded(s, s', p, id, at);
  }

  lemma {:induction false} FollowsFrom(ss: seq<State>, i: nat, j: nat, p: nat, id: string)
    requires Run(ss) && i <= j < |ss| && NotYet(ss[i], p)
    requires p in ss[j].procs && ss[j].procs[p].Sweep? && ss[j].procs[p].reaping
    ensures Follows(ss[j], p, ss[j].procs[p], id, ss[i].clock)
    decreases j
  {
    hide Run, Inv, Does, Grows, Due, WasSelected;
    if i < j {
      var step := StepOf(ss, j);
      var s, s' := ss[j - 1], ss[j];
      if p in s.procs {
        SameKind(s, s', p);
        FollowsFrom(ss, i, j - 1, p, id);
        ClockNeverGoesBack(ss, i, j - 1);
        hide Follows;
        if Actor(step) == Some(p) {
          FollowsByOwnStep(s, s', step, p, id, ss[i].clock);
        } else {
          OthersStay(s, s', step, p);
          FollowsWhileOthersAct(s, s', step, p, id, ss[i].clock);
        }
      } else {
        Newborn(s, s', step, p);
      }
    }
  }

  /** Once a reaper is past its comparing, it has selected every cluster whose record it has read to end before
      the time at which it began, and, when it reports success, nothing of it runs, if no allocation was building
      the cluster when the reaper listed the containers. */
  lemma ExpiredIsSelected(ss: seq<State>, i: nat, j: nat, p: nat, id: string, out: Outcome)
    requires Run(ss) && i <= j < |ss| && NotYet(ss[i], p)
    requires p in ss[j].procs && ss[j].procs[p].Sweep? && ss[j].procs[p].reaping
    requires Read(p, id, out) in ss[j].log && ViewOf(out).timeout < ss[i].clock
    requires ss[j].procs[p].sweep.Killing? || ss[j].procs[p].sweep.SweepDone?
    ensures WasSelected(ss[j].log, p, id)
    ensures ss[j].procs[p].sweep == SweepDone(true) && !ss[j].clashed && Quiet(ss[i], id) ==>
              RunningFor(ss[j], id) == {}
  {
    FollowsFrom(ss, i, j, p, id);
    assert Due(ss[j], p, id, ss[i].clock);
    hide Run, Due, Quiet, WasSelected, RunningFor;
    if ss[j].procs[p].sweep == SweepDone(true) && !ss[j].clashed && Quiet(ss[i], id) {
      assert Aimed(ss[j], p, ss[j].procs[p], id);
      SweptIsGone(ss, i, j, p, id);
    }
  }

  // ---------- Clusters that the reaper has not read ----------

  ghost predicate HasRead(s: State, p: nat, id: string) { exists out :: Read(p, id, out) in s.log }

  /** What a reaper has not read by the end of its scan was not there to be listed. */
  ghost predicate Misses(s: State, p: nat, proc: Proc, id: string)
    requires proc.Sweep?
  {
    match proc.sweep
    case SweepScan(Listing) => true
    case SweepScan(Reading(listing, _)) => ListsAll(s, listing, id)
    case Comparing(_, _, _) => HasRead(s, p, id) || Gone(s, id)
    case Killing(_, _) => HasRead(s, p, id) || Gone(s, id)
    case SweepDone(ok) => ok ==> HasRead(s, p, id) || Gone(s, id)
  }

  lemma ReadStays(s: State, s': State, p: nat, id: string)
    requires LogGrows(s, s') && HasRead(s, p, id)
    ensures HasRead(s', p, id)
  {
    var out :| Read(p, id, out) in s.log;
    assert Read(p, id, out) in s'.log;
  }

  lemma MissesUntouched(s: State, s': State, p: nat, proc: Proc, id: string)
    requires proc.Sweep? && LogGrows(s, s') && NoneWoken(s, s', id) && Misses(s, p, proc, id)
    ensures Misses(s', p, proc, id)
  {
    hide LogGrows, NoneWoken, HasRead, Gone, ListsAll;
    if HasRead(s, p, id) {
      ReadStays(s, s', p, id);
    }
    GoneStays(s, s', id);
    if ScanOf(proc).Some? && ScanOf(proc).value.Reading? {
      ListsAllStays(s, s', ScanOf(proc).value.listing, id);
    }
  }

  lemma MissesScanned(s: State, s': State, p: nat, id: string)
    requires Inv(s) && FinishScan(s, s', p) && s.procs[p].Sweep? && id != "" && Misses(s, p, s.procs[p], id)
    ensures HasRead(s', p, id) || Gone(s', id)
  {
    hide Inv;
    Local(s, p);
    var outs := ScanOf(s.procs[p]).value.outs;
    if id in Ids(ScanOf(s.procs[p]).value.listing) {
      assert Read(p, id, outs[id]) in s'.log;
    }
  }

  lemma MissesByOwnStep(s: State, s': State, step: Step, p: nat, id: string)
    requires Inv(s) && Does(s, s', step) && Actor(step) == Some(p) && NoneWoken(s, s', id) && id != ""
    requires p in s.procs && s.procs[p].Sweep? && s.procs[p].reaping && Misses(s, p, s.procs[p], id)
    ensures p in s'.procs && s'.procs[p].Sweep? && Misses(s', p, s'.procs[p], id)
  {
    hide Inv, NoneWoken, HasRead, Gone, ListsAll, List, FinishScan;
    hide CreateRecord, Transaction, Register, Clash, Reject, Image, CreateContainer, CreateFail, StartContainer,
         StartFail, Inspect, Succeed, RollBack, FinishRollback, Probe, Write, Overwrite, WriteFail, StopRunning,
         StopNothing, FinishKill, Tick, Begin;
    SweepStep(s, s', step, p);
    ClockAdvances(s, s', step);
    MissesUntouched(s, s', p, s.procs[p], id);
    match step
    case ListStep(_, listing) =>
      assert Stores(s) by { StoresOf(s); }
      hide Stores;
      MissesListed(s, s', p, listing, id);
    case FinishScanStep(_) =>
      MissesScanned(s, s', p, id);
      ScanLeads(s, s', p);
    case _ =>
  }

  lemma MissesListed(s: State, s': State, p: nat, listing: seq<Container>, id: string)
    requires Stores(s) && List(s, s', p, listing) && s.procs[p].Sweep?
    ensures p in s'.procs && s'.procs[p].Sweep? && Misses(s', p, s'.procs[p], id)
  {
    ListingListsAll(s, listing, id);
  }

  lemma ScanLeads(s: State, s': State, p: nat)
    requires FinishScan(s, s', p) && s.procs[p].Sweep? && s.procs[p].reaping
    ensures p in s'.procs && s'.procs[p].Sweep? && s'.procs[p].sweep.Comparing?
  {}

  lemma {:induction false} MissesFrom(ss: seq<State>, i: nat, j: nat, p: nat, id: string)
    requires Run(ss) && i <= j < |ss| && NotYet(ss[i], p) && Quiet(ss[i], id) && !ss[j].clashed && id != ""
    requires p in ss[j].procs && ss[j].procs[p].Sweep? && ss[j].procs[p].reaping
    ensures Misses(ss[j], p, ss[j].procs[p], id)
    decreases j
  {
    hide Run, Inv, Does, Grows, Quiet, HasRead, Gone, ListsAll, NoneWoken;
    if i < j {
      var step := StepOf(ss, j);
      var s, s' := ss[j - 1], ss[j];
      if p in s.procs {
        SameKind(s, s', p);
        MissesFrom(ss, i, j - 1, p, id);
        StaysQuiet(ss, i, j - 1, id);
        QuietWakesNone(s, s', step, id);
        hide Misses;
        if Actor(step) == Some(p) {
          MissesByOwnStep(s, s', step, p, id);
        } else {
          OthersStay(s, s', step, p);
          ClockAdvances(s, s', step);
          MissesUntouched(s, s', p, s.procs[p], id);
        }
      } else {
        Newborn(s, s', step, p);
      }
    }
  }

  /** A read after state i of a record that nobody has written since, unless it fails, ends as the record does. */
  lemma ReadsTheRecord(ss: seq<State>, i: nat, j: nat, p: nat, id: string, out: Outcome)
    requires Run(ss) && i <= j < |ss| && NotYet(ss[i], p) && id in ss[i].meta && Read(p, id, out) in ss[j].log
    requires p in ss[i].procs ==> ss[i].procs[p].Sweep?
    requires forall k :: |ss[i].log| <= k < |ss[j].log| ==> !WritesTo(ss[j].log[k], id)
    ensures out.Found? ==> out.lease == ss[i].meta[id]
  {
    hide Run, Inv, Records;
    RunInv(ss, i);
    RunInv(ss, j);
    LogsExtend(ss, i, j);
    RecordsOf(ss[i]);
    RecordsOf(ss[j]);
    NothingRead(ss[i], p, id);
    var k: nat :| k < |ss[j].log| && ss[j].log[k] == Read(p, id, out);
    assert k >= |ss[i].log|;
    if out.Found? {
      FoundIsThere(ss[j], k);
      assert ss[j].log[..|ss[i].log|] == ss[i].log && ss[i].log[..|ss[i].log|] == ss[i].log;
      Untouched(ss[j].base, ss[j].log, |ss[i].log|, k, id);
    }
  }

  /** A cluster whose lease has ended when a reaper begins, which nobody is building then and whose record nobody
      writes meanwhile: if the reaper's own read of the record does not fail and the reaper reports success,
      nothing of the cluster runs. */
  lemma ExpiredClusterIsReaped(ss: seq<State>, i: nat, j: nat, p: nat, id: string)
    requires Run(ss) && i <= j < |ss| && NotYet(ss[i], p) && Quiet(ss[i], id) && !ss[j].clashed && id != ""
    requires p in ss[i].procs ==> ss[i].procs[p].Sweep?
    requires p in ss[j].procs && ss[j].procs[p].Sweep? && ss[j].procs[p].reaping
    requires ss[j].procs[p].sweep == SweepDone(true)
    requires id in ss[i].meta && ss[i].meta[id].timeout < ss[i].clock && ZERO_TIME < ss[i].clock
    requires forall k :: |ss[i].log| <= k < |ss[j].log| ==> !WritesTo(ss[j].log[k], id)
    requires Read(p, id, Failed) !in ss[j].log
    ensures RunningFor(ss[j], id) == {}
  {
    hide Run, Quiet, NotYet, WritesTo;
    MissesFrom(ss, i, j, p, id);
    if HasRead(ss[j], p, id) {
      var out :| Read(p, id, out) in ss[j].log;
      ReadsTheRecord(ss, i, j, p, id, out);
      ExpiredIsSelected(ss, i, j, p, id, out);
    }
  }
}
