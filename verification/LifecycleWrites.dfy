/** Who writes records, and with which lease (daemon/clusters.go:146-172, :262-289). */
module LifecycleWrites {
  import opened Basics
  import opened Leases
  import opened Clusters
  import opened Lifecycle
  import opened LifecycleInvariants
  import opened LifecycleSteps
  import opened LifecycleTheorems
  import opened LifecycleEffects

  // ---------- The step that writes ----------

  /** Only allocations and refreshes write. */
  lemma WriterStep(s: State, s': State, step: Step)
    requires Does(s, s', step) && |s'.log| > |s.log| && s'.log[|s.log|].Wrote?
    ensures step.RegisterStep? || step.ClashStep? || step.WriteStep? || step.OverwriteStep?
  {
    hide CreateRecord, Transaction, AfterScan, WithScan, AfterListFailure, Enumerates;
  }

  /** Going on from the table that the write meets, what a refresh with this deadline writes. */
  predicate RefreshLease(before: Table, id: string, user: string, deadline: int, lease: Lease, blind: bool) {
    && id in before && lease.owner == user
    && var asked := Truncate(deadline);
       lease.timeout == if blind || before[id].timeout <= asked then asked else before[id].timeout
  }

  lemma WritesLater(table: Table, id: string, user: string, deadline: int, after: Table)
    requires WholeSeconds(table) && RefreshRecord(table, id, user, deadline) == Ok(after)
    ensures after == table[id := after[id]] && RefreshLease(table, id, user, deadline, after[id], false)
  {
    var kept := table[id].timeout;
    if kept < deadline {
      TruncateMonotone(kept, deadline);
    } else {
      assert Truncate(kept) == kept && Truncate(deadline) <= deadline;
    }
  }

  lemma RefreshWrote(s: State, s': State, step: Step)
    requires Inv(s) && Does(s, s', step) && (step.WriteStep? || step.OverwriteStep?)
    ensures step.p in s.procs && IsWriting(s, step.p) && |s'.log| == |s.log| + 1 && s'.log[|s.log|].Wrote?
    ensures var e, proc := s'.log[|s.log|], s.procs[step.p];
            && e.p == step.p && e.id == proc.id
            && RefreshLease(s.meta, e.id, proc.ctx.user, proc.refresh.deadline, e.lease, e.blind)
  {
    hide Inv;
    var p := step.p;
    RefreshIsRegistered(s, p);
    if step.WriteStep? {
      StoresOf(s);
      WholeSecondsOf(s);
      WritesLater(s.meta, s.procs[p].id, s.procs[p].ctx.user, s.procs[p].refresh.deadline, s'.meta);
    }
  }

  lemma RefreshIsRegistered(s: State, p: nat)
    requires Inv(s) && IsWriting(s, p)
    ensures s.procs[p].id in s.meta
  {
    hide Inv;
    Local(s, p);
  }

  // ---------- Refreshes ----------

  /** The refresh's own listing shows the cluster to its caller. */
  ghost predicate Grounds(s: State, p: nat, proc: Proc, j: int, listing: seq<Container>) {
    && proc.Refresh? && 0 <= j < |s.log| && s.log[j] == Listed(p, listing)
    && proc.id in Ids(listing) && Visible(proc.ctx, listing, proc.id)
  }

  /** The deadline was set in that state, after the listing. */
  ghost predicate SetAt(s: State, p: nat, proc: Proc, deadline: int) {
    proc.Refresh? && deadline == s.clock + proc.extension && exists j, listing :: Grounds(s, p, proc, j, listing)
  }

  function DeadlineOf(proc: Proc): Option<int> {
    if proc.Refresh? && proc.refresh.Probing? then Some(proc.refresh.deadline)
    else if proc.Refresh? && proc.refresh.Writing? then Some(proc.refresh.deadline)
    else None
  }

  lemma DeadlineKept(s: State, s': State, step: Step, p: nat)
    requires Inv(s) && Does(s, s', step) && Grows(s, s') && p in s'.procs && DeadlineOf(s'.procs[p]).Some?
    ensures p in s.procs
    ensures (DeadlineOf(s.procs[p]) == DeadlineOf(s'.procs[p]) && SameIdentity(s.procs[p], s'.procs[p]))
            || SetAt(s, p, s'.procs[p], DeadlineOf(s'.procs[p]).value)
  {
    hide Inv, Does, Effect, Grows;
    if p !in s.procs {
      BornWithoutDeadline(s, s', step, p);
    } else if Actor(step) != Some(p) {
      OthersStay(s, s', step, p);
    } else {
      SameKind(s, s', p);
      RefreshSteps(s, s', step, p);
      if step.FinishScanStep? {
        DeadlineScanned(s, s', step);
      } else {
        DeadlineProbed(s, s', step);
      }
    }
  }

  lemma BornWithoutDeadline(s: State, s': State, step: Step, p: nat)
    requires Does(s, s', step) && p !in s.procs && p in s'.procs
    ensures DeadlineOf(s'.procs[p]) == None
  {
    hide Does;
    Newborn(s, s', step, p);
  }

  /** The own steps after which a refresh has a deadline. */
  lemma RefreshSteps(s: State, s': State, step: Step, p: nat)
    requires Does(s, s', step) && Actor(step) == Some(p) && p in s.procs && p in s'.procs
    requires SameIdentity(s.procs[p], s'.procs[p]) && DeadlineOf(s'.procs[p]).Some?
    ensures step.FinishScanStep? || step.ProbeStep?
  {
    hide Does, WakesNone;
    StepEffect(s, s', step);
    if !step.FinishScanStep? && !step.ProbeStep? {
      NoOtherSetsDeadline(s, s', step, p);
    }
  }

  lemma NoOtherSetsDeadline(s: State, s': State, step: Step, p: nat)
    requires Does(s, s', step) && Actor(step) == Some(p) && p in s.procs && p in s'.procs && s.procs[p].Refresh?
    requires (KindOf(step).Any? && !step.BeginStep? && !step.FinishScanStep?)
             || (KindOf(step).OfRefresh? && !step.ProbeStep?)
    ensures DeadlineOf(s'.procs[p]).None?
  {
    hide CreateRecord, Transaction, DecideKill, Enumerates, FinishScan, Begin;
  }

  lemma DeadlineProbed(s: State, s': State, step: Step)
    requires Does(s, s', step) && step.ProbeStep?
    ensures var p := step.p;
            && p in s.procs && p in s'.procs && SameIdentity(s.procs[p], s'.procs[p])
            && DeadlineOf(s'.procs[p]) == DeadlineOf(s.procs[p])
  {}

  lemma DeadlineScanned(s: State, s': State, step: Step)
    requires Inv(s) && Does(s, s', step) && step.FinishScanStep?
    requires step.p in s'.procs && DeadlineOf(s'.procs[step.p]).Some?
    ensures SetAt(s, step.p, s'.procs[step.p], DeadlineOf(s'.procs[step.p]).value)
  {
    hide Inv, FinishScan, SetAt;
    DeadlineSet(s, s', step.p);
  }

  lemma DeadlineSet(s: State, s': State, p: nat)
    requires Inv(s) && FinishScan(s, s', p) && p in s'.procs && DeadlineOf(s'.procs[p]).Some?
    ensures SetAt(s, p, s'.procs[p], DeadlineOf(s'.procs[p]).value)
  {
    hide Inv;
    Local(s, p);
    var listing := ScanOf(s.procs[p]).value.listing;
    var j :| 0 <= j < |s.log| && s.log[j] == Listed(p, listing);
    assert Grounds(s, p, s'.procs[p], j, listing);
  }

  lemma GroundsOfIdentity(s: State, p: nat, a: Proc, b: Proc, deadline: int)
    requires SetAt(s, p, a, deadline) && SameIdentity(a, b)
    ensures SetAt(s, p, b, deadline)
  {
    var j, listing :| Grounds(s, p, a, j, listing);
    assert Grounds(s, p, b, j, listing);
  }

  /** The state in which a refresh's deadline was set. */
  lemma {:induction false} DeadlineFrom(ss: seq<State>, m: nat, p: nat) returns (i: nat)
    requires Run(ss) && m < |ss| && p in ss[m].procs && DeadlineOf(ss[m].procs[p]).Some?
    ensures i <= m && SetAt(ss[i], p, ss[m].procs[p], DeadlineOf(ss[m].procs[p]).value)
    decreases m
  {
    hide Run, Inv, Does, Grows, SetAt;
    if m == 0 {
      BeginsEmpty(ss);
      assert false;
    } else {
      var step := StepOf(ss, m);
      DeadlineKept(ss[m - 1], ss[m], step, p);
      if SetAt(ss[m - 1], p, ss[m].procs[p], DeadlineOf(ss[m].procs[p]).value) {
        i := m - 1;
      } else {
        i := DeadlineFrom(ss, m - 1, p);
        GroundsOfIdentity(ss[i], p, ss[m - 1].procs[p], ss[m].procs[p], DeadlineOf(ss[m].procs[p]).value);
      }
    }
  }

  lemma BeginsEmpty(ss: seq<State>)
    requires Run(ss)
    ensures ss[0].procs == map[]
  {}

  /** Every write by a refresh, in every run: its own earlier listing shows the cluster to its caller, as one of
      the caller's unless ownership is ignored; the caller becomes the owner; and the lease is the later one of the
      recorded lease and the clock reading, in a state i after that listing, plus the extension asked for, both cut
      down to their seconds; or just the latter if the write was blind. */
  lemma RefreshesAreAuthorised(ss: seq<State>, n: nat, k: nat) returns (i: nat, j: int, listing: seq<Container>)
    requires Run(ss) && n < |ss| && k < |ss[n].log| && ss[n].log[k].Wrote?
    requires ss[n].log[k].p in ss[n].procs && ss[n].procs[ss[n].log[k].p].Refresh?
    ensures var s, e := ss[n], ss[n].log[k];
            var proc := s.procs[e.p];
            && i < n && j < |ss[i].log| <= k
            && Grounds(ss[i], e.p, proc, j, listing) && s.log[j] == Listed(e.p, listing)
            && e.id == proc.id
            && RefreshLease(Replay(s.base, s.log[..k]), e.id, proc.ctx.user, ss[i].clock + proc.extension, e.lease,
                            e.blind)
            && ss[i].clock + proc.extension - NANOS < e.lease.timeout
    ensures var s, e := ss[n], ss[n].log[k];
            !s.procs[e.p].ctx.ignoreOwnership && !s.clashed ==>
              forall c <- s.issued :: s.issued[c].cluster == e.id ==> s.issued[c].creator == s.procs[e.p].ctx.user
  {
    hide Run, Inv, Does, Grows, SetAt, Grounds, RefreshLease, SameIdentity;
    var m, step := LoggedAt(ss, n, k);
    var p := ss[n].log[k].p;
    i, j, listing := WriteGrounds(ss, n, m, step, p, k);
    LogsExtend(ss, i, n);
    GroundsHold(ss[i], ss[n], p, ss[n].procs[p], j, listing);
    RunInv(ss, n);
    OwnedByVisible(ss[n], p, ss[n].procs[p], j, listing);
  }

  lemma WriteGrounds(ss: seq<State>, n: nat, m: nat, step: Step, p: nat, k: nat)
      returns (i: nat, j: int, listing: seq<Container>)
    requires Run(ss) && m + 1 <= n < |ss| && k < |ss[n].log| && ss[n].log[k].Wrote? && ss[n].log[k].p == p
    requires |ss[m].log| == k && Does(ss[m], ss[m + 1], step) && ss[m].log == ss[n].log[..k]
    requires ss[m + 1].log == ss[m].log + [ss[n].log[k]]
    requires p in ss[n].procs && ss[n].procs[p].Refresh?
    ensures i < n && |ss[i].log| <= k && Grounds(ss[i], p, ss[n].procs[p], j, listing)
    ensures var s, e := ss[n], ss[n].log[k];
            var proc := s.procs[p];
            && e.id == proc.id
            && RefreshLease(Replay(s.base, s.log[..k]), e.id, proc.ctx.user, ss[i].clock + proc.extension, e.lease,
                            e.blind)
            && ss[i].clock + proc.extension - NANOS < e.lease.timeout
  {
    hide Run, Inv, Does, Grows, Grounds, RefreshLease, Effect;
    var s := ss[m];
    RunInv(ss, m);
    WriterStep(s, ss[m + 1], step);
    ActorWrites(s, ss[m + 1], step);
    Identity(ss, m, n, p);
    RefreshWrote(s, ss[m + 1], step);
    i := DeadlineFrom(ss, m, p);
    GroundsOfIdentity(ss[i], p, s.procs[p], ss[n].procs[p], DeadlineOf(s.procs[p]).value);
    j, listing :| Grounds(ss[i], p, ss[n].procs[p], j, listing);
    LogsExtend(ss, i, m);
    RecordsOf(s);
    LogsExtend(ss, m, n);
    assert ss[n].base == s.base;
    LeaseIsLate(s.meta, ss[n].log[k].id, ss[n].procs[p].ctx.user, ss[i].clock + ss[n].procs[p].extension, ss[n].log[k]);
  }

  lemma LeaseIsLate(before: Table, id: string, user: string, deadline: int, e: Event)
    requires e.Wrote? && RefreshLease(before, id, user, deadline, e.lease, e.blind)
    ensures deadline - NANOS < e.lease.timeout
  {}

  lemma ActorWrites(s: State, s': State, step: Step)
    requires Does(s, s', step) && |s'.log| > |s.log|
    ensures Actor(step) == Some(s'.log[|s.log|].p) && s'.log[|s.log|].p in s.procs
    ensures Suits(KindOf(step), s.procs[s'.log[|s.log|].p])
  {
    hide Does, WakesNone;
    StepEffect(s, s', step);
  }

  lemma {:induction false} Identity(ss: seq<State>, m: nat, n: nat, p: nat)
    requires Run(ss) && m <= n < |ss| && p in ss[m].procs
    ensures p in ss[n].procs && SameIdentity(ss[m].procs[p], ss[n].procs[p])
    decreases n
  {
    hide Run, Grows;
    if m < n {
      Identity(ss, m, n - 1, p);
      RunGrows(ss, n);
      SameKind(ss[n - 1], ss[n], p);
    }
  }

  lemma GroundsHold(s: State, s': State, p: nat, proc: Proc, j: int, listing: seq<Container>)
    requires Grounds(s, p, proc, j, listing) && s.log <= s'.log
    ensures 0 <= j < |s.log| && s'.log[j] == Listed(p, listing) && Grounds(s', p, proc, j, listing)
  {}

  lemma OwnedByVisible(s: State, p: nat, proc: Proc, j: int, listing: seq<Container>)
    requires Inv(s) && Grounds(s, p, proc, j, listing)
    ensures !proc.ctx.ignoreOwnership && !s.clashed ==>
              forall c <- s.issued :: s.issued[c].cluster == proc.id ==> s.issued[c].creator == proc.ctx.user
  {
    ListedIsGenuine(s, j, p, listing);
    hide Allocations, Rollbacks, Scans, ReadOnce, Records, Owners, Causal;
    if !proc.ctx.ignoreOwnership && !s.clashed {
      var c :| c in listing && c.cluster == proc.id && proc.id != "";
      CreatorIsCommonLabel(listing, proc.id, s.issued[c.id].creator);
    }
  }

  lemma ListedIsGenuine(s: State, j: int, p: nat, listing: seq<Container>)
    requires Inv(s) && 0 <= j < |s.log| && s.log[j] == Listed(p, listing)
    ensures Genuine(s, listing)
  {
    hide Stores, Allocations, Rollbacks, Scans, ReadOnce, Records, Owners;
    assert Backed(s, s.log[..j], s.log[j]);
  }

  // ---------- Allocations ----------

  /** The allocation began in that state. */
  ghost predicate BegunAt(s: State, p: nat, proc: Proc) {
    proc.Allocation? && p !in s.procs && proc.deadline == s.clock + HOUR && 1 <= proc.count <= 10 && proc.ctx.user != ""
  }

  lemma DeadlineOfBegun(s: State, p: nat, proc: Proc)
    requires BegunAt(s, p, proc)
    ensures proc.Allocation? && proc.deadline == s.clock + HOUR
  {}

  lemma Begun(s: State, s': State, step: Step, p: nat)
    requires Does(s, s', step) && p !in s.procs && p in s'.procs && s'.procs[p].Allocation?
    ensures BegunAt(s, p, s'.procs[p])
  {
    hide Does;
    Newborn(s, s', step, p);
  }

  lemma {:induction false} BeganAt(ss: seq<State>, n: nat, p: nat) returns (i: nat)
    requires Run(ss) && n < |ss| && p in ss[n].procs && ss[n].procs[p].Allocation?
    ensures i < n && BegunAt(ss[i], p, ss[n].procs[p])
    decreases n
  {
    hide Run, Inv, Does, Grows;
    if n == 0 {
      BeginsEmpty(ss);
      assert false;
    } else {
      var step := StepOf(ss, n);
      if p in ss[n - 1].procs {
        SameKind(ss[n - 1], ss[n], p);
        i := BeganAt(ss, n - 1, p);
      } else {
        Begun(ss[n - 1], ss[n], step, p);
        i := n - 1;
      }
    }
  }

  /** Every write by an allocation, in every run: it gives its own cluster to its caller until an hour after it
      began, whatever timeout was asked for; it is of a new record, or else blind; and the allocation is of one to
      ten containers. */
  lemma AllocationsWriteAnHour(ss: seq<State>, n: nat, k: nat) returns (i: nat)
    requires Run(ss) && n < |ss| && k < |ss[n].log| && ss[n].log[k].Wrote?
    requires ss[n].log[k].p in ss[n].procs && ss[n].procs[ss[n].log[k].p].Allocation?
    ensures var s, e := ss[n], ss[n].log[k];
            var proc := s.procs[e.p];
            && i < n && BegunAt(ss[i], e.p, proc)
            && e.id == proc.id && e.lease == Lease(proc.ctx.user, Truncate(ss[i].clock + HOUR))
            && (e.blind <==> e.id in Replay(s.base, s.log[..k]))
  {
    hide Run, Inv, Does, Grows, Effect, BegunAt, Replay;
    var m, step := LoggedAt(ss, n, k);
    var p := ss[n].log[k].p;
    i := BeganAt(ss, n, p);
    DeadlineOfBegun(ss[i], p, ss[n].procs[p]);
    WriterStep(ss[m], ss[m + 1], step);
    ActorWrites(ss[m], ss[m + 1], step);
    Identity(ss, m, n, p);
    RunInv(ss, m);
    RecordsOf(ss[m]);
    LogsExtend(ss, m, n);
    AllocationWrote(ss[m], ss[m + 1], step);
  }

  lemma AllocationWrote(s: State, s': State, step: Step)
    requires Does(s, s', step) && (step.RegisterStep? || step.ClashStep?)
    ensures step.p in s.procs && s.procs[step.p].Allocation? && |s'.log| == |s.log| + 1 && s'.log[|s.log|].Wrote?
    ensures var e, proc := s'.log[|s.log|], s.procs[step.p];
            && e.p == step.p && e.id == proc.id && e.lease == Lease(proc.ctx.user, Truncate(proc.deadline))
            && (e.blind <==> e.id in s.meta)
  {}
}
