/** Every step of the lifecycle keeps the invariants. */
module LifecycleSteps {
  import opened Basics
  import opened Leases
  import opened Clusters
  import opened Lifecycle
  import opened LifecycleInvariants

  // ---------- Steps that change one process only ----------

  /** What the invariants say about one process. */
  lemma Local(s: State, p: nat)
    requires Inv(s) && p in s.procs
    ensures ScanOk(s, p, s.procs[p])
    ensures s.procs[p].Allocation? ==> WorkersOk(s, s.procs[p])
    ensures forall q <- s.procs :: IsRollbackOf(s.procs[q], p) ==>
              KillFor(s.procs[q], q, s.procs[p]) && RollbackOk(s, s.procs[p])
    ensures HasFailed(s.procs[p]) ==>
              var k := s.procs[p].alloc.kill;
              && k in s.procs && KillFor(s.procs[p], p, s.procs[k]) && RollbackOk(s, s.procs[k])
              && (s.procs[p].alloc.RolledBack? ==> s.procs[k].kill.KillDone?)
  {}

  /** An event that only says what a call was told. */
  predicate IsAnswer(e: Event) { e.Probed? || e.Imaged? || e.Worked? || e.Missed? }

  lemma Internal(s: State, s': State, p: nat)
    requires Inv(s) && p in s.procs && p in s'.procs
    requires s' == s.(procs := s.procs[p := s'.procs[p]], log := s'.log)
    requires LogGrows(s, s') && (|s'.log| > |s.log| ==> IsAnswer(s'.log[|s.log|]))
    requires SameIdentity(s.procs[p], s'.procs[p])
    requires ScanOk(s', p, s'.procs[p])
    requires s'.procs[p].Allocation? ==> WorkersOk(s', s'.procs[p])
    requires Registered(s'.procs[p]) ==> Registered(s.procs[p])
    requires StillRolling(s, s', p) && RollsProperly(s, s', p)
    requires ScanOf(s'.procs[p]).None?
    ensures Inv(s') && Grows(s, s')
  {
    hide Stores, Allocations, Rollbacks, Scans, Causal, ReadOnce, Records, Owners, ScanOk, WorkersOk, RollbackOk;
    assert Grows(s, s') by {
      assert forall q <- s.procs :: SameIdentity(s.procs[q], s'.procs[q]);
    }
    assert IssuedBy(s, s', p);
    StoresFrame(s, s');
    ScansFrame(s, s', p);
    AllocationsFrame(s, s', p);
    OwnersFrame(s, s', p);
    CausalFrame(s, s');
    ReadOnceFrame(s, s', p);
    RecordsFrame(s, s');
    assert Rollbacks(s') by {
      hide Grows;
      RollbacksFrame(s, s', p);
    }
  }

  lemma TickKeeps(s: State, s': State, now: int)
    requires Inv(s) && Tick(s, s', now)
    ensures Inv(s') && Grows(s, s')
  {
    hide Stores, Allocations, Rollbacks, Scans, Causal, ReadOnce, Records, Owners;
    assert Grows(s, s') by {
      assert forall q <- s.procs :: SameIdentity(s.procs[q], s'.procs[q]);
    }
    StoresFrame(s, s');
    CausalFrame(s, s');
    RecordsFrame(s, s');
    TickFrame(s, s');
  }

  lemma TickFrame(s: State, s': State)
    requires Grows(s, s') && s' == s.(clock := s'.clock)
    ensures Allocations(s) ==> Allocations(s')
    ensures Scans(s) ==> Scans(s')
    ensures Rollbacks(s) ==> Rollbacks(s')
    ensures Owners(s) ==> Owners(s')
    ensures ReadOnce(s) ==> ReadOnce(s')
  {
    hide Scans, ScanOk;
    if Allocations(s) {
      hide Rollbacks, Owners, ReadOnce;
      forall p | p in s.procs && s.procs[p].Allocation? ensures WorkersOk(s', s.procs[p]) {
        WorkersOkGrows(s, s', s.procs[p]);
      }
    }
    TickScans(s, s');
    hide Grows, Allocations, WorkersOk;
  }

  lemma TickScans(s: State, s': State)
    requires Grows(s, s') && s' == s.(clock := s'.clock)
    ensures Scans(s) ==> Scans(s')
  {
    if Scans(s) {
      hide ScanOk;
      forall p | p in s.procs ensures ScanOk(s', p, s.procs[p]) {
        ScanOkGrows(s, s', p, s.procs[p]);
      }
    }
  }

  lemma ListFailKeeps(s: State, s': State, p: nat)
    requires Inv(s) && ListFail(s, s', p)
    ensures Inv(s') && Grows(s, s')
  {
    hide Inv;
    Local(s, p);
    Internal(s, s', p);
  }

  lemma RejectKeeps(s: State, s': State, p: nat)
    requires Inv(s) && Reject(s, s', p)
    ensures Inv(s') && Grows(s, s')
  {
    hide Inv;
    Local(s, p);
    Internal(s, s', p);
  }

  lemma ImageKeeps(s: State, s': State, p: nat, ok: bool)
    requires Inv(s) && Image(s, s', p, ok)
    ensures Inv(s') && Grows(s, s')
  {
    hide Inv;
    Local(s, p);
    Internal(s, s', p);
  }

  lemma CreateFailKeeps(s: State, s': State, p: nat, w: nat)
    requires Inv(s) && CreateFail(s, s', p, w)
    ensures Inv(s') && Grows(s, s')
  {
    hide Inv;
    Local(s, p);
    WorkerMoves(s, s', s.procs[p], w, Ended(None, false));
    Internal(s, s', p);
  }

  lemma StartFailKeeps(s: State, s': State, p: nat, w: nat)
    requires Inv(s) && StartFail(s, s', p, w)
    ensures Inv(s') && Grows(s, s')
  {
    hide Inv;
    Local(s, p);
    WorkerMoves(s, s', s.procs[p], w, Ended(Some(s.procs[p].workers[w].cid), false));
    Internal(s, s', p);
  }

  lemma InspectKeeps(s: State, s': State, p: nat, w: nat, ok: bool)
    requires Inv(s) && Inspect(s, s', p, w, ok)
    ensures Inv(s') && Grows(s, s')
  {
    hide Inv;
    Local(s, p);
    WorkerMoves(s, s', s.procs[p], w, Ended(Some(s.procs[p].workers[w].cid), ok));
    Internal(s, s', p);
  }

  lemma SucceedKeeps(s: State, s': State, p: nat)
    requires Inv(s) && Succeed(s, s', p)
    ensures Inv(s') && Grows(s, s')
  {
    hide Inv;
    Local(s, p);
    Internal(s, s', p);
  }

  lemma FinishRollbackKeeps(s: State, s': State, p: nat)
    requires Inv(s) && FinishRollback(s, s', p)
    ensures Inv(s') && Grows(s, s')
  {
    hide Inv;
    Local(s, p);
    Internal(s, s', p);
  }

  lemma ProbeKeeps(s: State, s': State, p: nat, out: Outcome)
    requires Inv(s) && Probe(s, s', p, out)
    ensures Inv(s') && Grows(s, s')
  {
    hide Inv;
    Local(s, p);
    Internal(s, s', p);
  }

  lemma WriteFailKeeps(s: State, s': State, p: nat)
    requires Inv(s) && WriteFail(s, s', p)
    ensures Inv(s') && Grows(s, s')
  {
    hide Inv;
    Local(s, p);
    Internal(s, s', p);
  }

  lemma StopNothingKeeps(s: State, s': State, p: nat, cid: string, ok: bool)
    requires Inv(s) && StopNothing(s, s', p, cid, ok)
    ensures Inv(s') && Grows(s, s')
  {
    hide Inv;
    Local(s, p);
    Internal(s, s', p);
  }

  lemma FinishKillKeeps(s: State, s': State, p: nat)
    requires Inv(s) && FinishKill(s, s', p)
    ensures Inv(s') && Grows(s, s')
  {
    hide Inv;
    Local(s, p);
    Internal(s, s', p);
  }

  lemma SpareKeeps(s: State, s': State, p: nat, id: string)
    requires Inv(s) && Spare(s, s', p, id)
    ensures Inv(s') && Grows(s, s')
  {
    hide Inv;
    Local(s, p);
    Internal(s, s', p);
  }

  lemma FinishCompareKeeps(s: State, s': State, p: nat)
    requires Inv(s) && FinishCompare(s, s', p)
    ensures Inv(s') && Grows(s, s')
  {
    hide Inv;
    Local(s, p);
    Internal(s, s', p);
  }

  lemma FinishSweepKeeps(s: State, s': State, p: nat)
    requires Inv(s) && FinishSweep(s, s', p)
    ensures Inv(s') && Grows(s, s')
  {
    hide Inv;
    Local(s, p);
    Internal(s, s', p);
  }

  // ---------- The end of a scan ----------

  /** A cluster that a listing shows has a record, so the default metadata is never used for want of one. */
  lemma ShownIsRegistered(s: State, listing: seq<Container>, id: string)
    requires Stores(s) && Genuine(s, listing) && id in Ids(listing)
    ensures id in s.meta && id != ""
  {
    var c :| c in listing && c.cluster == id && id != "";
  }

  lemma FinishRefreshScanKeeps(s: State, s': State, p: nat)
    requires Inv(s) && FinishScan(s, s', p) && s.procs[p].Refresh?
    ensures Inv(s') && Grows(s, s')
  {
    hide Inv;
    Local(s, p);
    var listing := ScanOf(s.procs[p]).value.listing;
    if s.procs[p].id in Ids(listing) {
      assert Stores(s) by { StoresOf(s); }
      hide Stores;
      ShownIsRegistered(s, listing, s.procs[p].id);
    }
    Internal(s, s', p);
  }

  lemma StoresOf(s: State)
    requires Inv(s)
    ensures Stores(s) && Allocations(s)
  {
    hide Stores, Allocations, Rollbacks, Scans, Causal, ReadOnce, Records, Owners;
  }

  lemma FinishSweepScanKeeps(s: State, s': State, p: nat)
    requires Inv(s) && FinishScan(s, s', p) && s.procs[p].Sweep?
    ensures Inv(s') && Grows(s, s')
  {
    hide Inv;
    Local(s, p);
    Internal(s, s', p);
  }

  /** The rollback of an allocation always sees its cluster: the creator label is the allocating user's. */
  lemma RollbackSees(s: State, q: nat, listing: seq<Container>)
    requires q in s.procs && Registered(s.procs[q]) && WorkersOk(s, s.procs[q]) && Genuine(s, listing)
    requires s.procs[q].id in Ids(listing) && !s.clashed
    ensures Visible(s.procs[q].ctx, listing, s.procs[q].id)
  {
    var proc := s.procs[q];
    var c :| c in listing && c.cluster == proc.id;
    CreatorIsCommonLabel(listing, proc.id, proc.ctx.user);
  }

  /** So if the rollback finds nothing to stop, nothing of the cluster runs. */
  lemma RollbackDecides(s: State, s': State, p: nat, q: nat)
    requires FinishScan(s, s', p) && s.procs[p].Kill? && RollbackOk(s, s.procs[p]) && ScanOk(s, p, s.procs[p])
    requires q in s.procs && Registered(s.procs[q]) && WorkersOk(s, s.procs[q]) && KillFor(s.procs[q], q, s.procs[p])
    ensures RollbackOk(s', s'.procs[p])
  {
    var Reading(listing, outs) := ScanOf(s.procs[p]).value;
    if s.procs[p].id in Ids(listing) && !s.clashed {
      RollbackSees(s, q, listing);
    }
  }

  lemma FinishKillScanKeeps(s: State, s': State, p: nat)
    requires Inv(s) && FinishScan(s, s', p) && s.procs[p].Kill?
    ensures Inv(s') && Grows(s, s')
  {
    hide Inv;
    Local(s, p);
    forall q | q in s.procs && IsRollbackOf(s.procs[q], p)
      ensures RollbackOk(s', s'.procs[p])
    {
      hide ScanOk, RollbackOk, WorkersOk;
      Local(s, q);
      RollbackDecides(s, s', p, q);
    }
    hide RollbackOk, WorkersOk;
    Internal(s, s', p);
  }

  lemma FinishScanKeeps(s: State, s': State, p: nat)
    requires Inv(s) && FinishScan(s, s', p)
    ensures Inv(s') && Grows(s, s')
  {
    hide Inv;
    match s.procs[p]
    case Refresh(_, _, _, _) => FinishRefreshScanKeeps(s, s', p);
    case Kill(_, _, _, _) => FinishKillScanKeeps(s, s', p);
    case Sweep(_, _, _) => FinishSweepScanKeeps(s, s', p);
  }

  // ---------- Steps that leave a trace ----------

  /** Steps that change one process and append to the log, but leave both stores alone. */
  lemma Logged(s: State, s': State, p: nat)
    requires Inv(s) && p in s.procs && p in s'.procs && |s'.log| == |s.log| + 1
    requires s' == s.(procs := s.procs[p := s'.procs[p]], log := s.log + [s'.log[|s.log|]])
    requires SameIdentity(s.procs[p], s'.procs[p]) && !s.procs[p].Allocation?
    requires ScanOk(s', p, s'.procs[p])
    requires StillRolling(s, s', p)
    requires ScanOf(s'.procs[p]).Some? ==>
               && ScanOf(s.procs[p]).Some?
               && (ScanOf(s.procs[p]).value.Reading? ==>
                     && ScanOf(s'.procs[p]).value.Reading?
                     && ScanOf(s.procs[p]).value.outs.Keys <= ScanOf(s'.procs[p]).value.outs.Keys)
    requires var e := s'.log[|s.log|];
             && !e.Wrote? && Backed(s', s.log, e)
             && (e.Read? ==>
                   && e.p == p && ScanOf(s.procs[p]).Some? && ScanOf(s.procs[p]).value.Reading?
                   && e.id !in ScanOf(s.procs[p]).value.outs && Admissible(s.meta, e.id, e.out)
                   && (ScanOf(s'.procs[p]).Some? ==>
                         ScanOf(s'.procs[p]).value.Reading? && e.id in ScanOf(s'.procs[p]).value.outs))
    ensures Inv(s') && Grows(s, s')
  {
    hide Stores, Allocations, Rollbacks, Scans, Causal, ReadOnce, Records, Owners, ScanOk, WorkersOk, RollbackOk,
         Backed;
    assert Grows(s, s') by {
      assert forall q <- s.procs :: SameIdentity(s.procs[q], s'.procs[q]);
    }
    assert IssuedBy(s, s', p);
    StoresFrame(s, s');
    ScansFrame(s, s', p);
    AllocationsFrame(s, s', p);
    OwnersFrame(s, s', p);
    CausalFrame(s, s');
    ReadOnceFrame(s, s', p);
    RecordsFrame(s, s');
    assert Rollbacks(s') by {
      hide Grows;
      RollbacksFrame(s, s', p);
    }
  }

  lemma ListKeeps(s: State, s': State, p: nat, listing: seq<Container>)
    requires Inv(s) && List(s, s', p, listing)
    ensures Inv(s') && Grows(s, s')
  {
    hide Inv;
    Local(s, p);
    StoresOf(s);
    hide Allocations, WorkersOk;
    forall k | IsRunning(s, k) ensures s.containers[k] in listing {}
    Logged(s, s', p);
  }

  lemma ReadMetaKeeps(s: State, s': State, p: nat, id: string, out: Outcome)
    requires Inv(s) && ReadMeta(s, s', p, id, out)
    ensures Inv(s') && Grows(s, s')
  {
    hide Inv;
    Local(s, p);
    hide WorkersOk;
    Logged(s, s', p);
  }

  lemma SelectKeeps(s: State, s': State, p: nat, id: string)
    requires Inv(s) && Select(s, s', p, id)
    ensures Inv(s') && Grows(s, s')
  {
    hide Inv;
    Local(s, p);
    hide WorkersOk;
    Logged(s, s', p);
  }

  // ---------- Steps that start a call ----------

  lemma Joins(s: State, s': State, c: nat)
    requires Inv(s) && c !in s.procs && c in s'.procs && LogGrows(s, s')
    requires s' == s.(procs := s.procs[c := s'.procs[c]], log := s'.log)
    requires ScanOk(s', c, s'.procs[c]) && !Registered(s'.procs[c])
    requires s'.procs[c].Allocation? ==> WorkersOk(s', s'.procs[c]) && s'.procs[c].alloc.Registering?
    requires |s'.log| > |s.log| ==> s'.log[|s.log|].Spawned? && Backed(s', s.log, s'.log[|s.log|])
    ensures Inv(s') && Grows(s, s')
  {
    assert forall q <- s.procs :: !IsRollbackOf(s.procs[q], c) by {
      hide Stores, Allocations, Scans, Causal, ReadOnce, Records, Owners, RollbackOk;
    }
    hide Stores, Allocations, Rollbacks, Scans, Causal, ReadOnce, Records, Owners, ScanOk, WorkersOk, RollbackOk,
         Backed;
    assert Grows(s, s') by {
      assert forall q <- s.procs :: SameIdentity(s.procs[q], s'.procs[q]);
    }
    assert IssuedBy(s, s', c);
    StoresFrame(s, s');
    ScansFrame(s, s', c);
    AllocationsFrame(s, s', c);
    OwnersFrame(s, s', c);
    CausalFrame(s, s');
    ReadOnceFrame(s, s', c);
    RecordsFrame(s, s');
    assert Rollbacks(s') by {
      hide Grows;
      RollbacksFrame(s, s', c);
    }
  }

  lemma GrowsThrough(s: State, mid: State, s': State)
    requires Grows(s, mid) && Grows(mid, s') && s'.log == mid.log && s'.containers == mid.containers == s.containers
    ensures Grows(s, s')
  {}

  lemma BeginKeeps(s: State, s': State, p: nat, proc: Proc)
    requires Inv(s) && Begin(s, s', p, proc)
    ensures Inv(s') && Grows(s, s')
  {
    hide Inv;
    Joins(s, s', p);
  }

  lemma RollBackKeeps(s: State, s': State, p: nat, child: nat)
    requires Inv(s) && RollBack(s, s', p, child)
    ensures Inv(s') && Grows(s, s')
  {
    hide Inv;
    var proc := s.procs[p];
    var mid := s.(procs := s.procs[child := Kill(proc.ctx, proc.id, Some(p), KillScan(Listing))]);
    Joins(s, mid, child);
    Local(mid, p);
    assert s'.procs == mid.procs[p := s'.procs[p]];
    Internal(mid, s', p);
    assert Grows(s, s') by {
      GrowsThrough(s, mid, s');
    }
  }

  lemma SpawnKillKeeps(s: State, s': State, p: nat, id: string, child: nat)
    requires Inv(s) && SpawnKill(s, s', p, id, child)
    ensures Inv(s') && Grows(s, s')
  {
    hide Inv;
    Local(s, p);
    var kill := Kill(s.procs[p].ctx, id, Some(p), KillScan(Listing));
    var mid := s.(procs := s.procs[child := kill], log := s.log + [Spawned(p, child, id)]);
    Joins(s, mid, child);
    Local(mid, p);
    assert s'.procs == mid.procs[p := s'.procs[p]];
    Internal(mid, s', p);
    assert Grows(s, s') by {
      GrowsThrough(s, mid, s');
    }
  }

  // ---------- Steps that change a store ----------

  lemma Acts(s: State, s': State, p: nat)
    requires Inv(s) && p in s.procs && Touches(s, s', p) && Grows(s, s') && Stores(s') && IssuedBy(s, s', p)
    requires SameIdentity(s.procs[p], s'.procs[p]) && ScanOf(s'.procs[p]).None?
    requires ScanOk(s', p, s'.procs[p])
    requires s'.procs[p].Allocation? ==> WorkersOk(s', s'.procs[p])
    requires s.clashed ==> s'.clashed
    requires Registered(s'.procs[p]) && !s'.clashed ==> Registered(s.procs[p]) || s'.procs[p].id !in s.meta
    requires forall q <- s.procs :: HasFailed(s.procs[q]) && !s'.clashed ==> NoneWoken(s, s', s.procs[q].id)
    requires StillRolling(s, s', p)
    requires !HasFailed(s'.procs[p])
    requires |s'.log| > |s.log| ==> !s'.log[|s.log|].Read? && Backed(s', s.log, s'.log[|s.log|])
    requires Applied(s, s')
    requires Registered(s'.procs[p]) && !Registered(s.procs[p]) && !s'.clashed ==>
               s'.procs[p].id in s'.meta && s'.meta[s'.procs[p].id].owner == s'.procs[p].ctx.user
    ensures Inv(s') && Grows(s, s')
  {
    hide Stores, Allocations, Rollbacks, Scans, Causal, ReadOnce, Records, Owners, ScanOk, WorkersOk, RollbackOk,
         Backed, Grows, IssuedBy;
    ScansFrame(s, s', p);
    AllocationsFrame(s, s', p);
    OwnersFrame(s, s', p);
    CausalFrame(s, s');
    RollbacksFrame(s, s', p);
    assert LogGrows(s, s') && s'.base == s.base by {
      LogOf(s, s');
    }
    RecordsFrame(s, s');
    ReadOnceFrame(s, s', p);
  }

  lemma LogOf(s: State, s': State)
    requires Grows(s, s')
    ensures LogGrows(s, s') && s'.base == s.base
  {}

  /** What a write does to the whole state. */
  ghost predicate Writes(s: State, s': State, p: nat, lease: Lease, blind: bool)
    requires p in s.procs && !s.procs[p].Sweep?
  {
    var id := s.procs[p].id;
    && lease.timeout % NANOS == 0
    && (!blind && id in s.meta ==> s.meta[id].timeout <= lease.timeout)
    && p in s'.procs && SameIdentity(s.procs[p], s'.procs[p])
    && s' == s.(procs := s.procs[p := s'.procs[p]], meta := s.meta[id := lease], clashed := s.clashed || s'.clashed,
                log := s.log + [Wrote(p, id, lease, blind)])
  }

  /** Both transactions write in this way, and neither is blind. */
  lemma TransactionWrites(table: Table, id: string, owner: string, timeout: int, after: Table)
    requires WholeSeconds(table)
    requires Ok(after) in {CreateRecord(table, id, owner, timeout), RefreshRecord(table, id, owner, timeout)}
    ensures after == table[id := after[id]] && after[id].timeout % NANOS == 0 && after[id].owner == owner
    ensures id in table ==> table[id].timeout <= after[id].timeout
  {
    WritesNeverShorten(table, id, owner, timeout, after);
  }

  lemma StoresAfterWrite(s: State, s': State, p: nat, lease: Lease, blind: bool)
    requires Stores(s) && p in s.procs && !s.procs[p].Sweep? && Writes(s, s', p, lease, blind)
    ensures Stores(s')
  {}

  lemma GrowsByWrite(s: State, s': State, p: nat, lease: Lease, blind: bool)
    requires p in s.procs && !s.procs[p].Sweep? && Writes(s, s', p, lease, blind)
    ensures Grows(s, s') && Applied(s, s')
  {
    assert forall q <- s.procs :: SameIdentity(s.procs[q], s'.procs[q]);
  }

  lemma IdleWorkersOk(s: State, s': State, p: nat)
    requires Stores(s) && Register(s, s', p) && WorkersOk(s, s.procs[p])
    ensures WorkersOk(s', s'.procs[p])
  {}

  lemma RegisterKeeps(s: State, s': State, p: nat)
    requires Inv(s) && Register(s, s', p)
    ensures Inv(s') && Grows(s, s')
  {
    hide Inv, Allocations, Stores, WorkersOk, Grows, ScanOk, RollbackOk;
    Local(s, p);
    StoresOf(s);
    var proc := s.procs[p];
    assert WholeSeconds(s.meta) by { WholeSecondsOf(s); }
    TransactionWrites(s.meta, proc.id, proc.ctx.user, proc.deadline, s'.meta);
    assert Writes(s, s', p, s'.meta[proc.id], false);
    StoresAfterWrite(s, s', p, s'.meta[proc.id], false);
    GrowsByWrite(s, s', p, s'.meta[proc.id], false);
    IdleWorkersOk(s, s', p);
    assert ScanOk(s', p, s'.procs[p]) by { AllocationScanOk(s', p); }
    Acts(s, s', p);
  }

  lemma ClashKeeps(s: State, s': State, p: nat)
    requires Inv(s) && Clash(s, s', p)
    ensures Inv(s') && Grows(s, s')
  {
    hide Inv, Allocations, Stores, WorkersOk, Grows, ScanOk;
    Local(s, p);
    StoresOf(s);
    var lease := s'.meta[s.procs[p].id];
    StoresAfterWrite(s, s', p, lease, true);
    GrowsByWrite(s, s', p, lease, true);
    ClashWorkersOk(s, s', p);
    assert ScanOk(s', p, s'.procs[p]) by { AllocationScanOk(s', p); }
    Acts(s, s', p);
  }

  lemma ClashWorkersOk(s: State, s': State, p: nat)
    requires Clash(s, s', p) && WorkersOk(s, s.procs[p])
    ensures WorkersOk(s', s'.procs[p])
  {}

  lemma WholeSecondsOf(s: State)
    requires Stores(s)
    ensures WholeSeconds(s.meta)
  {}

  lemma AllocationScanOk(s: State, p: nat)
    requires p in s.procs && s.procs[p].Allocation?
    ensures ScanOk(s, p, s.procs[p])
  {}

  lemma RefreshWrites(s: State, s': State, p: nat, lease: Lease, blind: bool)
    requires Inv(s) && IsWriting(s, p) && Writes(s, s', p, lease, blind)
    requires s'.procs[p].refresh.RefreshDone?
    ensures Inv(s') && Grows(s, s')
  {
    hide Inv, Allocations, Stores, WorkersOk, Grows, RollbackOk, Applied;
    Local(s, p);
    StoresOf(s);
    StoresAfterWrite(s, s', p, lease, blind);
    GrowsByWrite(s, s', p, lease, blind);
    assert forall q <- s.procs :: !IsRollbackOf(s.procs[q], p);
    Acts(s, s', p);
  }

  lemma WriteKeeps(s: State, s': State, p: nat)
    requires Inv(s) && Write(s, s', p)
    ensures Inv(s') && Grows(s, s')
  {
    hide Inv;
    var proc := s.procs[p];
    assert WholeSeconds(s.meta) by {
      StoresOf(s);
      WholeSecondsOf(s);
    }
    TransactionWrites(s.meta, proc.id, proc.ctx.user, proc.refresh.deadline, s'.meta);
    RefreshWrites(s, s', p, s'.meta[proc.id], false);
  }

  lemma OverwriteKeeps(s: State, s': State, p: nat)
    requires Inv(s) && Overwrite(s, s', p)
    ensures Inv(s') && Grows(s, s')
  {
    hide Inv;
    var proc := s.procs[p];
    RefreshWrites(s, s', p, Lease(proc.ctx.user, Truncate(proc.refresh.deadline)), true);
  }

  lemma StoresAfterCreate(s: State, s': State, p: nat, w: nat, made: Container)
    requires Stores(s) && CreateContainer(s, s', p, w, made) && WorkersOk(s, s.procs[p])
    ensures Stores(s')
  {}

  lemma GrowsByCreate(s: State, s': State, p: nat, w: nat, made: Container)
    requires Stores(s) && CreateContainer(s, s', p, w, made)
    ensures Grows(s, s')
  {
    assert forall q <- s.procs :: SameIdentity(s.procs[q], s'.procs[q]);
  }

  lemma CreateWakesNone(s: State, s': State, p: nat, w: nat, made: Container)
    requires Stores(s) && CreateContainer(s, s', p, w, made)
    ensures forall id :: NoneWoken(s, s', id)
  {}

  lemma CreateContainerKeeps(s: State, s': State, p: nat, w: nat, made: Container)
    requires Inv(s) && CreateContainer(s, s', p, w, made)
    ensures Inv(s') && Grows(s, s')
  {
    hide Inv, Allocations, Stores, WorkersOk, Grows, NoneWoken, ScanOk, RollbackOk;
    Local(s, p);
    StoresOf(s);
    StoresAfterCreate(s, s', p, w, made);
    GrowsByCreate(s, s', p, w, made);
    CreateWakesNone(s, s', p, w, made);
    WorkerMakes(s, s', s.procs[p], w, made);
    assert ScanOk(s', p, s'.procs[p]) by { AllocationScanOk(s', p); }
    Acts(s, s', p);
  }

  lemma WorkerMakes(s: State, s': State, proc: Proc, w: nat, made: Container)
    requires proc.Allocation? && WorkersOk(s, proc) && proc.alloc.FanOut? && w < |proc.workers| && proc.workers[w].Idle?
    requires made.id !in s.issued && made.state == "created" && made.cluster == proc.id && made.creator == proc.ctx.user
    requires s'.containers == s.containers[made.id := made] && s'.issued == s.issued[made.id := made]
    requires Stores(s) && s'.meta == s.meta && s'.log == s.log && s'.clashed == s.clashed
    ensures WorkersOk(s', SetWorker(proc, w, Made(made.id)))
  {
    var ws := proc.workers[w := Made(made.id)];
    forall k | Held(proc.workers, k) ensures Held(ws, k) {
      var v :| 0 <= v < |proc.workers| && CidOf(proc.workers[v]) == Some(k);
      assert CidOf(ws[v]) == Some(k);
    }
    assert CidOf(ws[w]) == Some(made.id);
  }

  /** A rolled back allocation starts nothing any more, so a start never wakes one of its containers. */
  lemma StartWakesNoRollback(s: State, s': State, p: nat, w: nat, q: nat)
    requires Stores(s) && StartContainer(s, s', p, w) && Allocations(s)
    requires q in s.procs && HasFailed(s.procs[q]) && !s.clashed
    ensures NoneWoken(s, s', s.procs[q].id)
  {
    assert WorkersOk(s, s.procs[p]);
  }

  lemma StoresAfterStart(s: State, s': State, p: nat, w: nat)
    requires Stores(s) && StartContainer(s, s', p, w)
    ensures Stores(s')
  {}

  lemma GrowsByStart(s: State, s': State, p: nat, w: nat)
    requires StartContainer(s, s', p, w)
    ensures Grows(s, s')
  {
    assert forall q <- s.procs :: SameIdentity(s.procs[q], s'.procs[q]);
  }

  lemma WorkerStarts(s: State, s': State, p: nat, w: nat)
    requires StartContainer(s, s', p, w) && WorkersOk(s, s.procs[p])
    ensures WorkersOk(s', s'.procs[p])
  {
    var proc := s.procs[p];
    var ws := s'.procs[p].workers;
    forall k | Held(proc.workers, k) ensures Held(ws, k) {
      var v :| 0 <= v < |proc.workers| && CidOf(proc.workers[v]) == Some(k);
      assert CidOf(ws[v]) == Some(k);
    }
  }

  lemma StartContainerKeeps(s: State, s': State, p: nat, w: nat)
    requires Inv(s) && StartContainer(s, s', p, w)
    ensures Inv(s') && Grows(s, s')
  {
    hide Inv, Allocations, Stores, WorkersOk, Grows, NoneWoken, ScanOk, RollbackOk;
    Local(s, p);
    StoresOf(s);
    StoresAfterStart(s, s', p, w);
    GrowsByStart(s, s', p, w);
    WorkerStarts(s, s', p, w);
    forall q | q in s.procs && HasFailed(s.procs[q]) && !s'.clashed
      ensures NoneWoken(s, s', s.procs[q].id)
    {
      StartWakesNoRollback(s, s', p, w, q);
    }
    assert ScanOk(s', p, s'.procs[p]) by { AllocationScanOk(s', p); }
    Acts(s, s', p);
  }

  lemma StoresAfterStop(s: State, s': State, p: nat, cid: string, ok: bool)
    requires Stores(s) && StopRunning(s, s', p, cid, ok)
    ensures Stores(s')
  {}

  lemma GrowsByStop(s: State, s': State, p: nat, cid: string, ok: bool)
    requires StopRunning(s, s', p, cid, ok)
    ensures Grows(s, s')
    ensures forall id :: NoneWoken(s, s', id)
  {
    assert forall q <- s.procs :: SameIdentity(s.procs[q], s'.procs[q]);
    assert s'.log[|s.log|].Stopped? && s'.log[|s.log|] in s'.log;
  }

  /** The stop acts on a container of the target cluster, and the kill's own scan entitles the caller to it. */
  lemma StopIsBacked(s: State, s': State, p: nat, cid: string, ok: bool)
    requires StopRunning(s, s', p, cid, ok) && ScanOk(s, p, s.procs[p])
    ensures Backed(s', s.log, s'.log[|s.log|])
  {
    var Stopping(listing, out, _, _) := s.procs[p].kill;
    assert Listed(p, listing) in s.log && Read(p, s.procs[p].id, out) in s.log;
    assert Shows(listing, cid, s.procs[p].id);
  }

  lemma StopRunningKeeps(s: State, s': State, p: nat, cid: string, ok: bool)
    requires Inv(s) && StopRunning(s, s', p, cid, ok)
    ensures Inv(s') && Grows(s, s')
  {
    hide Inv, Allocations, Stores, WorkersOk, Grows, NoneWoken, Backed;
    Local(s, p);
    StoresOf(s);
    StoresAfterStop(s, s', p, cid, ok);
    GrowsByStop(s, s', p, cid, ok);
    StopIsBacked(s, s', p, cid, ok);
    Acts(s, s', p);
  }
}
