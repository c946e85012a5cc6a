/** What every run of the lifecycle guarantees. */
module LifecycleTheorems {
  import opened Basics
  import opened Leases
  import opened Clusters
  import opened Lifecycle
  import opened LifecycleInvariants
  import opened LifecycleSteps

  lemma NextKeeps(s: State, s': State)
    requires Inv(s) && Next(s, s')
    ensures Inv(s') && Grows(s, s')
  {
    hide Inv, Tick, Begin, List, ListFail, ReadMeta, FinishScan, Register, Clash, Reject, Image,
         CreateContainer, CreateFail, StartContainer, StartFail, Inspect, Succeed, RollBack,
         FinishRollback, Probe, Write, Overwrite, WriteFail, StopRunning, StopNothing, FinishKill, Select, Spare,
         FinishCompare, SpawnKill, FinishSweep;
    var step :| Does(s, s', step);
    match step
    case TickStep(now) => TickKeeps(s, s', now);
    case BeginStep(p, proc) => BeginKeeps(s, s', p, proc);
    case ListStep(p, listing) => ListKeeps(s, s', p, listing);
    case ListFailStep(p) => ListFailKeeps(s, s', p);
    case ReadMetaStep(p, id, out) => ReadMetaKeeps(s, s', p, id, out);
    case FinishScanStep(p) => FinishScanKeeps(s, s', p);
    case RegisterStep(p) => RegisterKeeps(s, s', p);
    case ClashStep(p) => ClashKeeps(s, s', p);
    case RejectStep(p) => RejectKeeps(s, s', p);
    case ImageStep(p, ok) => ImageKeeps(s, s', p, ok);
    case CreateContainerStep(p, w, made) => CreateContainerKeeps(s, s', p, w, made);
    case CreateFailStep(p, w) => CreateFailKeeps(s, s', p, w);
    case StartContainerStep(p, w) => StartContainerKeeps(s, s', p, w);
    case StartFailStep(p, w) => StartFailKeeps(s, s', p, w);
    case InspectStep(p, w, ok) => InspectKeeps(s, s', p, w, ok);
    case SucceedStep(p) => SucceedKeeps(s, s', p);
    case RollBackStep(p, child) => RollBackKeeps(s, s', p, child);
    case FinishRollbackStep(p) => FinishRollbackKeeps(s, s', p);
    case ProbeStep(p, out) => ProbeKeeps(s, s', p, out);
    case WriteStep(p) => WriteKeeps(s, s', p);
    case OverwriteStep(p) => OverwriteKeeps(s, s', p);
    case WriteFailStep(p) => WriteFailKeeps(s, s', p);
    case StopRunningStep(p, cid, ok) => StopRunningKeeps(s, s', p, cid, ok);
    case StopNothingStep(p, cid, ok) => StopNothingKeeps(s, s', p, cid, ok);
    case FinishKillStep(p) => FinishKillKeeps(s, s', p);
    case SelectStep(p, id) => SelectKeeps(s, s', p, id);
    case SpareStep(p, id) => SpareKeeps(s, s', p, id);
    case FinishCompareStep(p) => FinishCompareKeeps(s, s', p);
    case SpawnKillStep(p, id, child) => SpawnKillKeeps(s, s', p, id, child);
    case FinishSweepStep(p) => FinishSweepKeeps(s, s', p);
  }

  lemma {:induction false} RunInv(ss: seq<State>, i: nat)
    requires Run(ss) && i < |ss|
    ensures Inv(ss[i])
  {
    hide Inv, Next;
    if i == 0 {
      InitInv(ss[0]);
    } else {
      RunInv(ss, i - 1);
      assert Next(ss[i - 1], ss[(i - 1) + 1]);
      NextKeeps(ss[i - 1], ss[i]);
    }
  }

  lemma RunGrows(ss: seq<State>, i: nat)
    requires Run(ss) && 0 < i < |ss|
    ensures Grows(ss[i - 1], ss[i])
  {
    hide Inv, Next, Grows;
    RunInv(ss, i - 1);
    assert Next(ss[i - 1], ss[(i - 1) + 1]);
    NextKeeps(ss[i - 1], ss[i]);
  }

  // ---------- Authorised stops ----------

  /** A container that ran once and does not run any more was stopped by a logged stop. */
  lemma {:induction false} OnlyStopsEndContainers(ss: seq<State>, i: nat, j: nat, cid: string)
    requires Run(ss) && i <= j < |ss| && IsRunning(ss[i], cid)
    ensures IsRunning(ss[j], cid) || WasStopped(ss[j].log, cid)
    decreases j
  {
    hide Run;
    if i < j {
      OnlyStopsEndContainers(ss, i, j - 1, cid);
      RunGrows(ss, j);
      if WasStopped(ss[j - 1].log, cid) {
        var e :| e in ss[j - 1].log && e.Stopped? && e.cid == cid;
        assert e in ss[j].log;
      }
    }
  }

  ghost predicate Authorised(s: State, before: seq<Event>, e: Event)
    requires e.Stopped?
  {
    && e.cid in s.issued && s.issued[e.cid].cluster == e.id != ""
    && e.p in s.procs && s.procs[e.p].Kill? && s.procs[e.p].ctx == e.ctx && s.procs[e.p].id == e.id
    && (exists listing, out :: Saw(before, e, listing, out))
    && (!e.ctx.ignoreOwnership && !s.clashed ==> s.issued[e.cid].creator == e.ctx.user)
  }

  /** The kill's own scan listed the container under the target's label, and, unless ownership is ignored, it
      resolved the creator to the caller and read a record of the caller's. */
  ghost predicate Saw(before: seq<Event>, e: Event, listing: seq<Container>, out: Outcome)
    requires e.Stopped?
  {
    && Listed(e.p, listing) in before && Read(e.p, e.id, out) in before && Shows(listing, e.cid, e.id)
    && (!e.ctx.ignoreOwnership ==> CreatorOf(listing, e.id) == e.ctx.user && ViewOf(out).owner == e.ctx.user)
  }

  /** Every stop in every run: the container carries the target's label, and either its caller ignores
      ownership, or in the kill's own earlier scan the creator was resolved to the caller and the record was the
      caller's; unless ids have clashed, the caller created that very container. */
  lemma StopsAreAuthorised(ss: seq<State>, i: nat, k: nat)
    requires Run(ss) && i < |ss| && k < |ss[i].log| && ss[i].log[k].Stopped?
    ensures Authorised(ss[i], ss[i].log[..k], ss[i].log[k])
  {
    RunInv(ss, i);
    StopIsAuthorised(ss[i], k);
  }

  lemma StopIsAuthorised(s: State, k: nat)
    requires Inv(s) && k < |s.log| && s.log[k].Stopped?
    ensures Authorised(s, s.log[..k], s.log[k])
  {
    hide Allocations, Rollbacks, Scans, ReadOnce, Records, Owners, Stores;
    var e := s.log[k];
    assert Backed(s, s.log[..k], e);
    var listing, out :| && Listed(e.p, listing) in s.log[..k] && Read(e.p, e.id, out) in s.log[..k]
                        && Shows(listing, e.cid, e.id) && Entitled(e.ctx, e.id, listing, out);
    assert Saw(s.log[..k], e, listing, out);
    var j :| 0 <= j < k && s.log[j] == Listed(e.p, listing);
    assert Backed(s, s.log[..j], s.log[j]);
    hide Inv, Backed;
    if !e.ctx.ignoreOwnership && !s.clashed {
      OneCreator(s, listing, e.cid, e.id);
    }
  }

  lemma OneCreator(s: State, listing: seq<Container>, cid: string, id: string)
    requires Inv(s) && !s.clashed && Genuine(s, listing) && Shows(listing, cid, id) && id != ""
    ensures cid in s.issued && CreatorOf(listing, id) == s.issued[cid].creator
  {
    hide Allocations, Rollbacks, Scans, ReadOnce, Records, Owners, Causal;
    CreatorIsCommonLabel(listing, id, s.issued[cid].creator);
  }

  // ---------- The reaper and leases ----------

  /** An outcome and a clock reading that select the cluster for reaping (daemon/daemon.go:204). */
  predicate Selects(out: Outcome, at: int) { ViewOf(out).timeout < at }

  /** Exactly when a read of a live record selects it too early: a recovered panic always does, a storage
      error does once the default timeout of the year 2222 has passed, and nothing else does. */
  lemma SelectsLiveLease(table: Table, id: string, out: Outcome, at: int)
    requires id in table && Admissible(table, id, out) && ZERO_TIME < at <= table[id].timeout
    ensures Selects(out, at) <==> out.Panicked? || (out.Failed? && DEFAULT_TIMEOUT < at)
  {}

  // The metadata store is its log: what a record says is what the last write of it said.

  predicate WritesTo(e: Event, id: string) { e.Wrote? && e.id == id }

  /** The last write of this record before position j. */
  ghost predicate LastWrite(log: seq<Event>, i: nat, j: nat, id: string) {
    i < j <= |log| && WritesTo(log[i], id) && forall c :: i < c < j ==> !WritesTo(log[c], id)
  }

  /** Some write of this record, from i on and before j, did not see the record. */
  ghost predicate Overwritten(log: seq<Event>, i: nat, j: nat, id: string) {
    exists c :: i <= c < j <= |log| && WritesTo(log[c], id) && log[c].blind
  }

  lemma {:induction false} Untouched(base: Table, log: seq<Event>, i: nat, j: nat, id: string)
    requires i <= j <= |log| && forall c :: i <= c < j ==> !WritesTo(log[c], id)
    ensures id in Replay(base, log[..j]) <==> id in Replay(base, log[..i])
    ensures id in Replay(base, log[..j]) ==> Replay(base, log[..j])[id] == Replay(base, log[..i])[id]
    decreases j
  {
    if i < j {
      assert log[..j][..j - 1] == log[..j - 1];
      Untouched(base, log, i, j - 1, id);
    }
  }

  lemma LastWriteHolds(base: Table, log: seq<Event>, i: nat, j: nat, id: string)
    requires LastWrite(log, i, j, id)
    ensures id in Replay(base, log[..j]) && Replay(base, log[..j])[id] == log[i].lease
  {
    assert log[..i + 1][..i] == log[..i];
    Untouched(base, log, i + 1, j, id);
  }

  lemma {:induction false} FindLastWrite(log: seq<Event>, i: nat, j: nat, id: string) returns (w: nat)
    requires i < j <= |log| && exists c :: i <= c < j && WritesTo(log[c], id)
    ensures i <= w && LastWrite(log, w, j, id)
    decreases j
  {
    if WritesTo(log[j - 1], id) {
      w := j - 1;
    } else {
      w := FindLastWrite(log, i, j - 1, id);
    }
  }

  /** As long as nobody overwrites a record blindly, its lease only grows. */
  lemma {:induction false} ReplayGrows(s: State, i: nat, j: nat, id: string)
    requires Records(s) && i <= j <= |s.log| && id in Replay(s.base, s.log[..i]) && !Overwritten(s.log, i, j, id)
    ensures id in Replay(s.base, s.log[..j])
    ensures Replay(s.base, s.log[..i])[id].timeout <= Replay(s.base, s.log[..j])[id].timeout
    decreases j
  {
    hide Records, Replay;
    if i < j {
      ReplayGrows(s, i, j - 1, id);
      NextGrows(s, j - 1, id);
    }
  }

  lemma NextGrows(s: State, j: nat, id: string)
    requires Records(s) && j < |s.log| && id in Replay(s.base, s.log[..j])
    requires !(WritesTo(s.log[j], id) && s.log[j].blind)
    ensures id in Replay(s.base, s.log[..j + 1])
    ensures Replay(s.base, s.log[..j])[id].timeout <= Replay(s.base, s.log[..j + 1])[id].timeout
  {
    assert s.log[..j + 1][..j] == s.log[..j];
    assert Fits(Replay(s.base, s.log[..j]), s.log[j]);
  }

  /** A read that finds a record finds what the last write before it said, in every run. */
  lemma ReadsAreCurrent(ss: seq<State>, n: nat, i: nat, j: nat)
    requires Run(ss) && n < |ss| && j < |ss[n].log| && ss[n].log[j].Read? && ss[n].log[j].out.Found?
    requires LastWrite(ss[n].log, i, j, ss[n].log[j].id)
    ensures ss[n].log[j].out.lease == ss[n].log[i].lease
  {
    RunInv(ss, n);
    RecordsOf(ss[n]);
    LastWriteHolds(ss[n].base, ss[n].log, i, j, ss[n].log[j].id);
  }

  lemma RecordsOf(s: State)
    requires Inv(s)
    ensures Records(s) && Replay(s.base, s.log[..|s.log|]) == s.meta
  {
    hide Stores, Allocations, Rollbacks, Scans, Causal, ReadOnce, Owners;
    assert s.log[..|s.log|] == s.log;
  }

  /** The lease guarantee: once a create or a refresh has recorded a lease, no later read by a reaper that
      finds the record leads it to select the cluster at a time up to that lease, whatever else happens
      in the run, unless a blind write has come between. */
  lemma LeaseIsHonoured(ss: seq<State>, n: nat, i: nat, j: nat, k: nat)
    requires Run(ss) && n < |ss| && i < j < |ss[n].log| && k < |ss[n].log|
    requires var log := ss[n].log;
             && log[i].Wrote? && log[j].Read? && log[k].Selected?
             && log[i].id == log[j].id == log[k].id && log[j].p == log[k].p
    ensures var log := ss[n].log;
            && j < k && log[k].out == log[j].out && Selects(log[j].out, log[k].at)
            && (log[j].out.Found? ==> log[i].lease.timeout < log[k].at || Overwritten(log, i + 1, j, log[i].id))
  {
    RunInv(ss, n);
    var s := ss[n];
    hide Inv, Stores, Allocations, Rollbacks, Scans, Owners, Records;
    ParticularsOf(s);
    assert Backed(s, s.log[..k], s.log[k]);
    var m :| 0 <= m < k && s.log[m] == Read(s.log[k].p, s.log[k].id, s.log[k].out);
    assert m == j;
    if s.log[j].out.Found? && !Overwritten(s.log, i + 1, j, s.log[i].id) {
      WrittenIsRead(s, i, j);
    }
  }

  lemma WrittenIsRead(s: State, i: nat, j: nat)
    requires Records(s) && i < j < |s.log| && s.log[j].Read? && s.log[j].out.Found? && WritesTo(s.log[i], s.log[j].id)
    requires !Overwritten(s.log, i + 1, j, s.log[j].id)
    ensures s.log[i].lease.timeout <= s.log[j].out.lease.timeout
  {
    var id := s.log[j].id;
    LastWriteHolds(s.base, s.log, i, i + 1, id);
    ReplayGrows(s, i + 1, j, id);
    assert Fits(Replay(s.base, s.log[..j]), s.log[j]);
  }

  lemma ParticularsOf(s: State)
    requires Inv(s)
    ensures Causal(s) && ReadOnce(s) && Records(s)
  {
    hide Stores, Allocations, Rollbacks, Scans, Causal, ReadOnce, Records, Owners;
  }

  /** What the reaper has read and compared before it stopped a container: j is the read, m the comparison. */
  ghost predicate Reaps(s: State, k: nat, q: nat, j: nat, m: nat) {
    && j < m < k < |s.log| && s.log[k].Stopped? && s.log[k].parent == Some(q)
    && s.log[j].Read? && s.log[j].p == q && s.log[j].id == s.log[k].id
    && s.log[m].Selected? && s.log[m].p == q && s.log[m].id == s.log[k].id
    && Selects(s.log[j].out, s.log[m].at)
  }

  /** Every container the reaper has stopped was one of a cluster that this reaper had read before, and
      whose lease, as read, had expired when compared; so had every lease recorded before that read, unless
      it was overwritten blindly. */
  lemma ReapedHadExpired(ss: seq<State>, n: nat, k: nat, q: nat) returns (j: nat, m: nat)
    requires Run(ss) && n < |ss| && k < |ss[n].log| && ss[n].log[k].Stopped? && ss[n].log[k].parent == Some(q)
    requires q in ss[n].procs && ss[n].procs[q].Sweep? && ss[n].procs[q].reaping
    ensures Reaps(ss[n], k, q, j, m)
    ensures var log, id := ss[n].log, ss[n].log[k].id;
            log[j].out.Found? ==>
              forall i :: 0 <= i < j && WritesTo(log[i], id) ==>
                log[i].lease.timeout < log[m].at || Overwritten(log, i + 1, j, id)
  {
    RunInv(ss, n);
    hide Inv;
    var c := SpawnOf(ss[n], k, q);
    m := SelectionOf(ss[n], c);
    j := ReadOf(ss[n], m);
    LeasesOf(ss[n], j, m);
  }

  /** Exactly when the reaper stops a container of a cluster whose recorded lease runs on, although it had found
      the record expired: when the last write of the record since that read has a lease that runs on.  As long as
      none is blind, it is when any write since then has. */
  lemma LiveLeaseIsReapedIff(ss: seq<State>, n: nat, k: nat, q: nat, j: nat, m: nat)
    requires Run(ss) && n < |ss| && Reaps(ss[n], k, q, j, m) && |ss[n].log| == k + 1 && ss[n].log[j].out.Found?
    ensures var s, log, id, at := ss[n], ss[n].log, ss[n].log[k].id, ss[n].log[m].at;
            && id in s.meta
            && (at <= s.meta[id].timeout
                <==> exists i: nat :: j < i < k && LastWrite(log, i, k, id) && at <= log[i].lease.timeout)
            && (!Overwritten(log, j, k, id) ==>
                  (at <= s.meta[id].timeout
                   <==> exists i: nat :: j < i < k && WritesTo(log[i], id) && at <= log[i].lease.timeout))
  {
    hide Inv, Run, Records, Replay;
    RunInv(ss, n);
    RecordsOf(ss[n]);
    var s, log, id, at := ss[n], ss[n].log, ss[n].log[k].id, ss[n].log[m].at;
    assert Replay(s.base, log[..k]) == s.meta by {
      OtherStep(s.base, log, k);
    }
    OtherStep(s.base, log, j);
    FoundIsThere(s, j);
    if c: nat :| j < c < k && WritesTo(log[c], id) {
      var w := FindLastWrite(log, j + 1, k, id);
      LastWriteDecides(s, j, w, k, id, at);
    } else {
      Untouched(s.base, log, j + 1, k, id);
    }
  }

  lemma OtherStep(base: Table, log: seq<Event>, j: nat)
    requires j < |log| && !log[j].Wrote?
    ensures Replay(base, log[..j + 1]) == Replay(base, log[..j])
  {
    assert log[..j + 1][..j] == log[..j];
  }

  lemma FoundIsThere(s: State, j: nat)
    requires Records(s) && j < |s.log| && s.log[j].Read? && s.log[j].out.Found?
    ensures Admissible(Replay(s.base, s.log[..j]), s.log[j].id, s.log[j].out)
  {
    assert Fits(Replay(s.base, s.log[..j]), s.log[j]);
  }

  lemma LastWriteDecides(s: State, j: nat, w: nat, k: nat, id: string, at: int)
    requires Records(s) && j < w && LastWrite(s.log, w, k, id)
    ensures var table := Replay(s.base, s.log[..k]);
            && id in table
            && (at <= table[id].timeout
                <==> exists i: nat :: j < i < k && LastWrite(s.log, i, k, id) && at <= s.log[i].lease.timeout)
            && (!Overwritten(s.log, j, k, id) ==>
                  (at <= table[id].timeout
                   <==> exists i: nat :: j < i < k && WritesTo(s.log[i], id) && at <= s.log[i].lease.timeout))
  {
    LastWriteHolds(s.base, s.log, w, k, id);
    hide Records, Replay;
    assert forall i: nat :: j < i < k && LastWrite(s.log, i, k, id) ==> i == w;
    if !Overwritten(s.log, j, k, id) {
      LaterIsLonger(s, j, k, w, id);
    }
  }

  lemma LaterIsLonger(s: State, j: nat, k: nat, w: nat, id: string)
    requires Records(s) && j <= k <= |s.log| && LastWrite(s.log, w, k, id) && !Overwritten(s.log, j, k, id)
    ensures forall i: nat :: j <= i < k && WritesTo(s.log[i], id) ==> s.log[i].lease.timeout <= s.log[w].lease.timeout
  {
    LastWriteHolds(s.base, s.log, w, k, id);
    forall i: nat | j <= i < k && WritesTo(s.log[i], id) ensures s.log[i].lease.timeout <= s.log[w].lease.timeout {
      assert LastWrite(s.log, i, i + 1, id);
      LastWriteHolds(s.base, s.log, i, i + 1, id);
      assert !Overwritten(s.log, i + 1, k, id);
      hide Records;
      ReplayGrows(s, i + 1, k, id);
    }
  }

  lemma SpawnOf(s: State, k: nat, q: nat) returns (c: nat)
    requires Inv(s) && k < |s.log| && s.log[k].Stopped? && s.log[k].parent == Some(q)
    requires q in s.procs && s.procs[q].Sweep?
    ensures c < k && s.log[c] == Spawned(q, s.log[k].p, s.log[k].id)
  {
    hide Stores, Allocations, Rollbacks, Scans, ReadOnce, Records, Owners;
    assert Backed(s, s.log[..k], s.log[k]);
    c :| 0 <= c < k && s.log[c] == Spawned(q, s.log[k].p, s.log[k].id);
  }

  lemma SelectionOf(s: State, c: nat) returns (m: nat)
    requires Inv(s) && c < |s.log| && s.log[c].Spawned? && s.log[c].p in s.procs
    requires s.procs[s.log[c].p].Sweep? && s.procs[s.log[c].p].reaping
    ensures m < c && s.log[m].Selected? && s.log[m].p == s.log[c].p && s.log[m].id == s.log[c].id
  {
    hide Stores, Allocations, Rollbacks, Scans, ReadOnce, Records, Owners;
    assert Backed(s, s.log[..c], s.log[c]);
    var sel :| sel in s.log[..c] && sel.Selected? && sel.p == s.log[c].p && sel.id == s.log[c].id;
    m :| 0 <= m < c && s.log[m] == sel;
  }

  lemma ReadOf(s: State, m: nat) returns (j: nat)
    requires Inv(s) && m < |s.log| && s.log[m].Selected?
    ensures j < m && s.log[j] == Read(s.log[m].p, s.log[m].id, s.log[m].out) && Selects(s.log[m].out, s.log[m].at)
  {
    hide Stores, Allocations, Rollbacks, Scans, ReadOnce, Records, Owners;
    assert Backed(s, s.log[..m], s.log[m]);
    j :| 0 <= j < m && s.log[j] == Read(s.log[m].p, s.log[m].id, s.log[m].out);
  }

  lemma LeasesOf(s: State, j: nat, m: nat)
    requires Inv(s) && j < m < |s.log| && s.log[j].Read? && s.log[m].Selected?
    requires Selects(s.log[j].out, s.log[m].at)
    ensures s.log[j].out.Found? ==>
              forall i :: 0 <= i < j && WritesTo(s.log[i], s.log[j].id) ==>
                s.log[i].lease.timeout < s.log[m].at || Overwritten(s.log, i + 1, j, s.log[j].id)
  {
    RecordsOf(s);
    hide Inv, Records;
    if s.log[j].out.Found? {
      forall i | 0 <= i < j && WritesTo(s.log[i], s.log[j].id) && !Overwritten(s.log, i + 1, j, s.log[j].id)
        ensures s.log[i].lease.timeout < s.log[m].at
      {
        WrittenIsRead(s, i, j);
      }
    }
  }

  lemma {:induction false} LogsExtend(ss: seq<State>, i: nat, j: nat)
    requires Run(ss) && i <= j < |ss|
    ensures ss[i].log <= ss[j].log && ss[j].base == ss[i].base && ss[i].meta.Keys <= ss[j].meta.Keys
    decreases j
  {
    hide Run;
    if i < j {
      LogsExtend(ss, i, j - 1);
      RunGrows(ss, j);
    }
  }

  /** In every run, records are never lost, and no recorded lease gets shorter unless it is overwritten blindly. */
  lemma LeasesNeverDecrease(ss: seq<State>, i: nat, j: nat, id: string)
    requires Run(ss) && i <= j < |ss| && id in ss[i].meta
    ensures id in ss[j].meta
    ensures ss[i].meta[id].timeout <= ss[j].meta[id].timeout
            || Overwritten(ss[j].log, |ss[i].log|, |ss[j].log|, id)
  {
    LogsExtend(ss, i, j);
    RunInv(ss, i);
    RunInv(ss, j);
    RecordsOf(ss[i]);
    RecordsOf(ss[j]);
    hide Run, Inv, Records;
    var n := |ss[i].log|;
    assert ss[j].log[..n] == ss[i].log;
    if !Overwritten(ss[j].log, n, |ss[j].log|, id) {
      RecordsKeepGrowing(ss[j], n, id);
    }
  }

  lemma RecordsKeepGrowing(s: State, n: nat, id: string)
    requires Records(s) && n <= |s.log| && id in Replay(s.base, s.log[..n]) && !Overwritten(s.log, n, |s.log|, id)
    ensures id in s.meta && Replay(s.base, s.log[..n])[id].timeout <= s.meta[id].timeout
  {
    ReplayGrows(s, n, |s.log|, id);
    assert s.log[..|s.log|] == s.log;
  }

  /** A step shortens a lease exactly if it is a blind write of an earlier one. */
  lemma OnlyOverwritesShorten(ss: seq<State>, i: nat, id: string)
    requires Run(ss) && 0 < i < |ss| && id in ss[i - 1].meta
    ensures id in ss[i].meta
    ensures ss[i].meta[id].timeout < ss[i - 1].meta[id].timeout <==>
            && |ss[i].log| > |ss[i - 1].log|
            && var e := ss[i].log[|ss[i - 1].log|];
               WritesTo(e, id) && e.blind && e.lease.timeout < ss[i - 1].meta[id].timeout
  {
    hide Run, Inv, Records, WritesTo, Grows, LogGrows;
    RunGrows(ss, i);
    RunInv(ss, i - 1);
    RunInv(ss, i);
    RecordsOf(ss[i - 1]);
    RecordsOf(ss[i]);
    LogOf(ss[i - 1], ss[i]);
    StepShortens(ss[i - 1], ss[i], id);
  }

  lemma StepShortens(s: State, s': State, id: string)
    requires Records(s) && Records(s') && LogGrows(s, s') && s'.base == s.base && id in s.meta
    ensures id in s'.meta
    ensures s'.meta[id].timeout < s.meta[id].timeout <==>
            && |s'.log| > |s.log|
            && var e := s'.log[|s.log|];
               WritesTo(e, id) && e.blind && e.lease.timeout < s.meta[id].timeout
  {
    if |s'.log| > |s.log| {
      assert s'.log[..|s.log|] == s.log;
      assert Fits(Replay(s'.base, s'.log[..|s.log|]), s'.log[|s.log|]);
    }
  }

  // ---------- Registration ----------

  /** The branches for unregistered clusters are dead: whatever a scan lists has a record, so reads fail
      only by storage faults, and a refresh that decides to insert a record never inserts one. */
  lemma DefaultsAreUnreachable(ss: seq<State>, i: nat, p: nat)
    requires Run(ss) && i < |ss|
    ensures IsReading(ss[i], p) ==> Ids(ScanOf(ss[i].procs[p]).value.listing) <= ss[i].meta.Keys
    ensures IsWriting(ss[i], p) ==>
              var proc := ss[i].procs[p];
              && RefreshRecord(ss[i].meta, proc.id, proc.ctx.user, proc.refresh.deadline).Ok?
              && (proc.refresh.create ==> Transaction(ss[i].meta, proc).Err?)
  {
    RunInv(ss, i);
    var s := ss[i];
    hide Inv, Allocations;
    StoresOf(s);
    if p in s.procs {
      Local(s, p);
      hide WorkersOk, RollbackOk, Stores;
      if IsReading(s, p) {
        var listing := ScanOf(s.procs[p]).value.listing;
        forall id | id in Ids(listing) ensures id in s.meta {
          ShownIsRegistered(s, listing, id);
        }
      }
    }
  }

  /** Unless ids have clashed, a cluster id is issued by at most one allocation, and all containers that ever
      carried it were created for that allocation's user. */
  lemma OneAllocationPerCluster(ss: seq<State>, i: nat, p: nat, cid: string)
    requires Run(ss) && i < |ss| && p in ss[i].procs && Registered(ss[i].procs[p])
    ensures !ss[i].clashed ==> forall q <- ss[i].procs ::
              Registered(ss[i].procs[q]) && ss[i].procs[q].id == ss[i].procs[p].id ==> q == p
    ensures !ss[i].clashed && cid in ss[i].issued && ss[i].issued[cid].cluster == ss[i].procs[p].id ==>
              ss[i].issued[cid].creator == ss[i].procs[p].ctx.user
  {
    RunInv(ss, i);
    hide Inv, Stores;
    StoresOf(ss[i]);
  }

  // ---------- All or nothing ----------

  ghost function IssuedFor(s: State, id: string): set<string> {
    set k <- s.issued | s.issued[k].cluster == id
  }

  ghost function RunningFor(s: State, id: string): set<string> {
    set k <- s.containers | s.containers[k].cluster == id && Running(s.containers[k])
  }

  ghost function CidSet(ws: seq<Worker>): set<string> {
    set w <- ws | CidOf(w).Some? :: CidOf(w).value
  }

  lemma {:induction false} DistinctCids(ws: seq<Worker>)
    requires forall w :: 0 <= w < |ws| ==> CidOf(ws[w]).Some?
    requires forall w, v :: 0 <= w < v < |ws| ==> CidOf(ws[w]) != CidOf(ws[v])
    ensures |CidSet(ws)| == |ws|
  {
    if ws != [] {
      var last := |ws| - 1;
      DistinctCids(ws[..last]);
      assert ws == ws[..last] + [ws[last]];
      assert CidSet(ws) == CidSet(ws[..last]) + {CidOf(ws[last]).value};
      assert CidOf(ws[last]).value !in CidSet(ws[..last]);
    }
  }

  /** A successful allocation has made exactly as many containers as asked for; each one runs unless a kill has
      stopped it, so without a kill of the cluster they all run; and unless ids have clashed, they are all that
      there ever were of the cluster. */
  lemma SuccessfulAllocation(ss: seq<State>, i: nat, p: nat)
    requires Run(ss) && i < |ss| && p in ss[i].procs && ss[i].procs[p].Allocation? && ss[i].procs[p].alloc.Allocated?
    ensures Accomplished(ss[i], ss[i].procs[p], CidSet(ss[i].procs[p].workers))
  {
    RunInv(ss, i);
    AllocatedRuns(ss[i], p);
  }

  ghost predicate Accomplished(s: State, proc: Proc, made: set<string>)
    requires proc.Allocation?
  {
    && |made| == proc.count && made <= IssuedFor(s, proc.id)
    && (!s.clashed ==> made == IssuedFor(s, proc.id))
    && (forall k <- made :: k in RunningFor(s, proc.id) || WasStopped(s.log, k))
    && ((forall e <- s.log :: e.Stopped? ==> e.id != proc.id) ==>
          made <= RunningFor(s, proc.id) && (!s.clashed ==> RunningFor(s, proc.id) == made))
  }

  lemma AllocatedRuns(s: State, p: nat)
    requires Inv(s) && p in s.procs && s.procs[p].Allocation? && s.procs[p].alloc.Allocated?
    ensures Accomplished(s, s.procs[p], CidSet(s.procs[p].workers))
  {
    hide Inv, Allocations;
    Local(s, p);
    StoresOf(s);
    var proc := s.procs[p];
    var ws := proc.workers;
    forall w | 0 <= w < |ws| ensures CidOf(ws[w]).Some? {
      assert HasStarted(ws[w]);
    }
    DistinctCids(ws);
    var made := CidSet(ws);
    forall k | k in made ensures k in RunningFor(s, proc.id) || WasStopped(s.log, k) {}
    if forall e <- s.log :: e.Stopped? ==> e.id != proc.id {
      forall k | k in made ensures k in RunningFor(s, proc.id) {
        if WasStopped(s.log, k) {
          StoppedBelongs(s, k);
        }
      }
      assert RunningFor(s, proc.id) <= IssuedFor(s, proc.id);
    }
  }

  lemma StoppedBelongs(s: State, cid: string)
    requires Inv(s) && WasStopped(s.log, cid)
    ensures exists e <- s.log :: e.Stopped? && e.cid == cid && cid in s.issued && e.id == s.issued[cid].cluster
  {
    hide Inv;
    var e :| e in s.log && e.Stopped? && e.cid == cid;
    var k :| 0 <= k < |s.log| && s.log[k] == e;
    StopIsAuthorised(s, k);
  }

  /** When an allocation has failed and been rolled back, nothing of its cluster runs, except what the rollback
      tried and failed to stop; or it could not list the containers; or it was refused; or ids have clashed.  It is
      refused exactly if the record, as its own scan read it, names another owner, and then that read has failed or
      somebody else has written the record before it. */
  lemma FailedAllocation(ss: seq<State>, i: nat, p: nat)
    requires Run(ss) && i < |ss| && p in ss[i].procs && ss[i].procs[p].Allocation? && ss[i].procs[p].alloc.RolledBack?
    ensures var s, proc, k := ss[i], ss[i].procs[p], ss[i].procs[p].alloc.kill;
            && Finished(s.procs, k)
            && var result := s.procs[k].kill.result;
               && (!s.clashed ==> LeavesAtMost(s, proc.id, result))
               && (!s.clashed && result.NotFound? ==>
                     exists listing :: Listed(k, listing) in s.log && proc.id !in Ids(listing))
               && (!result.ListFailed? && !result.NotFound? ==>
                     exists j :: 0 <= j < |s.log| && Decides(s, j, k, proc.id, proc.ctx, result))
  {
    hide Inv, Run, WorkersOk, RollbackOk, ScanOk, RunningFor, Decides;
    RunInv(ss, i);
    var s := ss[i];
    var k := s.procs[p].alloc.kill;
    Local(s, p);
    RollbackLeaves(s, p);
    var result := s.procs[k].kill.result;
    if result.NotFound? && !s.clashed {
      RollbackFoundNothing(s, p);
    } else if !result.ListFailed? && !result.NotFound? {
      RollbackDecided(s, p);
    }
  }

  /** What a kill with this result may leave running of its cluster. */
  ghost predicate LeavesAtMost(s: State, id: string, result: KillResult) {
    match result
    case Killed => RunningFor(s, id) == {}
    case NotFound => RunningFor(s, id) == {}
    case StopFailed(failed) => RunningFor(s, id) <= failed
    case NotOwner => true
    case ListFailed => true
  }

  lemma RollbackLeaves(s: State, p: nat)
    requires Inv(s) && p in s.procs && s.procs[p].Allocation? && s.procs[p].alloc.RolledBack?
    ensures Finished(s.procs, s.procs[p].alloc.kill)
    ensures !s.clashed ==> LeavesAtMost(s, s.procs[p].id, s.procs[s.procs[p].alloc.kill].kill.result)
  {
    hide Inv, WorkersOk, ScanOk;
    Local(s, p);
  }

  /** Entry j of the log is the read of the record by the rollback k, and it decides the result. */
  ghost predicate Decides(s: State, j: int, k: nat, id: string, ctx: Ctx, result: KillResult)
    requires 0 <= j < |s.log|
  {
    var e := s.log[j];
    && e.Read? && e.p == k && e.id == id
    && (result.NotOwner? <==> !ctx.ignoreOwnership && ViewOf(e.out).owner != ctx.user)
    && (result.NotOwner? && e.out.Found? && !s.clashed ==> TakenOver(s.log[..j], id, ctx.user))
  }

  lemma RollbackFoundNothing(s: State, p: nat)
    requires Inv(s) && p in s.procs && HasFailed(s.procs[p]) && !s.clashed
    requires var k := s.procs[p].alloc.kill; k in s.procs && s.procs[k].Kill? && s.procs[k].kill == KillDone(NotFound)
    ensures exists listing :: Listed(s.procs[p].alloc.kill, listing) in s.log && s.procs[p].id !in Ids(listing)
  {
    var k := s.procs[p].alloc.kill;
    hide Inv, WorkersOk, RollbackOk;
    Local(s, p);
    Local(s, k);
    var listing :| Listed(k, listing) in s.log && Genuine(s, listing)
                   && (s.procs[k].id !in Ids(listing) || !Visible(s.procs[k].ctx, listing, s.procs[k].id));
    if s.procs[p].id in Ids(listing) {
      RollbackSees(s, p, listing);
    }
  }

  lemma RollbackDecided(s: State, p: nat)
    requires Inv(s) && p in s.procs && HasFailed(s.procs[p])
    requires var k := s.procs[p].alloc.kill;
             && k in s.procs && s.procs[k].Kill? && s.procs[k].kill.KillDone?
             && !s.procs[k].kill.result.ListFailed? && !s.procs[k].kill.result.NotFound?
    ensures var k := s.procs[p].alloc.kill;
            exists j :: 0 <= j < |s.log| && Decides(s, j, k, s.procs[p].id, s.procs[p].ctx, s.procs[k].kill.result)
  {
    hide Inv, WorkersOk, RollbackOk, Owners;
    var k := s.procs[p].alloc.kill;
    Local(s, p);
    Local(s, k);
    var out :| Read(k, s.procs[k].id, out) in s.log
               && (s.procs[k].kill.result.NotOwner? <==> Refused(s.procs[k].ctx, out));
    hide ScanOk;
    var j :| 0 <= j < |s.log| && s.log[j] == Read(k, s.procs[k].id, out);
    OwnersOf(s);
    OthersWrote(s, p, j);
    assert Decides(s, j, k, s.procs[p].id, s.procs[p].ctx, s.procs[k].kill.result);
  }

  lemma OthersWrote(s: State, p: nat, j: nat)
    requires Owners(s) && p in s.procs && Registered(s.procs[p]) && j < |s.log| && s.log[j].Read?
    requires s.log[j].id == s.procs[p].id
    ensures s.log[j].out.Found? && !s.clashed && s.log[j].out.lease.owner != s.procs[p].ctx.user ==>
              TakenOver(s.log[..j], s.procs[p].id, s.procs[p].ctx.user)
  {}

  lemma OwnersOf(s: State)
    requires Inv(s)
    ensures Owners(s)
  {
    hide Stores, Allocations, Rollbacks, Scans, Causal, ReadOnce, Records, Owners;
  }
}
