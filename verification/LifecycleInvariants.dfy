/** What every reachable state of the lifecycle keeps. */
module LifecycleInvariants {
  import opened Basics
  import opened Leases
  import opened Clusters
  import opened Lifecycle

  // ---------- The two stores ----------

  predicate SameLabels(c: Container, d: Container) {
    c.id == d.id && c.cluster == d.cluster && c.creator == d.creator
  }

  /** Every labelled container has a record, and, without a clash, all containers of a cluster name one creator. */
  ghost predicate Stores(s: State) {
    && (forall k <- s.containers :: k in s.issued && SameLabels(s.containers[k], s.issued[k]))
    && (forall k <- s.issued :: s.issued[k].id == k)
    && (forall k <- s.issued :: s.issued[k].cluster != "" ==>
          s.issued[k].cluster in s.meta && s.issued[k].creator != "")
    && (s.clashed || forall k <- s.issued, l <- s.issued ::
          s.issued[k].cluster == s.issued[l].cluster != "" ==> s.issued[k].creator == s.issued[l].creator)
    && WholeSeconds(s.meta)
  }

  // ---------- Allocations ----------

  predicate Registered(proc: Proc) {
    proc.Allocation? && !proc.alloc.Registering? && !proc.alloc.Rejected?
  }

  function CidOf(w: Worker): Option<string> {
    match w
    case Idle => None
    case Made(cid) => Some(cid)
    case Started(cid) => Some(cid)
    case Ended(made, _) => made
  }

  predicate HasStarted(w: Worker) { w.Started? || (w.Ended? && w.ok) }

  ghost predicate WasStopped(log: seq<Event>, cid: string) {
    exists e <- log :: e.Stopped? && e.cid == cid
  }

  ghost predicate IsRunning(s: State, cid: string) { cid in s.containers && Running(s.containers[cid]) }

  ghost predicate Held(ws: seq<Worker>, cid: string) {
    exists w :: 0 <= w < |ws| && CidOf(ws[w]) == Some(cid)
  }

  /** Without a clash, the containers of a registered cluster are exactly those its allocation's workers made. */
  ghost predicate WorkersOk(s: State, proc: Proc)
    requires proc.Allocation?
  {
    var ws := proc.workers;
    && |ws| == proc.count
    && (!proc.alloc.FanOut? && !proc.alloc.RollingBack? && !proc.alloc.RolledBack? && !proc.alloc.Allocated? ==>
          forall w :: 0 <= w < |ws| ==> ws[w].Idle?)
    && (forall w :: 0 <= w < |ws| && CidOf(ws[w]).Some? ==>
          CidOf(ws[w]).value in s.issued && s.issued[CidOf(ws[w]).value].cluster == proc.id)
    && (forall w, v :: 0 <= w < v < |ws| && CidOf(ws[w]).Some? ==> CidOf(ws[w]) != CidOf(ws[v]))
    && (forall w :: 0 <= w < |ws| && HasStarted(ws[w]) ==>
          CidOf(ws[w]).Some? && (IsRunning(s, CidOf(ws[w]).value) || WasStopped(s.log, CidOf(ws[w]).value)))
    && (Registered(proc) ==>
          && proc.id in s.meta && proc.id != "" && proc.ctx.user != ""
          && (s.clashed || forall k <- s.issued :: s.issued[k].cluster == proc.id ==>
                s.issued[k].creator == proc.ctx.user && Held(ws, k)))
    && (proc.alloc.Registering? ==> proc.id != "" && proc.ctx.user != "")
    && (proc.alloc.RollingBack? || proc.alloc.RolledBack? ==> AllEnded(ws))
    && (proc.alloc.Allocated? ==> AllOk(ws))
  }

  ghost predicate Allocations(s: State) {
    && (forall p <- s.procs :: s.procs[p].Allocation? ==> WorkersOk(s, s.procs[p]))
    && (s.clashed || forall p <- s.procs, q <- s.procs ::
          Registered(s.procs[p]) && Registered(s.procs[q]) && s.procs[p].id == s.procs[q].id ==> p == q)
  }

  // ---------- Rollbacks ----------

  /** The listing has this container, with this cluster label. */
  ghost predicate Shows(listing: seq<Container>, cid: string, id: string) {
    exists c <- listing :: c.id == cid && c.cluster == id
  }

  /** Whatever runs of this cluster is one of these containers. */
  ghost predicate RunningWithin(s: State, id: string, cids: set<string>) {
    forall k <- s.containers :: IsRunning(s, k) && s.containers[k].cluster == id ==> k in cids
  }

  /** How far the kill of a failed allocation has got in hand all that still runs. */
  ghost predicate RollbackOk(s: State, kill: Proc)
    requires kill.Kill?
  {
    s.clashed ||
    match kill.kill
    case KillScan(Listing) => true
    case KillScan(Reading(listing, _)) =>
      forall k <- s.containers :: IsRunning(s, k) && s.containers[k].cluster == kill.id ==>
        Shows(listing, k, kill.id)
    case Stopping(_, _, todo, failed) => RunningWithin(s, kill.id, todo + failed)
    case KillDone(Killed) => RunningWithin(s, kill.id, {})
    case KillDone(NotFound) => RunningWithin(s, kill.id, {})
    case KillDone(StopFailed(failed)) => RunningWithin(s, kill.id, failed)
    case KillDone(_) => true
  }

  /** The kill that allocation p started for itself. */
  predicate KillFor(alloc: Proc, p: nat, kill: Proc) {
    kill.Kill? && alloc.Allocation? && kill.parent == Some(p) && kill.ctx == alloc.ctx && kill.id == alloc.id
  }

  ghost predicate Rollbacks(s: State) {
    && (forall p <- s.procs :: HasFailed(s.procs[p]) ==>
          var k := s.procs[p].alloc.kill;
          && k in s.procs && KillFor(s.procs[p], p, s.procs[k])
          && RollbackOk(s, s.procs[k])
          && (s.procs[p].alloc.RolledBack? ==> s.procs[k].kill.KillDone?))
  }

  // ---------- Scans ----------

  /** A listing a process still holds shows only containers that were really issued. */
  ghost predicate Genuine(s: State, listing: seq<Container>) {
    forall c <- listing :: c.id in s.issued && SameLabels(c, s.issued[c.id])
  }

  ghost predicate ReadsLogged(s: State, p: nat, outs: map<string, Outcome>) {
    forall id <- outs :: Read(p, id, outs[id]) in s.log
  }

  ghost predicate WasSelected(log: seq<Event>, p: nat, id: string) {
    exists e <- log :: e.Selected? && e.p == p && e.id == id
  }

  /** The kill's own scan entitles its caller to stop the containers of the cluster. */
  predicate Entitled(ctx: Ctx, id: string, listing: seq<Container>, out: Outcome) {
    ctx.ignoreOwnership || (CreatorOf(listing, id) == ctx.user && ViewOf(out).owner == ctx.user)
  }

  /** The ownership test turns the caller away (daemon/clusters.go:300). */
  predicate Refused(ctx: Ctx, out: Outcome) {
    !ctx.ignoreOwnership && ViewOf(out).owner != ctx.user
  }

  /** The kill's own listing has nothing of the target that its caller may see. */
  ghost predicate FoundNothing(s: State, p: nat, proc: Proc)
    requires proc.Kill?
  {
    exists listing :: Listed(p, listing) in s.log && Genuine(s, listing)
                      && (proc.id !in Ids(listing) || !Visible(proc.ctx, listing, proc.id))
  }

  ghost predicate ScanOk(s: State, p: nat, proc: Proc) {
    && (ScanOf(proc).Some? && ScanOf(proc).value.Reading? ==>
          var Reading(listing, outs) := ScanOf(proc).value;
          && Listed(p, listing) in s.log && Genuine(s, listing)
          && outs.Keys <= Ids(listing) && ReadsLogged(s, p, outs))
    && (proc.Kill? && proc.kill.Stopping? ==>
          var Stopping(listing, out, todo, _) := proc.kill;
          && Listed(p, listing) in s.log && Genuine(s, listing) && Read(p, proc.id, out) in s.log
          && (forall k <- todo :: Shows(listing, k, proc.id))
          && Entitled(proc.ctx, proc.id, listing, out) && proc.id != "")
    && (proc.Kill? && proc.kill.KillDone? && !proc.kill.result.ListFailed? ==>
          if proc.kill.result.NotFound? then FoundNothing(s, p, proc)
          else exists out :: Read(p, proc.id, out) in s.log && (proc.kill.result.NotOwner? <==> Refused(proc.ctx, out)))
    && (proc.Kill? && proc.parent.Some? ==>
          proc.parent.value in s.procs &&
          var q := s.procs[proc.parent.value];
          && proc.ctx == q.ctx
          && (q.Sweep? ==> Spawned(proc.parent.value, p, proc.id) in s.log))
    && (proc.Refresh? && (proc.refresh.Probing? || proc.refresh.Writing?) ==> proc.id in s.meta)
    && (proc.Sweep? ==>
          && (proc.reaping ==> proc.ctx == SYSTEM)
          && match proc.sweep
             case SweepScan(_) => true
             case Comparing(outs, pending, chosen) =>
               && proc.reaping && pending <= outs.Keys && ReadsLogged(s, p, outs)
               && forall id <- chosen :: WasSelected(s.log, p, id)
             case Killing(pending, _) =>
               proc.reaping ==> forall id <- pending :: WasSelected(s.log, p, id)
             case SweepDone(_) => true)
  }

  ghost predicate Scans(s: State) {
    forall p <- s.procs :: ScanOk(s, p, s.procs[p])
  }

  // ---------- The log ----------

  /** What an event needs to have happened before it. */
  ghost predicate Backed(s: State, before: seq<Event>, e: Event) {
    match e
    case Stopped(p, parent, ctx, id, cid, _) =>
      && id != "" && cid in s.issued && s.issued[cid].cluster == id
      && (exists listing, out :: && Listed(p, listing) in before && Read(p, id, out) in before
                                 && Shows(listing, cid, id) && Entitled(ctx, id, listing, out))
      && p in s.procs && s.procs[p].Kill? && s.procs[p].ctx == ctx && s.procs[p].id == id && s.procs[p].parent == parent
      && (parent.Some? ==>
            && parent.value in s.procs
            && (s.procs[parent.value].Sweep? ==> Spawned(parent.value, p, id) in before))
    case Spawned(p, child, id) =>
      p in s.procs && s.procs[p].Sweep? && (s.procs[p].reaping ==> WasSelected(before, p, id))
    case Selected(p, id, out, at) => Read(p, id, out) in before && ViewOf(out).timeout < at
    case Listed(p, listing) => Genuine(s, listing)
    case _ => true
  }

  ghost predicate Causal(s: State) {
    forall i :: 0 <= i < |s.log| ==> Backed(s, s.log[..i], s.log[i])
  }

  /** A scan reads a record at most once. */
  ghost predicate ReadOnce(s: State) {
    && (forall i :: 0 <= i < |s.log| && s.log[i].Read? ==>
          var p := s.log[i].p;
          && p in s.procs
          && (ScanOf(s.procs[p]).Some? ==>
                ScanOf(s.procs[p]).value.Reading? && s.log[i].id in ScanOf(s.procs[p]).value.outs))
    && (forall i, j :: 0 <= i < j < |s.log| && s.log[i].Read? && s.log[j].Read? ==>
          s.log[i].p != s.log[j].p || s.log[i].id != s.log[j].id)
  }

  /** The table that the writes of a log make of another one. */
  function Replay(base: Table, log: seq<Event>): Table {
    if log == [] then base
    else
      Apply(Replay(base, log[..|log| - 1]), log[|log| - 1])
  }

  function Apply(table: Table, e: Event): Table {
    if e.Wrote? then table[e.id := e.lease] else table
  }

  /** An event fits the table it meets: a read finds what is there, and only a blind write shortens a lease. */
  predicate Fits(before: Table, e: Event) {
    && (e.Read? ==> Admissible(before, e.id, e.out))
    && (e.Wrote? && !e.blind && e.id in before ==> before[e.id].timeout <= e.lease.timeout)
  }

  /** The metadata store is what its log says, and every event fits what was there when it happened. */
  ghost predicate Records(s: State) {
    && s.meta == Replay(s.base, s.log)
    && forall i :: 0 <= i < |s.log| ==> Fits(Replay(s.base, s.log[..i]), s.log[i])
  }

  /** Somebody else has written this record. */
  ghost predicate TakenOver(log: seq<Event>, id: string, user: string) {
    exists e <- log :: e.Wrote? && e.id == id && e.lease.owner != user
  }

  /** An allocated cluster belongs to the user who allocated it until another one's refresh takes it over. */
  ghost predicate Owners(s: State) {
    && (forall e <- s.log :: e.Read? && e.out.Found? ==> e.id in s.meta)
    && (s.clashed || forall p <- s.procs :: Registered(s.procs[p]) ==>
          var id, user := s.procs[p].id, s.procs[p].ctx.user;
          && id in s.meta && (s.meta[id].owner == user || TakenOver(s.log, id, user))
          && forall i :: 0 <= i < |s.log| && s.log[i].Read? && s.log[i].id == id && s.log[i].out.Found? ==>
               s.log[i].out.lease.owner == user || TakenOver(s.log[..i], id, user))
  }

  ghost predicate Inv(s: State) {
    && Stores(s) && Allocations(s) && Rollbacks(s) && Scans(s)
    && Causal(s) && ReadOnce(s) && Records(s) && Owners(s)
  }

  lemma InitInv(s: State)
    requires Init(s)
    ensures Inv(s)
  {}

  // ---------- What every step does at most ----------

  predicate SameIdentity(a: Proc, b: Proc) {
    match a
    case Allocation(ctx, count, id, deadline, _, _) =>
      b.Allocation? && b.ctx == ctx && b.count == count && b.id == id && b.deadline == deadline
    case Refresh(ctx, id, extension, _) => b.Refresh? && b.ctx == ctx && b.id == id && b.extension == extension
    case Kill(ctx, id, parent, _) => b.Kill? && b.ctx == ctx && b.id == id && b.parent == parent
    case Sweep(ctx, reaping, _) => b.Sweep? && b.ctx == ctx && b.reaping == reaping
  }

  ghost predicate LogGrows(s: State, s': State) {
    s'.log == s.log || (|s'.log| == |s.log| + 1 && s'.log == s.log + [s'.log[|s.log|]])
  }

  /** Nothing that was ever recorded is lost, and a container stops running only by a logged stop. */
  ghost predicate Grows(s: State, s': State) {
    && LogGrows(s, s')
    && (forall k <- s.issued :: k in s'.issued && s'.issued[k] == s.issued[k])
    && s'.base == s.base && s.meta.Keys <= s'.meta.Keys && (s.clashed ==> s'.clashed)
    && (forall q <- s.procs :: q in s'.procs && SameIdentity(s.procs[q], s'.procs[q]))
    && (forall k <- s.containers :: IsRunning(s, k) ==> IsRunning(s', k) || WasStopped(s'.log, k))
  }

  ghost predicate Touches(s: State, s': State, p: nat) {
    && s'.procs.Keys == s.procs.Keys + {p}
    && forall q <- s.procs :: q != p ==> s'.procs[q] == s.procs[q]
  }

  lemma StoresFrame(s: State, s': State)
    requires Stores(s) && s'.containers == s.containers && s'.issued == s.issued && s'.meta == s.meta
    requires s.clashed ==> s'.clashed
    ensures Stores(s')
  {}

  lemma ScanOkGrows(s: State, s': State, p: nat, proc: Proc)
    requires Grows(s, s') && ScanOk(s, p, proc)
    ensures ScanOk(s', p, proc)
  {
    forall e | e in s.log ensures e in s'.log {}
  }

  lemma ScansFrame(s: State, s': State, p: nat)
    requires Scans(s) && Grows(s, s') && Touches(s, s', p)
    requires ScanOk(s', p, s'.procs[p])
    ensures Scans(s')
  {
    forall q | q in s'.procs ensures ScanOk(s', q, s'.procs[q]) {
      if q != p {
        ScanOkGrows(s, s', q, s.procs[q]);
      }
    }
  }

  lemma BackedGrows(s: State, s': State, before: seq<Event>, e: Event)
    requires Grows(s, s') && Backed(s, before, e)
    ensures Backed(s', before, e)
  {}

  lemma CausalFrame(s: State, s': State)
    requires Causal(s) && Grows(s, s')
    requires |s'.log| > |s.log| ==> Backed(s', s.log, s'.log[|s.log|])
    ensures Causal(s')
  {
    forall i | 0 <= i < |s'.log| ensures Backed(s', s'.log[..i], s'.log[i]) {
      if i < |s.log| {
        assert s'.log[..i] == s.log[..i];
        BackedGrows(s, s', s.log[..i], s.log[i]);
      } else {
        assert s'.log[..i] == s.log;
      }
    }
  }

  lemma WorkersOkGrows(s: State, s': State, proc: Proc)
    requires proc.Allocation? && WorkersOk(s, proc) && Grows(s, s')
    requires Registered(proc) && !s'.clashed ==>
               forall k <- s'.issued :: k !in s.issued ==> s'.issued[k].cluster != proc.id
    ensures WorkersOk(s', proc)
  {
    forall c | WasStopped(s.log, c) ensures WasStopped(s'.log, c) {
      var e :| e in s.log && e.Stopped? && e.cid == c;
      assert e in s'.log;
    }
  }

  lemma WorkerMoves(s: State, s': State, proc: Proc, w: nat, worker: Worker)
    requires proc.Allocation? && WorkersOk(s, proc) && proc.alloc.FanOut? && w < |proc.workers|
    requires s'.containers == s.containers && s'.issued == s.issued && s'.meta == s.meta && LogGrows(s, s')
    requires s'.clashed == s.clashed
    requires CidOf(worker) == CidOf(proc.workers[w]) && (HasStarted(worker) ==> HasStarted(proc.workers[w]))
    ensures WorkersOk(s', SetWorker(proc, w, worker))
  {
    var ws := proc.workers[w := worker];
    forall c | WasStopped(s.log, c) ensures WasStopped(s'.log, c) {
      var e :| e in s.log && e.Stopped? && e.cid == c;
      assert e in s'.log;
    }
    forall k | Held(proc.workers, k) ensures Held(ws, k) {
      var v :| 0 <= v < |proc.workers| && CidOf(proc.workers[v]) == Some(k);
      assert CidOf(ws[v]) == Some(k);
    }
  }

  /** Only a registered allocation issues containers, and only under its own id. */
  ghost predicate IssuedBy(s: State, s': State, p: nat)
    requires p in s'.procs
  {
    s'.issued == s.issued
    || (p in s.procs && Registered(s.procs[p]) && Registered(s'.procs[p]) && s'.procs[p].id == s.procs[p].id
        && forall k <- s'.issued :: k !in s.issued ==> s'.issued[k].cluster == s'.procs[p].id)
  }

  lemma AllocationsFrame(s: State, s': State, p: nat)
    requires Allocations(s) && Grows(s, s') && Touches(s, s', p) && IssuedBy(s, s', p)
    requires s'.procs[p].Allocation? ==> WorkersOk(s', s'.procs[p])
    requires Registered(s'.procs[p]) && !s'.clashed ==>
               (p in s.procs && Registered(s.procs[p])) || s'.procs[p].id !in s.meta
    ensures Allocations(s')
  {
    forall q | q in s'.procs && q != p && s'.procs[q].Allocation? ensures WorkersOk(s', s'.procs[q]) {
      assert WorkersOk(s, s.procs[q]);
      WorkersOkGrows(s, s', s.procs[q]);
    }
  }

  /** Containers of this cluster never begin to run again. */
  ghost predicate NoneWoken(s: State, s': State, id: string) {
    forall k <- s'.containers :: IsRunning(s', k) && s'.containers[k].cluster == id ==>
      IsRunning(s, k) && s.containers[k].cluster == id
  }

  lemma RollbackOkFrame(s: State, s': State, kill: Proc)
    requires kill.Kill? && RollbackOk(s, kill) && (s.clashed ==> s'.clashed)
    requires !s'.clashed ==> NoneWoken(s, s', kill.id)
    ensures RollbackOk(s', kill)
  {}

  predicate IsRollbackOf(alloc: Proc, k: nat) {
    alloc.Allocation? && (alloc.alloc.RollingBack? || alloc.alloc.RolledBack?) && alloc.alloc.kill == k
  }

  predicate HasFailed(proc: Proc) {
    proc.Allocation? && (proc.alloc.RollingBack? || proc.alloc.RolledBack?)
  }

  /** If p is a rollback, it is still a proper one. */
  ghost predicate StillRolling(s: State, s': State, p: nat) {
    forall q <- s.procs :: IsRollbackOf(s.procs[q], p) ==>
      && p in s.procs && s.procs[p].Kill? && p in s'.procs && s'.procs[p].Kill? && RollbackOk(s', s'.procs[p])
      && (s.procs[p].kill.KillDone? ==> s'.procs[p].kill.KillDone?)
  }

  /** If p has a rollback, that is a proper one. */
  ghost predicate RollsProperly(s: State, s': State, p: nat) {
    p in s'.procs && HasFailed(s'.procs[p]) ==>
      var k := s'.procs[p].alloc.kill;
      && k in s.procs && k != p && KillFor(s'.procs[p], p, s.procs[k]) && RollbackOk(s', s.procs[k])
      && (s'.procs[p].alloc.RolledBack? ==> s.procs[k].kill.KillDone?)
  }

  lemma RollbacksFrame(s: State, s': State, p: nat)
    requires Rollbacks(s) && Touches(s, s', p) && (s.clashed ==> s'.clashed)
    requires p in s.procs ==> SameIdentity(s.procs[p], s'.procs[p])
    requires forall q <- s.procs :: HasFailed(s.procs[q]) && !s'.clashed ==> NoneWoken(s, s', s.procs[q].id)
    requires StillRolling(s, s', p) && RollsProperly(s, s', p)
    ensures Rollbacks(s')
  {
    forall q | q in s'.procs && HasFailed(s'.procs[q])
      ensures var k := s'.procs[q].alloc.kill;
              && k in s'.procs && KillFor(s'.procs[q], q, s'.procs[k])
              && RollbackOk(s', s'.procs[k])
              && (s'.procs[q].alloc.RolledBack? ==> s'.procs[k].kill.KillDone?)
    {
      var k := s'.procs[q].alloc.kill;
      assert IsRollbackOf(s'.procs[q], k);
      if q != p && k != p {
        RollbackOkFrame(s, s', s.procs[k]);
      }
    }
  }

  /** No scan restarts, and only a read event adds to what was read. */
  lemma ReadOnceFrame(s: State, s': State, p: nat)
    requires ReadOnce(s) && LogGrows(s, s') && Touches(s, s', p)
    requires p in s.procs && ScanOf(s'.procs[p]).Some? ==>
               && ScanOf(s.procs[p]).Some?
               && (ScanOf(s.procs[p]).value.Reading? ==>
                     && ScanOf(s'.procs[p]).value.Reading?
                     && ScanOf(s.procs[p]).value.outs.Keys <= ScanOf(s'.procs[p]).value.outs.Keys)
    requires |s'.log| > |s.log| && s'.log[|s.log|].Read? ==>
               var e := s'.log[|s.log|];
               && e.p == p && p in s.procs
               && ScanOf(s.procs[p]).Some? && ScanOf(s.procs[p]).value.Reading?
               && e.id !in ScanOf(s.procs[p]).value.outs
               && (ScanOf(s'.procs[p]).Some? ==>
                     ScanOf(s'.procs[p]).value.Reading? && e.id in ScanOf(s'.procs[p]).value.outs)
    ensures ReadOnce(s')
  {}

  /** What the step's event, if there is one, makes of the table. */
  ghost predicate Applied(s: State, s': State) {
    if |s'.log| == |s.log| then s'.meta == s.meta
    else |s'.log| == |s.log| + 1 && s'.meta == Apply(s.meta, s'.log[|s.log|]) && Fits(s.meta, s'.log[|s.log|])
  }

  lemma RecordsFrame(s: State, s': State)
    requires Records(s) && LogGrows(s, s') && s'.base == s.base && Applied(s, s')
    ensures Records(s')
  {
    hide Fits;
    if |s'.log| > |s.log| {
      assert s'.log[..|s.log|] == s.log;
      forall i | 0 <= i < |s'.log| ensures Fits(Replay(s'.base, s'.log[..i]), s'.log[i]) {
        assert i <= |s.log| && s'.log[..i] == s.log[..i];
        assert s.log[..|s.log|] == s.log;
      }
    }
  }

  lemma OwnersFrame(s: State, s': State, p: nat)
    requires Owners(s) && Grows(s, s') && Touches(s, s', p)
    requires p in s.procs ==> SameIdentity(s.procs[p], s'.procs[p])
    requires Registered(s'.procs[p]) && !s'.clashed ==>
               (p in s.procs && Registered(s.procs[p]))
               || (s'.procs[p].id !in s.meta && s'.procs[p].id in s'.meta
                   && s'.meta[s'.procs[p].id].owner == s'.procs[p].ctx.user)
    requires Applied(s, s')
    ensures Owners(s')
  {
    forall e | e in s.log ensures e in s'.log {}
    forall i | 0 <= i <= |s.log| ensures s'.log[..i] == s.log[..i] {}
    assert s.log[..|s.log|] == s.log;
    forall id, user | TakenOver(s.log, id, user) ensures TakenOver(s'.log, id, user) {
      var e :| e in s.log && e.Wrote? && e.id == id && e.lease.owner != user;
      assert e in s'.log;
    }
    if |s'.log| > |s.log| {
      assert s'.log[|s.log|] in s'.log;
    }
  }
}
