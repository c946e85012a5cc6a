/** The cluster lifecycle as a transition system: users allocate, refresh and kill clusters and a
    reaper kills the expired ones, each in small steps against two stores that no lock spans. */
module Lifecycle {
  import opened Basics
  import opened Leases
  import opened Clusters

  // ---------- State ----------

  /** A call of getAllClusters in progress: one listing of the containers, then one read of the
      metadata store for every cluster label in it, in any order. */
  datatype Scan =
    | Listing
    | Reading(listing: seq<Container>, outs: map<string, Outcome>)

  /** One goroutine of allocateCluster.  `Started` is a container that runs but was not inspected yet. */
  datatype Worker =
    | Idle
    | Made(cid: string)
    | Started(cid: string)
    | Ended(made: Option<string>, ok: bool)

  datatype AllocStage =
    | Registering
    | Rejected
    | Imaging
    | ImageFailed
    | FanOut
    | RollingBack(kill: nat)
    | RolledBack(kill: nat)
    | Allocated

  datatype RefreshStage =
    | RefreshScan(scan: Scan)
    | Probing(deadline: int)
    | Writing(deadline: int, create: bool)
    | RefreshDone(ok: bool)

  /** `failed` holds the containers whose stop gave an error. */
  datatype KillResult = ListFailed | NotFound | NotOwner | StopFailed(failed: set<string>) | Killed

  datatype KillStage =
    | KillScan(scan: Scan)
    | Stopping(listing: seq<Container>, out: Outcome, todo: set<string>, failed: set<string>)
    | KillDone(result: KillResult)

  datatype SweepStage =
    | SweepScan(scan: Scan)
    | Comparing(outs: map<string, Outcome>, pending: set<string>, chosen: set<string>)
    | Killing(pending: set<string>, kids: set<nat>)
    | SweepDone(ok: bool)

  /** A call in progress or finished.  Sweep is killAllClusters, or cleanupClusters when `reaping`. */
  datatype Proc =
    | Allocation(ctx: Ctx, count: nat, id: string, deadline: int, workers: seq<Worker>, alloc: AllocStage)
    | Refresh(ctx: Ctx, id: string, extension: int, refresh: RefreshStage)
    | Kill(ctx: Ctx, id: string, parent: Option<nat>, kill: KillStage)
    | Sweep(ctx: Ctx, reaping: bool, sweep: SweepStage)

  /** What happened, in order.  No step reads the log; the theorems are about it.  A blind write is one that
      did not see the record it replaced; a missed stop is one without effect; `ok` is what the caller is told. */
  datatype Event =
    | Listed(p: nat, listing: seq<Container>)
    | Read(p: nat, id: string, out: Outcome)
    | Selected(p: nat, id: string, out: Outcome, at: int)
    | Spawned(p: nat, child: nat, id: string)
    | Wrote(p: nat, id: string, lease: Lease, blind: bool)
    | Stopped(p: nat, parent: Option<nat>, ctx: Ctx, id: string, cid: string, ok: bool)
    | Missed(p: nat, cid: string, ok: bool)
    | Probed(p: nat, out: Outcome)
    | Imaged(p: nat, ok: bool)
    | Worked(p: nat, w: nat, ok: bool)

  datatype State = State(
    containers: map<string, Container>,  // what Docker has, by container id
    issued: map<string, Container>,      // every container there ever was, as it was created
    meta: Table,
    base: Table,                         // what `meta` was at first
    clashed: bool,                       // an allocation has overwritten the record of another cluster
    clock: int,
    procs: map<nat, Proc>,
    log: seq<Event>)

  /** Any earlier contents of the two stores, as long as no container is unregistered. */
  ghost predicate Init(s: State) {
    && s.log == [] && s.procs == map[] && s.issued == s.containers && s.base == s.meta
    && !s.clashed
    && (forall k <- s.containers :: s.containers[k].id == k)
    && (forall k <- s.issued :: s.issued[k].cluster != "" ==>
          s.issued[k].cluster in s.meta && s.issued[k].creator != "")
    && (forall k <- s.issued, l <- s.issued ::
          s.issued[k].cluster == s.issued[l].cluster != "" ==> s.issued[k].creator == s.issued[l].creator)
    && WholeSeconds(s.meta)
  }

  // ---------- Steps ----------

  predicate Fresh(proc: Proc, clock: int) {
    && proc.ctx.user != ""
    && match proc
       case Allocation(_, count, id, deadline, workers, stage) =>
         && 1 <= count <= 10 && id != "" && deadline == clock + HOUR
         && workers == seq(count, i => Idle) && stage == Registering
       case Refresh(_, _, _, stage) => stage == RefreshScan(Listing)
       case Kill(_, _, parent, stage) => parent == None && stage == KillScan(Listing)
       case Sweep(ctx, reaping, stage) => stage == SweepScan(Listing) && (reaping ==> ctx == SYSTEM)
  }

  /** Time passes. */
  ghost predicate Tick(s: State, s': State, now: int) {
    s.clock <= now && s' == s.(clock := now)
  }

  /** A call begins.  Requests that the checks at the top of allocateCluster turn away do nothing. */
  ghost predicate Begin(s: State, s': State, p: nat, proc: Proc) {
    p !in s.procs && Fresh(proc, s.clock) && s' == s.(procs := s.procs[p := proc])
  }

  function ScanOf(proc: Proc): Option<Scan> {
    match proc
    case Refresh(_, _, _, RefreshScan(scan)) => Some(scan)
    case Kill(_, _, _, KillScan(scan)) => Some(scan)
    case Sweep(_, _, SweepScan(scan)) => Some(scan)
    case _ => None
  }

  function WithScan(proc: Proc, scan: Scan): (r: Proc)
    requires ScanOf(proc).Some?
    ensures ScanOf(r) == Some(scan)
  {
    match proc
    case Refresh(_, _, _, _) => proc.(refresh := RefreshScan(scan))
    case Kill(_, _, _, _) => proc.(kill := KillScan(scan))
    case Sweep(_, _, _) => proc.(sweep := SweepScan(scan))
  }

  predicate IsListing(s: State, p: nat) {
    p in s.procs && ScanOf(s.procs[p]) == Some(Listing)
  }

  predicate IsReading(s: State, p: nat) {
    p in s.procs && ScanOf(s.procs[p]).Some? && ScanOf(s.procs[p]).value.Reading?
  }

  ghost predicate Enumerates(listing: seq<Container>, containers: map<string, Container>) {
    && (forall c <- listing :: c.id in containers && containers[c.id] == c)
    && (forall k <- containers :: containers[k] in listing)
    && (forall i, j :: 0 <= i < j < |listing| ==> listing[i].id != listing[j].id)
  }

  /** docker.ContainerList, in whatever order Docker likes. */
  ghost predicate List(s: State, s': State, p: nat, listing: seq<Container>) {
    && IsListing(s, p) && Enumerates(listing, s.containers)
    && s' == s.(procs := s.procs[p := WithScan(s.procs[p], Reading(listing, map[]))],
                log := s.log + [Listed(p, listing)])
  }

  function AfterListFailure(proc: Proc): Proc
    requires ScanOf(proc).Some?
  {
    match proc
    case Refresh(_, _, _, _) => proc.(refresh := RefreshDone(false))
    case Kill(_, _, _, _) => proc.(kill := KillDone(ListFailed))
    case Sweep(_, _, _) => proc.(sweep := SweepDone(false))
  }

  ghost predicate ListFail(s: State, s': State, p: nat) {
    IsListing(s, p) && s' == s.(procs := s.procs[p := AfterListFailure(s.procs[p])])
  }

  /** One GetClusterMeta of the loop over the cluster labels. */
  ghost predicate ReadMeta(s: State, s': State, p: nat, id: string, out: Outcome) {
    && IsReading(s, p)
    && var scan := ScanOf(s.procs[p]).value;
    && id in Ids(scan.listing) && id !in scan.outs && Admissible(s.meta, id, out)
    && s' == s.(procs := s.procs[p := WithScan(s.procs[p], Reading(scan.listing, scan.outs[id := out]))],
                log := s.log + [Read(p, id, out)])
  }

  /** Looking the target up among the visible clusters, and the ownership test (daemon/clusters.go:294-306). */
  function DecideKill(ctx: Ctx, id: string, listing: seq<Container>, outs: map<string, Outcome>): KillStage
    requires Ids(listing) <= outs.Keys
  {
    if id !in Ids(listing) || !Visible(ctx, listing, id) then KillDone(NotFound)
    else if !ctx.ignoreOwnership && ViewOf(outs[id]).owner != ctx.user then KillDone(NotOwner)
    else Stopping(listing, outs[id], set c <- listing | c.cluster == id :: c.id, {})
  }

  /** What a caller does with the clusters its scan found. */
  function AfterScan(proc: Proc, clock: int): Proc
    requires ScanOf(proc).Some? && ScanOf(proc).value.Reading?
    requires Ids(ScanOf(proc).value.listing) <= ScanOf(proc).value.outs.Keys
  {
    var Reading(listing, outs) := ScanOf(proc).value;
    match proc
    case Refresh(ctx, id, extension, _) =>
      proc.(refresh := if id in Ids(listing) && Visible(ctx, listing, id)
                       then Probing(clock + extension) else RefreshDone(false))
    case Kill(ctx, id, _, _) =>
      proc.(kill := DecideKill(ctx, id, listing, outs))
    case Sweep(ctx, reaping, _) =>
      var found := set id <- Ids(listing) | Visible(ctx, listing, id);
      proc.(sweep := if reaping then Comparing(outs, found, {}) else Killing(found, {}))
  }

  ghost predicate FinishScan(s: State, s': State, p: nat) {
    && IsReading(s, p) && Ids(ScanOf(s.procs[p]).value.listing) <= ScanOf(s.procs[p]).value.outs.Keys
    && s' == s.(procs := s.procs[p := AfterScan(s.procs[p], s.clock)])
  }

  // Allocation (daemon/clusters.go:162-214, daemon/nodes.go:156-215).

  predicate Allocating(s: State, p: nat, stage: AllocStage) {
    p in s.procs && s.procs[p].Allocation? && s.procs[p].alloc == stage
  }

  ghost predicate Register(s: State, s': State, p: nat) {
    && Allocating(s, p, Registering)
    && var proc := s.procs[p];
    && CreateRecord(s.meta, proc.id, proc.ctx.user, proc.deadline).Ok?
    && var table := CreateRecord(s.meta, proc.id, proc.ctx.user, proc.deadline).value;
    && s' == s.(procs := s.procs[p := proc.(alloc := Imaging)], meta := table,
                log := s.log + [Wrote(p, proc.id, table[proc.id], false)])
  }

  /** The new random id is taken, but the lookup in the transaction fails, and so the record is overwritten
      (daemon/metadata.go:87-95). */
  ghost predicate Clash(s: State, s': State, p: nat) {
    && Allocating(s, p, Registering) && s.procs[p].id in s.meta
    && var proc := s.procs[p];
    && var lease := Lease(proc.ctx.user, Truncate(proc.deadline));
    && s' == s.(procs := s.procs[p := proc.(alloc := Imaging)], meta := s.meta[proc.id := lease],
                clashed := true, log := s.log + [Wrote(p, proc.id, lease, true)])
  }

  /** The id is taken, or the store fails. */
  ghost predicate Reject(s: State, s': State, p: nat) {
    Allocating(s, p, Registering) && s' == s.(procs := s.procs[p := s.procs[p].(alloc := Rejected)])
  }

  ghost predicate Image(s: State, s': State, p: nat, ok: bool) {
    && Allocating(s, p, Imaging)
    && s' == s.(procs := s.procs[p := s.procs[p].(alloc := if ok then FanOut else ImageFailed)],
                log := s.log + [Imaged(p, ok)])
  }

  predicate WorkerIs(s: State, p: nat, w: nat) {
    Allocating(s, p, FanOut) && w < |s.procs[p].workers|
  }

  function SetWorker(proc: Proc, w: nat, worker: Worker): Proc
    requires proc.Allocation? && w < |proc.workers|
  {
    proc.(workers := proc.workers[w := worker])
  }

  ghost predicate CreateContainer(s: State, s': State, p: nat, w: nat, made: Container) {
    && WorkerIs(s, p, w) && s.procs[p].workers[w].Idle?
    && made.id !in s.issued && made.state == "created"
    && made.cluster == s.procs[p].id && made.creator == s.procs[p].ctx.user
    && s' == s.(procs := s.procs[p := SetWorker(s.procs[p], w, Made(made.id))],
                containers := s.containers[made.id := made], issued := s.issued[made.id := made])
  }

  /** A create that fails after all behind the scenes looks like a create whose start fails. */
  ghost predicate CreateFail(s: State, s': State, p: nat, w: nat) {
    && WorkerIs(s, p, w) && s.procs[p].workers[w].Idle?
    && s' == s.(procs := s.procs[p := SetWorker(s.procs[p], w, Ended(None, false))],
                log := s.log + [Worked(p, w, false)])
  }

  ghost predicate StartContainer(s: State, s': State, p: nat, w: nat) {
    && WorkerIs(s, p, w) && s.procs[p].workers[w].Made?
    && var cid := s.procs[p].workers[w].cid;
    && cid in s.containers
    && s' == s.(procs := s.procs[p := SetWorker(s.procs[p], w, Started(cid))],
                containers := s.containers[cid := s.containers[cid].(state := "running")])
  }

  ghost predicate StartFail(s: State, s': State, p: nat, w: nat) {
    && WorkerIs(s, p, w) && s.procs[p].workers[w].Made?
    && s' == s.(procs := s.procs[p := SetWorker(s.procs[p], w, Ended(Some(s.procs[p].workers[w].cid), false))],
                log := s.log + [Worked(p, w, false)])
  }

  /** ContainerInspect may fail although the container runs. */
  ghost predicate Inspect(s: State, s': State, p: nat, w: nat, ok: bool) {
    && WorkerIs(s, p, w) && s.procs[p].workers[w].Started?
    && s' == s.(procs := s.procs[p := SetWorker(s.procs[p], w, Ended(Some(s.procs[p].workers[w].cid), ok))],
                log := s.log + [Worked(p, w, ok)])
  }

  ghost predicate AllEnded(ws: seq<Worker>) { forall i :: 0 <= i < |ws| ==> ws[i].Ended? }

  ghost predicate AllOk(ws: seq<Worker>) { forall i :: 0 <= i < |ws| ==> ws[i].Ended? && ws[i].ok }

  ghost predicate Succeed(s: State, s': State, p: nat) {
    && Allocating(s, p, FanOut) && AllOk(s.procs[p].workers)
    && s' == s.(procs := s.procs[p := s.procs[p].(alloc := Allocated)])
  }

  /** Every worker has reported and one failed: allocateCluster calls killCluster itself. */
  ghost predicate RollBack(s: State, s': State, p: nat, child: nat) {
    && Allocating(s, p, FanOut) && AllEnded(s.procs[p].workers) && !AllOk(s.procs[p].workers)
    && child !in s.procs
    && var proc := s.procs[p];
    && s' == s.(procs := s.procs[p := proc.(alloc := RollingBack(child))]
                                [child := Kill(proc.ctx, proc.id, Some(p), KillScan(Listing))])
  }

  predicate Finished(procs: map<nat, Proc>, k: nat) {
    k in procs && procs[k].Kill? && procs[k].kill.KillDone?
  }

  /** The rollback's own result is dropped (daemon/clusters.go:210). */
  ghost predicate FinishRollback(s: State, s': State, p: nat) {
    && p in s.procs && s.procs[p].Allocation? && s.procs[p].alloc.RollingBack?
    && Finished(s.procs, s.procs[p].alloc.kill)
    && s' == s.(procs := s.procs[p := s.procs[p].(alloc := RolledBack(s.procs[p].alloc.kill))])
  }

  // Refreshing (daemon/clusters.go:262-289).

  ghost predicate Probe(s: State, s': State, p: nat, out: Outcome) {
    && p in s.procs && s.procs[p].Refresh? && s.procs[p].refresh.Probing? && Admissible(s.meta, s.procs[p].id, out)
    && s' == s.(procs := s.procs[p := s.procs[p].(refresh := Writing(s.procs[p].refresh.deadline, out.Failed?))],
                log := s.log + [Probed(p, out)])
  }

  /** The write transaction a refresh has decided on. */
  function Transaction(table: Table, proc: Proc): Result<Table, string>
    requires proc.Refresh? && proc.refresh.Writing?
  {
    if proc.refresh.create then CreateRecord(table, proc.id, proc.ctx.user, proc.refresh.deadline)
    else RefreshRecord(table, proc.id, proc.ctx.user, proc.refresh.deadline)
  }

  predicate IsWriting(s: State, p: nat) {
    p in s.procs && s.procs[p].Refresh? && s.procs[p].refresh.Writing?
  }

  ghost predicate Write(s: State, s': State, p: nat) {
    && IsWriting(s, p)
    && var proc := s.procs[p];
    && Transaction(s.meta, proc).Ok?
    && var table := Transaction(s.meta, proc).value;
    && s' == s.(procs := s.procs[p := proc.(refresh := RefreshDone(true))], meta := table,
                log := s.log + [Wrote(p, proc.id, table[proc.id], false)])
  }

  /** A refresh that has decided to insert a record finds one, but its lookup fails inside the transaction too;
      the code takes any failure for a missing key (daemon/metadata.go:87-95). */
  ghost predicate Overwrite(s: State, s': State, p: nat) {
    && IsWriting(s, p) && s.procs[p].refresh.create && s.procs[p].id in s.meta
    && var proc := s.procs[p];
    && var lease := Lease(proc.ctx.user, Truncate(proc.refresh.deadline));
    && s' == s.(procs := s.procs[p := proc.(refresh := RefreshDone(true))], meta := s.meta[proc.id := lease],
                log := s.log + [Wrote(p, proc.id, lease, true)])
  }

  ghost predicate WriteFail(s: State, s': State, p: nat) {
    IsWriting(s, p) && s' == s.(procs := s.procs[p := s.procs[p].(refresh := RefreshDone(false))])
  }

  // Killing (daemon/clusters.go:291-328, daemon/nodes.go:233-250).

  predicate IsStopping(s: State, p: nat) {
    p in s.procs && s.procs[p].Kill? && s.procs[p].kill.Stopping?
  }

  function Tried(proc: Proc, cid: string, ok: bool): Proc
    requires proc.Kill? && proc.kill.Stopping?
  {
    var Stopping(listing, out, todo, failed) := proc.kill;
    proc.(kill := Stopping(listing, out, todo - {cid}, failed + (if ok then {} else {cid})))
  }

  /** A running container is created with AutoRemove, so stopping it removes it.  The answer to a stop
      that took effect may still be lost (`ok` is false). */
  ghost predicate StopRunning(s: State, s': State, p: nat, cid: string, ok: bool) {
    && IsStopping(s, p) && cid in s.procs[p].kill.todo
    && cid in s.containers && Running(s.containers[cid])
    && var proc := s.procs[p];
    && s' == s.(procs := s.procs[p := Tried(proc, cid, ok)], containers := s.containers - {cid},
                log := s.log + [Stopped(p, proc.parent, proc.ctx, proc.id, cid, ok)])
  }

  /** A stop without effect: it fails, or the container was created but does not run. */
  ghost predicate StopNothing(s: State, s': State, p: nat, cid: string, ok: bool) {
    && IsStopping(s, p) && cid in s.procs[p].kill.todo
    && (ok ==> cid in s.containers && !Running(s.containers[cid]))
    && s' == s.(procs := s.procs[p := Tried(s.procs[p], cid, ok)], log := s.log + [Missed(p, cid, ok)])
  }

  ghost predicate FinishKill(s: State, s': State, p: nat) {
    && IsStopping(s, p) && s.procs[p].kill.todo == {}
    && s' == s.(procs := s.procs[p := s.procs[p].(kill := KillDone(
                  if s.procs[p].kill.failed == {} then Killed else StopFailed(s.procs[p].kill.failed)))])
  }

  // Sweeping (daemon/clusters.go:330-364, daemon/daemon.go:194-229).

  predicate IsComparing(s: State, p: nat) {
    p in s.procs && s.procs[p].Sweep? && s.procs[p].sweep.Comparing?
  }

  /** The test against time.Now() at daemon/daemon.go:204, one cluster at a time. */
  ghost predicate Select(s: State, s': State, p: nat, id: string) {
    && IsComparing(s, p)
    && var Comparing(outs, pending, chosen) := s.procs[p].sweep;
    && id in pending && id in outs && ViewOf(outs[id]).timeout < s.clock
    && s' == s.(procs := s.procs[p := s.procs[p].(sweep := Comparing(outs, pending - {id}, chosen + {id}))],
                log := s.log + [Selected(p, id, outs[id], s.clock)])
  }

  ghost predicate Spare(s: State, s': State, p: nat, id: string) {
    && IsComparing(s, p)
    && var Comparing(outs, pending, chosen) := s.procs[p].sweep;
    && id in pending && id in outs && s.clock <= ViewOf(outs[id]).timeout
    && s' == s.(procs := s.procs[p := s.procs[p].(sweep := Comparing(outs, pending - {id}, chosen))])
  }

  ghost predicate FinishCompare(s: State, s': State, p: nat) {
    && IsComparing(s, p) && s.procs[p].sweep.pending == {}
    && s' == s.(procs := s.procs[p := s.procs[p].(sweep := Killing(s.procs[p].sweep.chosen, {}))])
  }

  predicate IsKilling(s: State, p: nat) {
    p in s.procs && s.procs[p].Sweep? && s.procs[p].sweep.Killing?
  }

  ghost predicate SpawnKill(s: State, s': State, p: nat, id: string, child: nat) {
    && IsKilling(s, p) && child !in s.procs
    && var Killing(pending, kids) := s.procs[p].sweep;
    && id in pending
    && s' == s.(procs := s.procs[p := s.procs[p].(sweep := Killing(pending - {id}, kids + {child}))]
                                [child := Kill(s.procs[p].ctx, id, Some(p), KillScan(Listing))],
                log := s.log + [Spawned(p, child, id)])
  }

  ghost predicate FinishSweep(s: State, s': State, p: nat) {
    && IsKilling(s, p) && s.procs[p].sweep.pending == {}
    && (forall k <- s.procs[p].sweep.kids :: Finished(s.procs, k))
    && s' == s.(procs := s.procs[p := s.procs[p].(sweep :=
                  SweepDone(forall k <- s.procs[p].sweep.kids :: s.procs[k].kill == KillDone(Killed)))])
  }

  datatype Step =
    | TickStep(now: int)
    | BeginStep(p: nat, proc: Proc)
    | ListStep(p: nat, listing: seq<Container>)
    | ListFailStep(p: nat)
    | ReadMetaStep(p: nat, id: string, out: Outcome)
    | FinishScanStep(p: nat)
    | RegisterStep(p: nat)
    | ClashStep(p: nat)
    | RejectStep(p: nat)
    | ImageStep(p: nat, ok: bool)
    | CreateContainerStep(p: nat, w: nat, made: Container)
    | CreateFailStep(p: nat, w: nat)
    | StartContainerStep(p: nat, w: nat)
    | StartFailStep(p: nat, w: nat)
    | InspectStep(p: nat, w: nat, ok: bool)
    | SucceedStep(p: nat)
    | RollBackStep(p: nat, child: nat)
    | FinishRollbackStep(p: nat)
    | ProbeStep(p: nat, out: Outcome)
    | WriteStep(p: nat)
    | OverwriteStep(p: nat)
    | WriteFailStep(p: nat)
    | StopRunningStep(p: nat, cid: string, ok: bool)
    | StopNothingStep(p: nat, cid: string, ok: bool)
    | FinishKillStep(p: nat)
    | SelectStep(p: nat, id: string)
    | SpareStep(p: nat, id: string)
    | FinishCompareStep(p: nat)
    | SpawnKillStep(p: nat, id: string, child: nat)
    | FinishSweepStep(p: nat)

  ghost predicate Does(s: State, s': State, step: Step) {
    match step
    case TickStep(now) => Tick(s, s', now)
    case BeginStep(p, proc) => Begin(s, s', p, proc)
    case ListStep(p, listing) => List(s, s', p, listing)
    case ListFailStep(p) => ListFail(s, s', p)
    case ReadMetaStep(p, id, out) => ReadMeta(s, s', p, id, out)
    case FinishScanStep(p) => FinishScan(s, s', p)
    case RegisterStep(p) => Register(s, s', p)
    case ClashStep(p) => Clash(s, s', p)
    case RejectStep(p) => Reject(s, s', p)
    case ImageStep(p, ok) => Image(s, s', p, ok)
    case CreateContainerStep(p, w, made) => CreateContainer(s, s', p, w, made)
    case CreateFailStep(p, w) => CreateFail(s, s', p, w)
    case StartContainerStep(p, w) => StartContainer(s, s', p, w)
    case StartFailStep(p, w) => StartFail(s, s', p, w)
    case InspectStep(p, w, ok) => Inspect(s, s', p, w, ok)
    case SucceedStep(p) => Succeed(s, s', p)
    case RollBackStep(p, child) => RollBack(s, s', p, child)
    case FinishRollbackStep(p) => FinishRollback(s, s', p)
    case ProbeStep(p, out) => Probe(s, s', p, out)
    case WriteStep(p) => Write(s, s', p)
    case OverwriteStep(p) => Overwrite(s, s', p)
    case WriteFailStep(p) => WriteFail(s, s', p)
    case StopRunningStep(p, cid, ok) => StopRunning(s, s', p, cid, ok)
    case StopNothingStep(p, cid, ok) => StopNothing(s, s', p, cid, ok)
    case FinishKillStep(p) => FinishKill(s, s', p)
    case SelectStep(p, id) => Select(s, s', p, id)
    case SpareStep(p, id) => Spare(s, s', p, id)
    case FinishCompareStep(p) => FinishCompare(s, s', p)
    case SpawnKillStep(p, id, child) => SpawnKill(s, s', p, id, child)
    case FinishSweepStep(p) => FinishSweep(s, s', p)
  }

  ghost predicate Next(s: State, s': State) {
    exists step :: Does(s, s', step)
  }

  /** A run: any interleaving of any number of calls, from any proper start. */
  ghost predicate Run(ss: seq<State>) {
    && |ss| > 0 && Init(ss[0])
    && forall i :: 0 <= i < |ss| - 1 ==> Next(ss[i], ss[i + 1])
  }
}
