/** Runs that show where the guarantees of the lifecycle end. */
module LifecycleRuns {
  import opened Basics
  import opened Leases
  import opened Clusters
  import opened Lifecycle
  import opened LifecycleTheorems

  const USER := "someone@couchbase.com"
  const ADMIN := Ctx("admin@couchbase.com", true)
  const NODE := Container("c1", "/dynclsr-ab-node_1", "running", "ab", USER, "node_1", "6.5.0", "10.0.0.1", "")

  ghost predicate Ends(ss: seq<State>, s: State) { Run(ss) && |ss| > 0 && ss[|ss| - 1] == s }

  /** One more step. */
  lemma Go(ss: seq<State>, s: State, s': State, step: Step) returns (r: seq<State>)
    requires Ends(ss, s) && Does(s, s', step)
    ensures Ends(r, s')
  {
    hide Does, Init;
    r := ss + [s'];
    forall i | 0 <= i < |r| - 1 ensures Next(r[i], r[i + 1]) {
      if i < |ss| - 1 {
        assert r[i] == ss[i] && r[i + 1] == ss[i + 1];
      }
    }
  }

  ghost function WithProc(s: State, p: nat, proc: Proc): State { s.(procs := s.procs[p := proc]) }

  lemma NodeIsVisible(ctx: Ctx)
    requires ctx.ignoreOwnership || ctx.user == USER
    ensures Ids([NODE]) == {"ab"} && Visible(ctx, [NODE], "ab")
    ensures (set c <- [NODE] | c.cluster == "ab" :: c.id) == {"c1"}
  {
    assert NODE in [NODE];
    CreatorIsCommonLabel([NODE], "ab", USER);
  }

  /** Any call's scan of that one container: the listing and the read of the record. */
  lemma Scans(ss: seq<State>, s: State, p: nat, out: Outcome) returns (r: seq<State>, t: State)
    requires Ends(ss, s) && IsListing(s, p)
    requires s.containers == map["c1" := NODE] && Admissible(s.meta, "ab", out)
    ensures Ends(r, t)
    ensures ScanOf(s.procs[p]).Some?
    ensures t == s.(procs := s.procs[p := WithScan(s.procs[p], Reading([NODE], map["ab" := out]))],
                    log := s.log + [Listed(p, [NODE]), Read(p, "ab", out)])
  {
    hide Ends;
    NodeIsVisible(SYSTEM);
    assert Enumerates([NODE], s.containers);
    var u := s.(procs := s.procs[p := WithScan(s.procs[p], Reading([NODE], map[]))],
                log := s.log + [Listed(p, [NODE])]);
    r := Go(ss, s, u, ListStep(p, [NODE]));
    WithScanTwice(s.procs[p], Reading([NODE], map[]), Reading([NODE], map["ab" := out]));
    t := u.(procs := u.procs[p := WithScan(s.procs[p], Reading([NODE], map["ab" := out]))],
                log := u.log + [Read(p, "ab", out)]);
    r := Go(r, u, t, ReadMetaStep(p, "ab", out));
    assert t.procs == s.procs[p := WithScan(s.procs[p], Reading([NODE], map["ab" := out]))];
    assert t.log == s.log + [Listed(p, [NODE]), Read(p, "ab", out)];
  }

  lemma WithScanTwice(proc: Proc, scan: Scan, again: Scan)
    requires ScanOf(proc).Some?
    ensures WithScan(WithScan(proc, scan), again) == WithScan(proc, again)
  {}

  // ---------- The reaper takes a cluster whose lease runs ----------

  /** One running cluster whose lease ends at `lease`, ten seconds after the epoch. */
  ghost function Start(lease: int): State {
    var meta := map["ab" := Lease(USER, lease)];
    State(map["c1" := NODE], map["c1" := NODE], meta, meta, false, 10 * NANOS, map[], [])
  }

  lemma StartRun(lease: int) returns (ss: seq<State>)
    requires lease % NANOS == 0
    ensures Ends(ss, Start(lease))
  {
    ss := [Start(lease)];
  }

  ghost function Reaper(stage: SweepStage): Proc { Sweep(SYSTEM, true, stage) }

  ghost function Reaped(stage: KillStage): Proc { Kill(SYSTEM, "ab", Some(1), stage) }

  /** A reaper scans the one cluster, reads `out` for its record, and selects it. */
  lemma ReaperSelects(ss: seq<State>, s: State, out: Outcome) returns (r: seq<State>, t: State)
    requires Ends(ss, s) && s.procs == map[] && s.log == [] && s.containers == map["c1" := NODE]
    requires Admissible(s.meta, "ab", out) && ViewOf(out).timeout < s.clock
    ensures Ends(r, t)
    ensures t == s.(procs := map[1 := Reaper(Killing({"ab"}, {}))],
                    log := [Listed(1, [NODE]), Read(1, "ab", out), Selected(1, "ab", out, s.clock)])
  {
    hide Ends;
    var u := WithProc(s, 1, Reaper(SweepScan(Listing)));
    r := Go(ss, s, u, BeginStep(1, Reaper(SweepScan(Listing))));
    r, u := Scans(r, u, 1, out);
    r, t := ReaperCompares(r, u, out);
  }

  lemma ReaperScanned(s: State, outs: map<string, Outcome>)
    requires outs.Keys == {"ab"} && 1 in s.procs && s.procs[1] == Reaper(SweepScan(Reading([NODE], outs)))
    ensures FinishScan(s, WithProc(s, 1, Reaper(Comparing(outs, {"ab"}, {}))), 1)
  {
    NodeIsVisible(SYSTEM);
    assert (set id <- Ids([NODE]) | Visible(SYSTEM, [NODE], id)) == {"ab"};
  }

  lemma ReaperCompares(ss: seq<State>, s: State, out: Outcome) returns (r: seq<State>, t: State)
    requires Ends(ss, s) && s.procs == map[1 := Reaper(SweepScan(Reading([NODE], map["ab" := out])))]
    requires ViewOf(out).timeout < s.clock
    ensures Ends(r, t)
    ensures t == s.(procs := map[1 := Reaper(Killing({"ab"}, {}))], log := s.log + [Selected(1, "ab", out, s.clock)])
  {
    hide Ends, FinishScan;
    var outs := map["ab" := out];
    ReaperScanned(s, outs);
    var w := WithProc(s, 1, Reaper(Comparing(outs, {"ab"}, {})));
    r := Go(ss, s, w, FinishScanStep(1));
    r, t := ReaperChooses(r, w, out);
  }

  lemma ReaperChooses(ss: seq<State>, s: State, out: Outcome) returns (r: seq<State>, t: State)
    requires Ends(ss, s) && s.procs == map[1 := Reaper(Comparing(map["ab" := out], {"ab"}, {}))]
    requires ViewOf(out).timeout < s.clock
    ensures Ends(r, t)
    ensures t == s.(procs := map[1 := Reaper(Killing({"ab"}, {}))], log := s.log + [Selected(1, "ab", out, s.clock)])
  {
    hide Ends;
    var outs := map["ab" := out];
    var x := WithProc(s, 1, Reaper(Comparing(outs, {}, {"ab"}))).(log := s.log + [Selected(1, "ab", out, s.clock)]);
    assert {"ab"} - {"ab"} == {} && {} + {"ab"} == {"ab"};
    r := Go(ss, s, x, SelectStep(1, "ab"));
    r, t := ReaperTurns(r, x, outs);
  }

  lemma ReaperTurns(ss: seq<State>, s: State, outs: map<string, Outcome>) returns (r: seq<State>, t: State)
    requires Ends(ss, s) && s.procs == map[1 := Reaper(Comparing(outs, {}, {"ab"}))]
    ensures Ends(r, t) && t == s.(procs := map[1 := Reaper(Killing({"ab"}, {}))])
  {
    hide Ends;
    t := WithProc(s, 1, Reaper(Killing({"ab"}, {})));
    r := Go(ss, s, t, FinishCompareStep(1));
  }

  /** The reaper starts a kill, which scans and reads `out`. */
  lemma KillBegins(ss: seq<State>, s: State, out: Outcome) returns (r: seq<State>, t: State)
    requires Ends(ss, s) && 1 in s.procs && s.procs[1] == Reaper(Killing({"ab"}, {})) && 3 !in s.procs
    requires s.containers == map["c1" := NODE] && Admissible(s.meta, "ab", out)
    ensures Ends(r, t) && 3 in t.procs && t.procs[3] == Reaped(KillScan(Reading([NODE], map["ab" := out])))
    ensures t.containers == s.containers && t.meta == s.meta && t.clock == s.clock
    ensures t.log == s.log + [Spawned(1, 3, "ab"), Listed(3, [NODE]), Read(3, "ab", out)]
  {
    hide Ends;
    assert {"ab"} - {"ab"} == {} && {} + {3 as nat} == {3};
    var u := WithProc(WithProc(s, 1, Reaper(Killing({}, {3}))), 3, Reaped(KillScan(Listing))).(
      log := s.log + [Spawned(1, 3, "ab")]);
    r := Go(ss, s, u, SpawnKillStep(1, "ab", 3));
    r, t := Scans(r, u, 3, out);
  }

  lemma KillScanned(s: State, out: Outcome)
    requires 3 in s.procs && s.procs[3] == Reaped(KillScan(Reading([NODE], map["ab" := out])))
    ensures FinishScan(s, WithProc(s, 3, Reaped(Stopping([NODE], out, {"c1"}, {}))), 3)
  {
    NodeIsVisible(SYSTEM);
  }

  lemma KillEnds(ss: seq<State>, s: State, out: Outcome) returns (r: seq<State>, t: State)
    requires Ends(ss, s) && 3 in s.procs && s.procs[3] == Reaped(KillScan(Reading([NODE], map["ab" := out])))
    requires s.containers == map["c1" := NODE]
    ensures Ends(r, t) && t.containers == map[] && t.meta == s.meta && t.clock == s.clock
    ensures t.log == s.log + [Stopped(3, Some(1), SYSTEM, "ab", "c1", true)]
  {
    hide Ends, FinishScan;
    KillScanned(s, out);
    var u := WithProc(s, 3, Reaped(Stopping([NODE], out, {"c1"}, {})));
    r := Go(ss, s, u, FinishScanStep(3));
    var none: set<string> := {};
    assert {"c1"} - {"c1"} == none && none + none == none;
    assert u.containers - {"c1"} == map[];
    t := WithProc(u, 3, Reaped(Stopping([NODE], out, {}, {}))).(
      containers := map[], log := u.log + [Stopped(3, Some(1), SYSTEM, "ab", "c1", true)]);
    r := Go(r, u, t, StopRunningStep(3, "c1", true));
  }

  /** The owner's lease runs for another hour, but the store panics under the reaper's read: the recovered
      zero timeout counts as expired, and the cluster is stopped. */
  lemma PanicReapsLiveCluster() returns (ss: seq<State>, s: State)
    ensures Ends(ss, s)
    ensures Read(1, "ab", Panicked) in s.log && "ab" in s.meta && s.clock + HOUR <= s.meta["ab"].timeout
    ensures s.log[|s.log| - 1] == Stopped(3, Some(1), SYSTEM, "ab", "c1", true) && "c1" !in s.containers
  {
    hide Ends;
    ss := StartRun(7200 * NANOS);
    ss, s := ReaperSelects(ss, Start(7200 * NANOS), Panicked);
    assert Read(1, "ab", Panicked) == s.log[1];
    var renewed := Found(s.meta["ab"]);
    ss, s := KillBegins(ss, s, renewed);
    ss, s := KillEnds(ss, s, renewed);
  }

  ghost function Refresher(ctx: Ctx, stage: RefreshStage): Proc { Refresh(ctx, "ab", HOUR, stage) }

  lemma RefreshScanned(s: State, ctx: Ctx, outs: map<string, Outcome>)
    requires 2 in s.procs && s.procs[2] == Refresher(ctx, RefreshScan(Reading([NODE], outs))) && outs.Keys == {"ab"}
    requires ctx.ignoreOwnership || ctx.user == USER
    ensures FinishScan(s, WithProc(s, 2, Refresher(ctx, Probing(s.clock + HOUR))), 2)
  {
    NodeIsVisible(ctx);
  }

  /** A refresh by an hour goes as far as its write; `probe` is what its own lookup of the record gives. */
  lemma RefreshBegins(ss: seq<State>, s: State, ctx: Ctx, probe: Outcome) returns (r: seq<State>, t: State)
    requires Ends(ss, s) && 2 !in s.procs && s.containers == map["c1" := NODE] && "ab" in s.meta
    requires ctx.user != "" && (ctx.ignoreOwnership || ctx.user == USER) && Admissible(s.meta, "ab", probe)
    ensures Ends(r, t)
    ensures t == WithProc(s, 2, Refresher(ctx, Writing(s.clock + HOUR, probe.Failed?))).(
                   log := s.log + [Listed(2, [NODE]), Read(2, "ab", Found(s.meta["ab"])), Probed(2, probe)])
  {
    hide Ends, FinishScan;
    var out := Found(s.meta["ab"]);
    var u := WithProc(s, 2, Refresher(ctx, RefreshScan(Listing)));
    r := Go(ss, s, u, BeginStep(2, Refresher(ctx, RefreshScan(Listing))));
    r, u := Scans(r, u, 2, out);
    r, t := RefreshProbes(r, u, ctx, out, probe);
    assert t.procs == s.procs[2 := Refresher(ctx, Writing(s.clock + HOUR, probe.Failed?))];
  }

  lemma RefreshProbes(ss: seq<State>, s: State, ctx: Ctx, out: Outcome, probe: Outcome)
      returns (r: seq<State>, t: State)
    requires Ends(ss, s) && 2 in s.procs && s.procs[2] == Refresher(ctx, RefreshScan(Reading([NODE], map["ab" := out])))
    requires (ctx.ignoreOwnership || ctx.user == USER) && Admissible(s.meta, "ab", probe)
    ensures Ends(r, t)
    ensures t == WithProc(s, 2, Refresher(ctx, Writing(s.clock + HOUR, probe.Failed?))).(
                   log := s.log + [Probed(2, probe)])
  {
    hide Ends, FinishScan;
    RefreshScanned(s, ctx, map["ab" := out]);
    var v := WithProc(s, 2, Refresher(ctx, Probing(s.clock + HOUR)));
    r := Go(ss, s, v, FinishScanStep(2));
    t := WithProc(v, 2, Refresher(ctx, Writing(s.clock + HOUR, probe.Failed?))).(log := v.log + [Probed(2, probe)]);
    r := Go(r, v, t, ProbeStep(2, probe));
    assert t.procs == s.procs[2 := Refresher(ctx, Writing(s.clock + HOUR, probe.Failed?))];
  }

  lemma RefreshEnds(ss: seq<State>, s: State, ctx: Ctx) returns (r: seq<State>, t: State)
    requires Ends(ss, s) && 2 in s.procs && s.procs[2] == Refresher(ctx, Writing(s.clock + HOUR, false))
    requires "ab" in s.meta && s.meta["ab"].timeout <= s.clock + HOUR && s.clock % NANOS == 0
    ensures Ends(r, t)
    ensures var lease := Lease(ctx.user, s.clock + HOUR);
            t == WithProc(s, 2, Refresher(ctx, RefreshDone(true))).(
                   meta := s.meta["ab" := lease], log := s.log + [Wrote(2, "ab", lease, false)])
  {
    hide Ends;
    var lease := Lease(ctx.user, s.clock + HOUR);
    assert Truncate(s.clock + HOUR) == s.clock + HOUR;
    t := WithProc(s, 2, Refresher(ctx, RefreshDone(true))).(
      meta := s.meta["ab" := lease], log := s.log + [Wrote(2, "ab", lease, false)]);
    r := Go(ss, s, t, WriteStep(2));
  }

  /** The reaper decides on an expired lease; the owner then refreshes it by an hour; the reaper's kill
      reads the renewed lease, does not look at it, and stops the cluster. */
  lemma RefreshInTheWindowIsLost() returns (ss: seq<State>, s: State)
    ensures Ends(ss, s)
    ensures var lease := Lease(USER, s.clock + HOUR);
            && "ab" in s.meta && s.meta["ab"] == lease
            && |s.log| == 11 && s.log[6] == Wrote(2, "ab", lease, false) && s.log[9] == Read(3, "ab", Found(lease))
            && s.log[10] == Stopped(3, Some(1), SYSTEM, "ab", "c1", true) && "c1" !in s.containers
  {
    hide Ends;
    var ctx := Ctx(USER, false);
    ss := StartRun(0);
    var found := Found(Start(0).meta["ab"]);
    ss, s := ReaperSelects(ss, Start(0), found);
    ss, s := RefreshBegins(ss, s, ctx, found);
    ss, s := RefreshEnds(ss, s, ctx);
    var renewed := Found(s.meta["ab"]);
    ss, s := KillBegins(ss, s, renewed);
    ss, s := KillEnds(ss, s, renewed);
  }

  // ---------- A refresh cuts a lease short ----------

  /** A refresh by an hour of a lease that runs for two: its lookup fails, so it inserts a record; the lookup in
      the insertion fails as well, so the record is overwritten, and the lease ends an hour early. */
  lemma OverwriteCutsLeaseShort() returns (ss: seq<State>, s: State)
    ensures Ends(ss, s) && |s.log| == 4 && s.log[3] == Wrote(2, "ab", Lease(USER, 3610 * NANOS), true)
    ensures s.base == map["ab" := Lease(USER, 7200 * NANOS)] && s.meta == map["ab" := Lease(USER, 3610 * NANOS)]
  {
    var ctx := Ctx(USER, false);
    ss := StartRun(7200 * NANOS);
    ss, s := RefreshBegins(ss, Start(7200 * NANOS), ctx, Failed);
    var lease := Lease(USER, 3610 * NANOS);
    assert Truncate(s.clock + HOUR) == 3610 * NANOS;
    var t := WithProc(s, 2, Refresher(ctx, RefreshDone(true))).(
      meta := s.meta["ab" := lease], log := s.log + [Wrote(2, "ab", lease, true)]);
    ss := Go(ss, s, t, OverwriteStep(2));
    s := t;
  }

  // ---------- Two clusters get one id ----------

  const OTHER := Ctx("other@couchbase.com", false)

  /** Another user's allocation draws the id of the running cluster; its lookup fails, and the cluster's record is
      overwritten, with another owner and an earlier end of the lease. */
  lemma ClashTakesCluster() returns (ss: seq<State>, s: State)
    ensures Ends(ss, s) && s.clashed && s.base == map["ab" := Lease(USER, 7200 * NANOS)]
    ensures s.meta == map["ab" := Lease(OTHER.user, 3610 * NANOS)]
    ensures s.containers == map["c1" := NODE] && NODE.creator == USER
  {
    var start := Start(7200 * NANOS);
    ss := StartRun(7200 * NANOS);
    var deadline := HOUR + 10 * NANOS;
    assert seq(1, i => Idle) == [Idle] && Truncate(deadline) == 3610 * NANOS;
    var a := WithProc(start, 1, Allocation(OTHER, 1, "ab", deadline, [Idle], Registering));
    ss := Go(ss, start, a, BeginStep(1, Allocation(OTHER, 1, "ab", deadline, [Idle], Registering)));
    var lease := Lease(OTHER.user, 3610 * NANOS);
    s := WithProc(a, 1, Allocation(OTHER, 1, "ab", deadline, [Idle], Imaging)).(
      meta := map["ab" := lease], clashed := true, log := [Wrote(1, "ab", lease, true)]);
    ss := Go(ss, a, s, ClashStep(1));
  }

  // ---------- A rollback is refused ----------

  const OWNER := Ctx(USER, false)

  /** A container as an allocation creates it. */
  const MADE := NODE.(state := "created")

  ghost function Allocating(workers: seq<Worker>, stage: AllocStage): Proc {
    Allocation(OWNER, 2, "ab", HOUR + 10 * NANOS, workers, stage)
  }

  ghost function Empty(): State {
    State(map[], map[], map[], map[], false, 10 * NANOS, map[], [])
  }

  /** An allocation of two containers registers its cluster and begins to create them. */
  lemma AllocationBegins() returns (ss: seq<State>, s: State)
    ensures Ends(ss, s)
    ensures var lease := Lease(USER, HOUR + 10 * NANOS);
            s == Empty().(procs := map[1 := Allocating([Idle, Idle], FanOut)], meta := map["ab" := lease],
                          log := [Wrote(1, "ab", lease, false), Imaged(1, true)])
  {
    var e := Empty();
    ss := [e];
    assert seq(2, i => Idle) == [Idle, Idle];
    var a := WithProc(e, 1, Allocating([Idle, Idle], Registering));
    ss := Go(ss, e, a, BeginStep(1, Allocating([Idle, Idle], Registering)));
    ss, s := AllocationRegisters(ss, a);
  }

  lemma AllocationRegisters(ss: seq<State>, a: State) returns (r: seq<State>, s: State)
    requires Ends(ss, a) && a == WithProc(Empty(), 1, Allocating([Idle, Idle], Registering))
    ensures Ends(r, s)
    ensures var lease := Lease(USER, HOUR + 10 * NANOS);
            s == Empty().(procs := map[1 := Allocating([Idle, Idle], FanOut)], meta := map["ab" := lease],
                          log := [Wrote(1, "ab", lease, false), Imaged(1, true)])
  {
    hide Ends;
    var lease := Lease(USER, HOUR + 10 * NANOS);
    assert Truncate(HOUR + 10 * NANOS) == HOUR + 10 * NANOS;
    var b := WithProc(a, 1, Allocating([Idle, Idle], Imaging)).(
      meta := map["ab" := lease], log := [Wrote(1, "ab", lease, false)]);
    r := Go(ss, a, b, RegisterStep(1));
    s := WithProc(b, 1, Allocating([Idle, Idle], FanOut)).(log := b.log + [Imaged(1, true)]);
    r := Go(r, b, s, ImageStep(1, true));
    assert s.procs == map[1 := Allocating([Idle, Idle], FanOut)];
  }

  lemma Pair(x: Worker, y: Worker, z: Worker)
    ensures [x, y][0 := z] == [z, y] && [x, y][1 := z] == [x, z]
  {}

  /** The first container is created and started; the second cannot be created. */
  lemma OneOfTwo(ss: seq<State>, s: State) returns (r: seq<State>, t: State)
    requires Ends(ss, s) && s.procs == map[1 := Allocating([Idle, Idle], FanOut)]
    requires s.containers == map[] && s.issued == map[]
    ensures Ends(r, t)
    ensures t == s.(procs := map[1 := Allocating([Ended(Some("c1"), true), Ended(None, false)], FanOut)],
                    containers := map["c1" := NODE], issued := map["c1" := MADE],
                    log := s.log + [Worked(1, 0, true), Worked(1, 1, false)])
  {
    hide Ends;
    Pair(Idle, Idle, Made("c1"));
    var a := WithProc(s, 1, Allocating([Made("c1"), Idle], FanOut)).(
      containers := map["c1" := MADE], issued := map["c1" := MADE]);
    r := Go(ss, s, a, CreateContainerStep(1, 0, MADE));
    r, t := OneStarts(r, a);
    r, t := OtherFails(r, t);
  }

  lemma OneStarts(ss: seq<State>, s: State) returns (r: seq<State>, t: State)
    requires Ends(ss, s) && s.procs == map[1 := Allocating([Made("c1"), Idle], FanOut)]
    requires s.containers == map["c1" := MADE]
    ensures Ends(r, t)
    ensures t == s.(procs := map[1 := Allocating([Started("c1"), Idle], FanOut)], containers := map["c1" := NODE])
  {
    hide Ends;
    Pair(Made("c1"), Idle, Started("c1"));
    t := WithProc(s, 1, Allocating([Started("c1"), Idle], FanOut)).(containers := map["c1" := NODE]);
    r := Go(ss, s, t, StartContainerStep(1, 0));
  }

  lemma OtherFails(ss: seq<State>, s: State) returns (r: seq<State>, t: State)
    requires Ends(ss, s) && s.procs == map[1 := Allocating([Started("c1"), Idle], FanOut)]
    ensures Ends(r, t)
    ensures t == s.(procs := map[1 := Allocating([Ended(Some("c1"), true), Ended(None, false)], FanOut)],
                    log := s.log + [Worked(1, 0, true), Worked(1, 1, false)])
  {
    hide Ends;
    Pair(Started("c1"), Idle, Ended(Some("c1"), true));
    Pair(Ended(Some("c1"), true), Idle, Ended(None, false));
    var c := WithProc(s, 1, Allocating([Ended(Some("c1"), true), Idle], FanOut)).(log := s.log + [Worked(1, 0, true)]);
    r := Go(ss, s, c, InspectStep(1, 0, true));
    t := WithProc(c, 1, Allocating([Ended(Some("c1"), true), Ended(None, false)], FanOut)).(
      log := c.log + [Worked(1, 1, false)]);
    r := Go(r, c, t, CreateFailStep(1, 1));
  }

  ghost function Rollback(stage: KillStage): Proc { Kill(OWNER, "ab", Some(1), stage) }

  /** The allocation's own kill finds another owner and gives up. */
  lemma RollbackGivesUp(ss: seq<State>, s: State, ws: seq<Worker>) returns (r: seq<State>, t: State)
    requires Ends(ss, s) && 1 in s.procs && s.procs[1] == Allocating(ws, FanOut) && 4 !in s.procs
    requires AllEnded(ws) && !AllOk(ws)
    requires s.containers == map["c1" := NODE] && "ab" in s.meta && s.meta["ab"].owner != USER
    ensures Ends(r, t) && t.containers == s.containers && 1 in t.procs && 4 in t.procs
    ensures t.procs[1] == Allocating(ws, RolledBack(4)) && t.procs[4] == Rollback(KillDone(NotOwner))
  {
    hide Ends, FinishScan, AllEnded, AllOk;
    var u := WithProc(WithProc(s, 1, Allocating(ws, RollingBack(4))), 4, Rollback(KillScan(Listing)));
    r := Go(ss, s, u, RollBackStep(1, 4));
    var out := Found(s.meta["ab"]);
    var v;
    r, v := Scans(r, u, 4, out);
    r, t := RollbackTurnsBack(r, v, ws, out);
  }

  lemma RollbackTurnsBack(ss: seq<State>, s: State, ws: seq<Worker>, out: Outcome) returns (r: seq<State>, t: State)
    requires Ends(ss, s) && 1 in s.procs && s.procs[1] == Allocating(ws, RollingBack(4))
    requires 4 in s.procs && s.procs[4] == Rollback(KillScan(Reading([NODE], map["ab" := out])))
    requires ViewOf(out).owner != USER
    ensures Ends(r, t) && t.containers == s.containers && 1 in t.procs && 4 in t.procs
    ensures t.procs[1] == Allocating(ws, RolledBack(4)) && t.procs[4] == Rollback(KillDone(NotOwner))
  {
    hide Ends, FinishScan;
    RollbackScanned(s, out);
    var w := WithProc(s, 4, Rollback(KillDone(NotOwner)));
    r := Go(ss, s, w, FinishScanStep(4));
    t := WithProc(w, 1, Allocating(ws, RolledBack(4)));
    r := Go(r, w, t, FinishRollbackStep(1));
  }

  lemma RollbackScanned(s: State, out: Outcome)
    requires 4 in s.procs && s.procs[4] == Rollback(KillScan(Reading([NODE], map["ab" := out])))
    requires ViewOf(out).owner != USER
    ensures FinishScan(s, WithProc(s, 4, Rollback(KillDone(NotOwner))), 4)
  {
    NodeIsVisible(OWNER);
  }

  /** An allocation of two containers gets one; before it rolls back, an administrator refreshes the cluster and
      so becomes its owner; the rollback is refused, and the one container goes on running. */
  lemma RefusedRollbackLeavesContainer() returns (ss: seq<State>, s: State)
    ensures Ends(ss, s)
    ensures 1 in s.procs && s.procs[1].Allocation? && s.procs[1].alloc == RolledBack(4)
    ensures 4 in s.procs && s.procs[4].Kill? && s.procs[4].kill == KillDone(NotOwner)
    ensures "c1" in RunningFor(s, "ab")
  {
    hide Ends;
    ss, s := AllocationBegins();
    ss, s := OneOfTwo(ss, s);
    var ws := s.procs[1].workers;
    ss, s := RefreshBegins(ss, s, ADMIN, Found(s.meta["ab"]));
    ss, s := RefreshEnds(ss, s, ADMIN);
    assert ws[0].Ended? && ws[1].Ended? && !ws[1].ok;
    ss, s := RollbackGivesUp(ss, s, ws);
  }
}
