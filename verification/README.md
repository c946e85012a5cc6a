# The cluster daemon, verified

cbdynclusterd hands out Couchbase Server clusters made of Docker containers: users allocate, refresh and
kill clusters, a reaper kills the expired ones, and a library sets the servers up.  This project models
that behaviour in Dafny and proves what it guarantees, over every run and every interleaving.
`dafny verify dfyconfig.toml` checks all of it.

## How it is laid out

- **Lifecycle.dfy** is the lifecycle protocol as a transition system (`daemon/clusters.go`,
  `daemon/daemon.go:194-229`, `daemon/nodes.go:156-250`).  The state is what Docker has, what the metadata
  store has, a clock, and any number of calls in progress.  One step is one effect: a listing
  (`List`, `clusters.go:74`), one read of a record (`ReadMeta`, `clusters.go:92`), one transaction
  (`Register` and the blind `Clash`, `clusters.go:169`; `Write` and the blind `Overwrite`, `clusters.go:276-288`),
  one container created, started, inspected (`nodes.go:166-193`) or stopped (`nodes.go:236`), one comparison
  with the clock (`Select`, `Spare`, `daemon.go:204`).  Every effect may fail, and an answer may be lost after the
  effect.  `Init` is any contents of the two stores in which every labelled container has a record, the containers
  of one cluster name one creator, and leases are whole seconds.  **LifecycleInvariants.dfy** has the inductive
  invariant, **LifecycleSteps.dfy** one preservation lemma for each step, **LifecycleTheorems.dfy** what
  follows, **LifecycleEffects.dfy** what each step leaves alone,
  **LifecycleKills.dfy** and **LifecycleReaping.dfy** what a kill, a sweep and the reaper have done when they report
  success, **LifecycleWrites.dfy** who writes which lease, **LifecycleReports.dfy** what the results of the calls
  mean, **LifecycleRuns.dfy** concrete runs that show where the guarantees end.  Some guarantees hold until ids
  clash (`clashed`): that is until an allocation draws an id that has a record and the lookup in its transaction
  fails.
- **Clusters.dfy** and **ClusterListing.dfy** group a listing into clusters, as functions and as the loops of
  the code, and hold the JSON form.  **Leases.dfy** is the metadata store in terms of instants;
  **Metadata.dfy** is the store itself, which keeps text, and shows that it does what Leases says;
  **Rfc3339.dfy** is that text (RFC 3339, section 5.6, as Go formats and parses it).
- **FanIn.dfy** (unbuffered, drained), **EarlyExit.dfy** (with and without a buffer, left at the first error)
  and **Shutdown.dfy** are the concurrent parts, for any number of goroutines and every interleaving.
- **Dismantle.dfy** and **NodeCache.dfy** are `cluster/node.go`: ejecting all others, and what a node remembers.
  **JsonSlices.dfy** is what decoding JSON into a slice that was decoded into before leaves in it; NodeCache and
  **Pools.dfy**, the grouping of servers by the cluster they report, rest on it.  **BringupTrace.dfy** has the calls
  of a bring-up and its eight phases, **Bringup.dfy** the manager that makes them (`cluster/manager.go`), and
  **BringupTheorems.dfy** what their order means, also for bring-ups that fail half-way.
- **Naming.dfy** and **InstallUrl.dfy** are versions, image names and the two URL builders;
  **Retry.dfy** is the retrier for REST calls.

## Where the code does less than it seems to

For each of these a lemma has a concrete input or the exact condition, or a method's contract says so.

- `GetClusterMeta` swallows a panic and returns a zero timeout without an error (`daemon/metadata.go:147-152`);
  the reaper takes that for an expired lease and stops a live cluster.  This, and a storage error once the year
  2222 has passed, are the only ways for it to select a live lease: `SelectsLiveLease`, `PanicReapsLiveCluster`.
- A refresh between the reaper's scan and its kill is lost, since the kill does not compare again
  (`daemon/daemon.go:204-213`): `RefreshInTheWindowIsLost`.  The lease guarantee is about the scan.
  Exactly when a cluster is stopped although its recorded lease runs: `LiveLeaseIsReapedIff`.
- `CreateClusterMeta` takes any failure of its lookup for a missing key and overwrites the record
  (`daemon/metadata.go:87-95`).  A refresh that meets two such failures can cut a lease short, and nothing but
  such a write can: `OverwriteCutsLeaseShort`, `OnlyOverwritesShorten`.  An allocation that draws a taken id and
  meets one such failure takes the cluster over: `ClashTakesCluster`.
- A refresh makes its caller the owner (`daemon/clusters.go:271-283`).  If an administrator refreshes a cluster
  that is still being allocated, the allocating user's rollback is refused and containers go on running:
  `RefusedRollbackLeavesContainer`; when a rollback is refused: `FailedAllocation`.
- A rebalance whose poll fails twice counts as done, as `i < numRetry` always holds
  (`cluster/manager.go:267-281`): `RebalanceTwice` says exactly when it succeeds, and `TwoFailedPollsComplete`
  has a complete bring-up with both polls failed.
- One `RefInfo` is reused for all replies (`cluster/manager.go:103-123`), so a server whose reply has no `pools`, or
  whose first pool has no `uri`, is put into the cluster of the last one that had: `OwnUriIff`, `StalePoolsMisgroup`.
- `clearSingleCluster` drops the error of `getEpNode` (`cluster/manager.go:378-380`) and then uses a nil node;
  `ClearSingleCluster` panics exactly if asking the nodes in order meets a failure, or their end, before an active
  one (`NoneFound`), and `StartCluster` exactly then or without any node; `InactiveServerPanics` is such a case.
- A node whose first `Update` fails keeps an empty list that is not nil and does not ask again unless forced
  (`cluster/node.go:845-851`): `UnforcedSeesTheFirst`.  A node that a later answer lists without its membership keeps
  that of whatever node stood at its place before: `StaleMembership`.
- `pollJoinReadyAll` has no buffer, so goroutines not received from by the time of an error are never received
  from: `UnbufferedStrands`, `PollCanStrand`.
- The installer has no flavour for version 7 (`cluster/install.go:71-89`), the daemon has
  (`daemon/nodes.go:72`): `UrlBuildersAgree`.
- A number without a dot before the first dash makes the daemon index out of range (`daemon/nodes.go:83`), exactly:
  `NoDotPanics`.  The installer does so for a build of a version in which its pattern, whose dots match any
  character, is nowhere matched (`helper/helper.go:325-327`), exactly: `InstallerPanics`; so for 6.5 but not for
  6.550, and for 1234 but not for 12345: `ShortVersionPanics`, `OneNumberPanics`.
- Time text with a zone offset of 100 hours or more parses once, with the Go 1.13 of `go.mod:3`,
  but not again after formatting: `SecondTrip`.

## Model

| member | source | states |
|---|---|---|
| Leases.WritesNeverShorten | daemon/metadata.go:79-140 | a create or refresh transaction loses no record, shortens no lease although it drops the fraction of the second, leaves every other record alone and makes the caller the owner |
| LifecycleInvariants.InitInv | daemon/daemon.go:246-290 | contents of the two stores in which every labelled container has a record, the containers of each cluster name one non-empty creator, and leases are whole seconds, satisfy the invariant |
| LifecycleSteps.ListKeeps | daemon/clusters.go:73-88 | listing the containers, in any order, keeps the invariant; what a rollback's listing shows includes all that still runs |
| LifecycleSteps.RegisterKeeps | daemon/clusters.go:162-172 | registering a cluster under an id that has no record keeps the invariant: the id is not available to any other allocation |
| LifecycleSteps.ClashKeeps | daemon/metadata.go:87-95 | registering over an existing record, after a failed lookup, keeps what of the invariant does not rest on ids being unique |
| LifecycleSteps.CreateContainerKeeps | daemon/nodes.go:156-184 | a new container carries its allocation's cluster and creator labels, so it keeps "every labelled container has a record" and "one creator per cluster" |
| LifecycleSteps.WriteKeeps | daemon/clusters.go:262-289 | a refresh's transaction keeps the invariant, among it that the metadata store is what the logged writes make of it and that no write that saw its record shortened it |
| LifecycleSteps.OverwriteKeeps | daemon/metadata.go:87-95 | an insert over an existing record, after a failed lookup, keeps the invariant too, as a write that is marked blind |
| LifecycleSteps.FinishKillScanKeeps | daemon/clusters.go:291-306 | the end of a kill's scan keeps the invariant: it goes on to stop containers only of the target cluster, and only if its caller is entitled to |
| LifecycleSteps.StopRunningKeeps | daemon/nodes.go:233-250 | stopping a running container removes it and keeps the invariant |
| LifecycleSteps.SelectKeeps | daemon/daemon.go:202-207 | the reaper's comparison keeps the invariant: whatever it selects is backed by a logged read of an expired record |
| LifecycleTheorems.NextKeeps | daemon/clusters.go:73-364 | every step of every kind keeps the whole invariant, never drops a metadata key or a logged event, and ends a running container only by a logged stop |
| LifecycleTheorems.RunInv | daemon/clusters.go:73-364 | every state of every run satisfies the invariant |
| LifecycleTheorems.OnlyStopsEndContainers | daemon/nodes.go:233-250 | in every run, a container that ran and no longer does was stopped by a kill |
| LifecycleTheorems.StopsAreAuthorised | daemon/clusters.go:291-328 | every stop in every run hits a container with the target's label that the kill's own earlier scan listed, and unless the caller ignores ownership, that scan resolved the creator to the caller and read a record of the caller's; until ids clash, the caller created that very container |
| LifecycleTheorems.SelectsLiveLease | daemon/daemon.go:202-207 | a read of a record whose lease still runs selects the cluster if and only if the read panicked, or failed when the default timeout had passed |
| LifecycleTheorems.ReadsAreCurrent | daemon/metadata.go:142-176 | in every run, a read that finds a record finds what the last write of it said |
| LifecycleTheorems.LeaseIsHonoured | daemon/daemon.go:194-229 | once a lease is recorded, a later read by a reaper that finds the record never leads to selection at a time up to that lease, whatever else interleaves, unless a blind write came between |
| LifecycleTheorems.ReapedHadExpired | daemon/daemon.go:194-229 | every container the reaper stops belongs to a cluster it had read before and found expired at its comparison, and every lease recorded before that read, unless overwritten blindly, had expired too |
| LifecycleTheorems.LiveLeaseIsReapedIff | daemon/daemon.go:202-215 | at a stop by a reaper that had found the record expired, the recorded lease runs on if and only if the last write since that read says so; without blind writes, if and only if any write since then does |
| LifecycleTheorems.LeasesNeverDecrease | daemon/metadata.go:79-140 | along every run records are never lost, and a recorded lease gets shorter only if the record was overwritten blindly in between |
| LifecycleTheorems.OnlyOverwritesShorten | daemon/metadata.go:87-95 | a step shortens a lease if and only if it is a blind write of an earlier one |
| LifecycleTheorems.DefaultsAreUnreachable | daemon/clusters.go:276-280 | everything a scan lists has a record, so a refresh that decided to insert one can only fail or, if the lookup in its transaction fails, overwrite |
| LifecycleTheorems.OneAllocationPerCluster | daemon/clusters.go:162-172 | until ids clash, a cluster id is issued by at most one allocation, and all its containers ever were created for that allocation's user |
| LifecycleTheorems.SuccessfulAllocation | daemon/clusters.go:193-214 | a successful allocation has made exactly the requested number of containers; each runs or was stopped by a kill, and without a kill of the cluster all of them run; until ids clash, they are all that there ever were of the cluster |
| LifecycleTheorems.FailedAllocation | daemon/clusters.go:209-212 | after a rolled-back allocation, until ids clash, nothing of the cluster runs except containers whose stop gave an error, unless the rollback could not list or was refused; it finds nothing only if its listing has none, and is refused if and only if its caller minds ownership and the record it read names another owner, in which case that read failed or somebody else's write precedes it |
| LifecycleKills.KilledIsGone | daemon/clusters.go:291-328 | until ids clash, a kill that lists a cluster which no allocation is building leaves none of its containers running if it reports success, only those whose stop gave an error if it reports such, and none if its caller sees every cluster and it finds nothing |
| LifecycleKills.SweptIsGone | daemon/daemon.go:194-229 | a sweep that reports success leaves nothing running of any cluster it was aimed at, those that the reaper selected or that the caller may see, if no allocation was building it when the sweep listed the containers |
| LifecycleReaping.ExpiredIsSelected | daemon/daemon.go:202-215 | a reaper that is past its comparing has selected every cluster whose record it has read to end before the time at which it began, and if it reports success and nobody was building the cluster, nothing of it runs |
| LifecycleReaping.ExpiredClusterIsReaped | daemon/daemon.go:194-229 | a cluster whose lease has ended when a reaper begins, whose record nobody writes meanwhile and whose read does not fail, has nothing running when the reaper reports success, if nobody was building it |
| LifecycleWrites.RefreshesAreAuthorised | daemon/clusters.go:262-289 | every write by a refresh, in every run, follows its own listing that shows the cluster to its caller, as one of the caller's unless ownership is ignored; it makes the caller the owner, and the lease is the later one of the recorded lease and the clock reading after that listing plus the extension, in whole seconds, or just the latter if the write is blind |
| LifecycleWrites.AllocationsWriteAnHour | daemon/clusters.go:146-172 | every write by an allocation, in every run, gives its own cluster to its caller until one hour after it began, is blind exactly if there was a record, and the allocation is of one to ten containers |
| LifecycleReports.ReportsAreTrue | daemon/clusters.go:146-364 | in every state of every run, each call's stage and result say just what it was told and did: which writes, listings, images, nodes, stops and kills, and which of them failed; a refresh writes blindly exactly if its own lookup of the record has failed |
| LifecycleReports.AllocationResult | daemon/clusters.go:169-214 | an allocation is rejected exactly if it has written no record, gives up exactly if the image failed, and succeeds exactly if the image and every node were reported well |
| LifecycleReports.RefreshResult | daemon/clusters.go:262-289 | a finished refresh succeeds exactly if it has written, fails without a lookup exactly if nothing was listed or the listing does not show the cluster to its caller, and writes blindly exactly if its own lookup has failed |
| LifecycleReports.KillResult | daemon/clusters.go:291-328 | a finished kill gives each of its results exactly by what it has listed, read and stopped: not found if its listing does not show the cluster, not the owner if its own read names another, and otherwise the errors of the stops of just the listed containers |
| LifecycleReports.SweepResult | daemon/clusters.go:344-363 | a sweep reports success exactly if it has listed and all the kills it has started, which have ended, report success |
| LifecycleReports.KillsOnlyTheVisible | daemon/clusters.go:330-349 | killAllClusters starts kills only of clusters that its own listing shows to its caller |
| LifecycleKills.KillAllLeavesNothing | daemon/clusters.go:330-364 | when an administrator's killAllClusters returns nil, nothing runs of any registered cluster that nobody was building when it began |
| LifecycleRuns.PanicReapsLiveCluster | daemon/metadata.go:147-152 | a concrete run in which a recovered panic makes the reaper stop a cluster whose lease runs for another hour |
| LifecycleRuns.RefreshInTheWindowIsLost | daemon/daemon.go:202-215 | a concrete run in which a refresh lands between the reaper's scan and its kill, whose own scan even reads the new lease, and the cluster is stopped all the same |
| LifecycleRuns.OverwriteCutsLeaseShort | daemon/clusters.go:276-280 | a concrete run in which a refresh by an hour, with two failed lookups, cuts a lease of two hours to one |
| LifecycleRuns.RefusedRollbackLeavesContainer | daemon/clusters.go:202-212 | a concrete run in which one of two creates fails, an administrator refreshes the cluster, the rollback is refused, and the other container goes on running |
| LifecycleRuns.ClashTakesCluster | daemon/clusters.go:162-172 | a concrete run in which an allocation draws the id of a running cluster, its lookup fails, and the cluster's record gets another owner and an earlier end |
| Clusters.CreatorIsCommonLabel | daemon/clusters.go:111-133 | when all containers of a cluster carry one creator label, the resolved creator is that user |
| Clusters.CreatorIsFirst | daemon/clusters.go:106-129 | the resolved creator is the first label in listing order that is not empty |
| ClusterListing.GroupingIsExact | daemon/clusters.go:81-88 | each container is in its own cluster's group exactly as often as in the listing, and in no other group |
| ClusterListing.GroupContainers | daemon/clusters.go:81-88 | the first loop maps each non-empty label, and nothing else, to that label's containers in listing order |
| ClusterListing.DescribeContainers | daemon/clusters.go:97-127 | the inner loop yields the containers' nodes in order and the first creator label that is not empty |
| ClusterListing.GetAllClusters | daemon/clusters.go:73-144 | exactly one cluster for each label the caller may see, complete, in whatever order the map is walked |
| ClusterListing.GetCluster | daemon/clusters.go:58-71 | the answer is that cluster, or not found exactly when the caller may not see such a label; map order does not matter |
| ClusterListing.JsonifyCluster | daemon/restserver.go:88-103 | the loop computes the JSON form on which JsonRoundTrip is stated |
| ClusterListing.UnjsonifyCluster | daemon/restserver.go:119-138 | the loop computes the reading of that form, or the error, on which JsonRoundTrip is stated |
| ClusterListing.JsonRoundTrip | daemon/restserver.go:46-138 | reading back a sent cluster fails exactly for years outside 0 to 9999, and keeps everything but the fraction of the timeout, all nodes in order, exactly when also the zone is in whole minutes |
| ClusterListing.ContainerAsSent | daemon/restserver.go:46-103 | what is sent about the i-th container of a cluster, from its labels and addresses in the listing to the fields of the JSON form, and about the cluster, with its owner and timeout as recorded |
| Rfc3339.FormatThenParse | daemon/metadata.go:32-62 | parsing a formatted time of a four-digit year gives it back without its fraction and the odd seconds of its zone |
| Rfc3339.OtherYearsDoNotParse | daemon/metadata.go:53-56 | the text of any other year does not parse |
| Rfc3339.SecondTrip | daemon/metadata.go:32-62 | a text that Go 1.13 parses formats and parses to the same time again if and only if its zone is less than 100 hours |
| Rfc3339.DropIsTruncate | daemon/metadata.go:35 | dropping the fraction of a reading is truncating its instant to the second |
| Rfc3339.NamedInstants | daemon/constants.go:7-9 | the default timeout, Go's zero time and the epoch are the instants the lifecycle uses for them |
| Rfc3339.OneSecondLater | daemon/clusters.go:284 | the reading one second later, with its carries through minutes, hours, days, months and leap years, is one second more |
| Rfc3339.ZoneShifts | daemon/clusters.go:284 | the same reading in another zone differs by the difference of the offsets |
| Rfc3339.InstantOrders | daemon/daemon.go:204 | readings of one zone compare as instants exactly as their dates and then their clocks do |
| Rfc3339.TextIs | daemon/metadata.go:35 | the whole text of a reading, field by field |
| Rfc3339.ZoneText | daemon/metadata.go:35 | the text of a zone: Z, or the sign, plus for east, and two digits each of hours and minutes |
| Metadata.RoundTrip | daemon/metadata.go:32-62 | a stored record means the same owner and the timeout truncated to its second if and only if the year is 0 to 9999 and the zone in whole minutes; a second round trip then changes nothing |
| Metadata.InsertMatchesRecord | daemon/metadata.go:79-101 | inserting text is the lease table's create transaction |
| Metadata.OverwriteShortensIff | daemon/metadata.go:87-95 | where the lookup of an existing record fails, the write shortens its lease exactly if the new timeout, truncated, is earlier |
| Metadata.RenewMatchesRecord | daemon/clusters.go:282-288 | the update function of a refresh, on text, is the lease table's refresh transaction |
| Metadata.MetaDataStore.CreateClusterMeta | daemon/metadata.go:79-101 | an existing record is never overwritten unless its lookup fails inside the transaction; on an error nothing changes, and otherwise the store is the old one with that record |
| Metadata.MetaDataStore.UpdateClusterMeta | daemon/metadata.go:105-140 | it succeeds exactly if the key is there, the update function agrees and nothing fails, and then replaces just that record; otherwise nothing changes |
| Metadata.MetaDataStore.GetClusterMeta | daemon/metadata.go:142-176 | it returns the stored lease, or the default with an error, or after a panic the zero value without one |
| Metadata.RefreshMeta | daemon/clusters.go:271-289 | the lookup decides between insert and update, and either one is the corresponding transaction on the leases; an insert whose own lookup fails overwrites, an update whose lookup fails is an error |
| Metadata.KeysDiffer | daemon/metadata.go:80 | no two clusters share a key |
| FanIn.Collect | daemon/clusters.go:202-208 | the collecting loop returns nil exactly if all reports are nil, and otherwise the first error to arrive |
| FanIn.StepKeepsProper | daemon/clusters.go:344-363 | every step of any goroutine, at any depth of calls within calls, keeps what the collectors have counted right |
| FanIn.StepDecreases | daemon/clusters.go:344-363 | every step decreases a measure, so no interleaving is infinite |
| FanIn.NeverStuck | daemon/clusters.go:308-327 | until a call has returned, some goroutine below it can take a step |
| FanIn.ReturnedMeansDone | daemon/daemon.go:209-228 | a call that has returned has left no goroutine behind, and it reports nil exactly when no work below it failed |
| FanIn.DrainedFanIn | daemon/clusters.go:344-363 | every run is bounded in length; where it can go no further the outermost call has returned, nothing is left below it, and its result is nil exactly if no work failed, whatever the order |
| FanIn.FirstErrorIsKept | daemon/clusters.go:202-208 | in every run and at any depth, each call keeps the first error to arrive |
| FanIn.ErrorsAreReported | daemon/clusters.go:344-363 | in every run, an error of the outermost call is one that some work below was to report |
| EarlyExit.BufferedSendNeverBlocks | cluster/node.go:749-771 | with a buffer for every worker no worker ever waits to send, not even after the collector left on an error or a timeout |
| EarlyExit.NilMeansAllNil | cluster/manager.go:174-202 | with or without a buffer, a nil result means that every worker has reported nil |
| EarlyExit.ResultWasSent | cluster/node.go:761-771 | what the collector returns is what some worker has sent, or the timeout's error |
| EarlyExit.CollectorNeverStarves | cluster/node.go:761-771 | while the collector waits, some step other than the timeout is possible |
| EarlyExit.UnbufferedStrands | cluster/manager.go:189-201 | without a buffer, exactly as many workers as the collector still waited for when it left stay blocked for good |
| EarlyExit.PollCanStrand | cluster/manager.go:174-202 | a concrete run in which a worker is left behind |
| Dismantle.AuxMembers | cluster/node.go:739-747 | the nodes called about are exactly the listed ones with another host name |
| Dismantle.EntryIsSpared | cluster/node.go:733-797 | in every interleaving no call is about the entry node, and it stays a member as it was |
| Dismantle.EjectedWerePrepared | cluster/node.go:778-797 | every eject is of another node that was only added, or was failed over successfully before |
| Dismantle.NoActiveNodeIsEjected | cluster/node.go:778-797 | a node about to be ejected is never active in the servers' membership |
| Dismantle.NilMeansDismantled | cluster/node.go:761-774 | a nil result means that every other listed node was ejected and only the entry remains a member |
| Dismantle.CallsAreOrderly | cluster/node.go:778-797 | in every interleaving each node is failed over and ejected at most once, one that was only added is never failed over, no eject follows a failed failover, and a goroutine reports nil exactly if it has ejected its node |
| NodeCache.CachingNode.Update | cluster/node.go:845-873 | only the first and the forced calls ask the server; the nodes of the answer are decoded into what was remembered, even if something has a wrong type, which is an error; the otp name follows the list only without one |
| NodeCache.CachingNode.Membership | cluster/node.go:814-824 | it is that of the first listed node with this host, by the list the calls so far have left |
| JsonSlices.DecodedAt | cluster/node.go:864 | decoding an array into a slice merges each element into what the slice's memory holds at its place, and leaves the rest of the memory alone |
| NodeCache.KnownIsLastGiven | cluster/node.go:845-873 | each field of each remembered place is what the last call said that gave it, or empty if none did since the last empty list |
| NodeCache.KnownLength | cluster/node.go:845-873 | as many nodes are remembered as the last list had that was got |
| NodeCache.StaleMembership | cluster/node.go:864 | a concrete second answer that lists another node without its membership, which then is the first one's |
| NodeCache.MembershipIsListed | cluster/node.go:814-824 | a membership is found exactly if the host is listed, and it is that of the first node listed with it |
| NodeCache.OtpIsLastListed | cluster/node.go:867-871 | the otp name is that of the last node listed with the host |
| NodeCache.UnforcedSeesTheFirst | cluster/node.go:845-851 | without forced calls a membership is found exactly if the first answer has a list of nodes with this host |
| Pools.GroupNodes | cluster/manager.go:103-123 | the loop maps each non-empty URI to the nodes that count for it, in order, and nothing else |
| Pools.GroupsPartition | cluster/manager.go:103-123 | a node is in the group of the URI it counts for exactly once, and in no other |
| Pools.UriStep | cluster/manager.go:103-120 | a reply with an empty list, or with a URI in its first pool, decides what its node counts for, and any other reply leaves the URI of the node before |
| Pools.UriIsLastDecided | cluster/manager.go:103-120 | a node counts for the URI of the last reply so far that decides, or for none |
| Pools.OwnUriIff | cluster/manager.go:103-123 | every node counts for the URI it reported itself if and only if, before each reply that does not decide, the last one that does, if there is one, reports no URI |
| Pools.StalePoolsMisgroup | cluster/manager.go:103-123 | a reply without pools, and one whose pool has no URI, put their server into the group of the one before |
| Bringup.Manager.GetEpNode | cluster/manager.go:333-351 | it probes the group in order up to the first node that is active, which it returns, or the first failure; it returns an error if and only if, by what the nodes say, a failure or the end comes before an active one |
| Bringup.Manager.ClearSingleCluster | cluster/manager.go:376-422 | it returns nil if and only if an active node is found and the bucket list, every delete, the ejecting and the leaving work, and then the first active node had its buckets deleted, all others failed over and ejected, and left last, in this order; it panics if and only if, by what the nodes say, a failure or the end comes before an active one, and then it has only probed |
| Bringup.Manager.ClearAll | cluster/manager.go:132-139 | when it returns nil, each group was cleared whole, one after another, exactly once, in some order; when it panics, some were, and then the search in another one found no active node; it panics if and only if its last call is a probe |
| Bringup.Manager.PollJoinReadyAll | cluster/manager.go:174-202 | when it returns nil, every node but the entry node has reported that it is ready; it takes each node's own report, and an error makes it fail |
| Bringup.Manager.AddNodes | cluster/manager.go:248-264 | it succeeds if and only if for each other node the first AddNode works, or gives the one error that is tried again and the second one works; the calls are made in order |
| Bringup.Manager.RebalanceTwice | cluster/manager.go:266-281 | it succeeds if and only if the first rebalance starts and its poll succeeds or the second one starts, whatever the second poll says |
| Bringup.Manager.PrepareEntry | cluster/manager.go:205-242 | it succeeds if and only if the version can be read, the memory quota is a number and every call that configuration and version require works |
| Bringup.Manager.FinishUp | cluster/manager.go:283-294 | it succeeds if and only if the bucket, where one is configured, is created, and the developer preview, where that is, is enabled on an active node that is found |
| Bringup.Manager.SetupNewCluster | cluster/manager.go:204-297 | whatever comes of it, its calls continue the phases in their order, all complete but the last one; it panics exactly if there is no node |
| Bringup.Manager.StartCluster | cluster/manager.go:101-150 | whatever comes of it, the calls it made are the phases of a bring-up in their order, all complete but the last one, and all eight complete when it returns a URL; it panics if and only if there is no node, or the clearing ends with a search that found no active node |
| BringupTheorems.SetupCallsAre | cluster/manager.go:205-242 | once the entry node is prepared its version was read and the set-up calls were made in the fixed order, each once at most: quotas, services and provisioning always, host name and storage mode exactly if configured, and the user exactly if configured and the version is 5 or later |
| BringupTheorems.FinishCallsAre | cluster/manager.go:283-294 | a complete bring-up has created a bucket exactly if one is configured, and enabled the developer preview exactly if that is, having found a node active |
| BringupTheorems.SetupFollowsClears | cluster/manager.go:132-149 | by any call that sets the new cluster up, every old group has been cleared, also in bring-ups that fail |
| BringupTheorems.AddsFollowJoins | cluster/manager.go:245-264 | by any AddNode every other node has reported that it is ready |
| BringupTheorems.RebalancesFollowAdds | cluster/manager.go:248-281 | by any rebalance every other node has been added, by one call or two; there are two rebalances exactly after a failed first poll, else one |
| BringupTheorems.BucketFollowsRebalances | cluster/manager.go:267-288 | by any bucket creation all rebalances and polls are over, and no rebalance or AddNode follows |
| BringupTheorems.ClearedIsGone | cluster/manager.go:376-422 | clearing one group leaves nobody in its cluster, not even servers that were not listed, and touches no other cluster |
| BringupTheorems.ClearingOrderIsIrrelevant | cluster/manager.go:132-139 | whatever order the groups are cleared in, the membership that remains is that of the other clusters |
| BringupTheorems.EjectAllIsDismantle | cluster/node.go:733-797 | if the list that the entry node works through is that of its cluster, then of all servers exactly those are gone, by the effect that the bring-up takes a successful FailOverAndEjectAll to have, that its goroutines have ejected in any run with a nil result |
| BringupTheorems.TwoFailedPollsComplete | cluster/manager.go:266-281 | a complete bring-up of two servers in which both polls of the rebalances have failed |
| BringupTheorems.InactiveServerPanics | cluster/manager.go:376-380 | a server that is not active in the cluster it reports, so that no entry node is found and the clearing panics |
| BringupTheorems.PollsComplete | cluster/manager.go:174-202 | every run of the polling goroutines with a nil result has taken the reports that PollJoinReadyAll promises |
| Shutdown.ClosesAfterCleanup | daemon/daemon.go:355-365 | from the moment the store is about to be closed every clean-up that has begun has returned, no goroutine of one is left and none starts again, and the store is closed once at most |
| Shutdown.HandshakeNeverStuck | daemon/daemon.go:272-290 | until the store is closed, the handshake or a clean-up in progress can take a step, which need not be the timer's |
| Shutdown.ShutdownEnds | daemon/daemon.go:349-365 | from any point of any run on, if the timer does not fire again, only a bounded number of steps follow, and where none can, the store is closed |
| Retry.RetryIsFirstDecisive | helper/helper.go:300-317 | for any outcomes and any retry, it makes at most max(1, retry) calls and ends with the first success or stop, or else with the last error |
| Retry.FirstDecisiveIsUnique | helper/helper.go:300-317 | nothing else fits that description |
| Retry.SucceedsIff | helper/helper.go:300-317 | it succeeds exactly if some call within the budget does, with only retryable errors before |
| Retry.RestCallSequence | helper/helper.go:365-382 | with GetResponse, a status neither expected nor to be retried ends the calls at once, and success means that the last answer had the expected status and a readable body, and the error is that of the last answer |
| Naming.ParsesFullVersion | daemon/nodes.go:102-121 | a version and a build joined by a dash come back as they were, with the version's flavour or its error |
| Naming.Recognised | daemon/nodes.go:68-121 | a text that begins with two numbers and a dot is parsed if and only if the major is 4, 5 or 6, or 7 with a minor below 5, and the minor fits an int |
| Naming.AtoiOfDecimal | daemon/nodes.go:78-86 | Atoi reads the decimal text of a number, with a sign or without |
| Naming.ImageNameInjective | daemon/nodes.go:42-51 | under one registry, equal image names mean equal edition, version and build |
| Naming.ImageNameIsCacheKey | daemon/nodes.go:42-66 | two parsed versions with one image name are equal in everything, so the URL and the package name are the same |
| Naming.NoDotPanics | daemon/nodes.go:75-121 | a version text makes the minor version be indexed out of range if and only if its part before the first dash is a number, with or without a sign, and has no dot |
| InstallUrl.BuildUrl | cluster/install.go:54-96 | on the daemon's platform its result is the daemon's URL and package name for every recognised version of three numbers and dash-free build, if and only if there is no build or the major is not 7; it panics if and only if there is a build and the pattern's window is nowhere in the version |
| InstallUrl.TupleOfThreeParts | helper/helper.go:319-329 | on three numbers with dots the pattern, whose dots match anything, finds just these numbers |
| InstallUrl.FlavorsAgree | daemon/nodes.go:68-100 | both tables have the same flavour for every version of three numbers with major 4, 5 or 6, and only the daemon's has one for 7 below 7.5 |
| InstallUrl.UrlBuildersAgree | cluster/install.go:54-96 | for every version of three numbers with major 4, 5 or 6, or 7 below 7.5, every dash-free build and edition, the daemon parses it, and its URL and package name make up the installer's URL if and only if there is no build or the major is not 7 |
| InstallUrl.FindIff | helper/helper.go:319-329 | the pattern matches somewhere in a text if and only if the text has a window of a digit, any character, one digit or two, any character, and a digit, comma, caret or dash |
| InstallUrl.InstallerPanics | cluster/install.go:67-91 | for every version, the installer indexes missing groups if and only if there is a build and no such window |
| InstallUrl.ShortVersionPanics | helper/helper.go:319-329 | with a build, two numbers with a dot are indexed out of range if and only if both have fewer than three digits |
| InstallUrl.OneNumberPanics | helper/helper.go:319-329 | with a build, one number is indexed out of range if and only if it has fewer than five digits |

## Left out

Assumptions of the lifecycle model:

- The clock does not run backwards, and the metadata store's transactions are atomic.
- Container ids are unique in the twelve digits that are kept (`daemon/clusters.go:115`); Docker removes a
  running container together with its stop; containers do not end by themselves.
- Users are not empty (`daemon/restserver.go:140-150`), and deadlines can be written as RFC 3339 text.
- Building, pulling and checking images is a yes or no (`Image`).  The requested timeout is checked but not used
  (`daemon/clusters.go:163`), so every allocation's lease is one hour.

Weaker than the code's possible behaviour:

- Rfc3339.Parse: is that of Go 1.13 (`go.mod:3`), without the range check of zone offsets that later versions have;
  does not take the looser forms Go accepts beyond RFC 3339 (one-digit hours, fractions of a
  second, a comma); the daemon's own text has none of them.
- Bringup.Manager.StartCluster: `AddNode` and the polls are answers from outside, not their own REST exchanges, and a
  probe's membership is whatever the node object remembers (NodeCache).
- Dismantle.NilMeansDismantled: is about a node whose list is faithful to the servers' membership when the call
  begins; `Update` as the first step of the call is not repeated there, nor the return at once when no other node
  is listed.
- Shutdown.ShutdownEnds: is about the timer not firing again; a select that always prefers its timer is not excluded.

Not modelled:

- HTTP handlers and routing, header and JSON syntax, JSON objects that repeat a key, configuration and command line.
- Docker, badger, SSH, git, YAML and certificate libraries; image build, push and pull; DNS registration.
- `daemon/certauth.go`, `daemon/buckets.go`, `daemon/collections.go`, `daemon/setup.go`, and the bodies of bucket,
  user and index requests: formatting around one call.
- Termination of polls without a deadline (`PollRebalance`, `PollCompressionMode`, `WaitForBucketReady`): an answer.
- The `ejectedIds` map of `Node.Rebalance`, which is nil; its callers pass no nodes (`cluster/node.go:75`).
- `Manager.Rebalance` outside a bring-up, which is the same loop; `StartServer`, whose body is commented out.
- HTTP requests still in progress when the server closes; they are not waited for.
- Workloads, statistics, logging and sleeps.
