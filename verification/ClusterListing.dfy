/** getAllClusters and getCluster as the loops they are (daemon/clusters.go:58-144), against the grouping
    functions of Clusters, and the JSON form of what they return (daemon/restserver.go:46-138). */
module ClusterListing {
  import opened Basics
  import opened Clusters
  import opened Rfc3339
  import opened Metadata

  datatype Node = Node(
    id: string, name: string, state: string, node: string, version: string, ipv4: string, ipv6: string)

  datatype Cluster = Cluster(
    id: string, creator: string, owner: string, timeout: Time, nodes: seq<Node>, entryPoint: string)

  /** Docker's container ids are long enough to be shortened to twelve digits. */
  ghost predicate FromDocker(listing: seq<Container>) {
    forall c <- listing :: |c.id| >= 12
  }

  function NodeOf(c: Container): Node
    requires |c.id| >= 12
  {
    Node(c.id[0..12], c.name, c.state, c.node, c.version, c.ipv4, c.ipv6)
  }

  /** The nodes of some containers, in order. */
  function NodesOf(cs: seq<Container>): seq<Node>
    requires forall c <- cs :: |c.id| >= 12
  {
    if cs == [] then [] else NodesOf(cs[..|cs| - 1]) + [NodeOf(cs[|cs| - 1])]
  }

  /** The one cluster a listing shows under a label; `metas` is what GetClusterMeta returned. */
  ghost function ClusterFor(listing: seq<Container>, metas: string -> ClusterMeta, id: string): (cl: Cluster)
    requires FromDocker(listing)
    ensures cl.id == id
  {
    LabelledMembers(listing, id);
    Cluster(id, CreatorOf(listing, id), metas(id).owner, metas(id).timeout, NodesOf(Labelled(listing, id)), "")
  }

  ghost function VisibleIds(ctx: Ctx, listing: seq<Container>): set<string> {
    set id <- Ids(listing) | Visible(ctx, listing, id)
  }

  /** Grouping loses and duplicates nothing: each container is in its own cluster's group as often as in
      the listing, and in no other. */
  lemma {:induction false} GroupingIsExact(listing: seq<Container>, id: string, c: Container)
    ensures multiset(Labelled(listing, id))[c] == if c.cluster == id then multiset(listing)[c] else 0
  {
    if listing != [] {
      GroupingIsExact(listing[1..], id, c);
      assert listing == [listing[0]] + listing[1..];
    }
  }

  lemma {:induction false} LabelledSnoc(listing: seq<Container>, c: Container, id: string)
    ensures Labelled(listing + [c], id) == Labelled(listing, id) + (if c.cluster == id then [c] else [])
  {
    if listing == [] {
      assert [c][1..] == [];
    } else {
      assert (listing + [c])[1..] == listing[1..] + [c];
      LabelledSnoc(listing[1..], c, id);
    }
  }

  lemma {:induction false} FirstCreatorSnoc(cs: seq<Container>, c: Container)
    ensures FirstCreator(cs + [c]) == if FirstCreator(cs) != "" then FirstCreator(cs) else c.creator
  {
    if cs == [] {
      assert [c][1..] == [];
    } else {
      assert (cs + [c])[1..] == cs[1..] + [c];
      FirstCreatorSnoc(cs[1..], c);
    }
  }

  /** The first loop: one list of containers per label (daemon/clusters.go:81-88). */
  method GroupContainers(containers: seq<Container>) returns (clusterMap: map<string, seq<Container>>)
    ensures clusterMap.Keys == Ids(containers)
    ensures forall id <- clusterMap :: clusterMap[id] == Labelled(containers, id)
  {
    hide Labelled, Ids;
    clusterMap := map[];
    NothingLabelled();
    for i := 0 to |containers|
      invariant clusterMap.Keys == Ids(containers[..i])
      invariant "" !in clusterMap && forall id <- clusterMap :: clusterMap[id] == Labelled(containers[..i], id)
    {
      var c := containers[i];
      assert containers[..i + 1] == containers[..i] + [c];
      forall id
        ensures id != c.cluster ==> Labelled(containers[..i + 1], id) == Labelled(containers[..i], id)
        ensures id == c.cluster ==> Labelled(containers[..i + 1], id) == Labelled(containers[..i], id) + [c]
      {
        LabelledSnoc(containers[..i], c, id);
      }
      IdsSnoc(containers[..i], c);
      if c.cluster != "" {
        if c.cluster !in clusterMap {
          NewLabel(containers[..i], c.cluster);
        }
        clusterMap := clusterMap[c.cluster := (if c.cluster in clusterMap then clusterMap[c.cluster] else []) + [c]];
      }
    }
    assert containers[..|containers|] == containers;
  }

  lemma NothingLabelled()
    ensures Ids([]) == {}
  {}

  lemma IdsSnoc(listing: seq<Container>, c: Container)
    ensures Ids(listing + [c]) == Ids(listing) + (if c.cluster != "" then {c.cluster} else {})
  {}

  lemma {:induction false} NewLabel(listing: seq<Container>, id: string)
    requires id !in Ids(listing) && id != ""
    ensures Labelled(listing, id) == []
  {
    if listing != [] {
      assert listing[0].cluster in Ids(listing) || listing[0].cluster == "";
      assert Ids(listing[1..]) <= Ids(listing);
      NewLabel(listing[1..], id);
    }
  }

  /** The inner loop over one cluster's containers (daemon/clusters.go:97-127). */
  method DescribeContainers(containers: seq<Container>) returns (creator: string, nodes: seq<Node>)
    requires forall c <- containers :: |c.id| >= 12
    ensures nodes == NodesOf(containers)
    ensures creator == if FirstCreator(containers) == "" then "unknown" else FirstCreator(containers)
  {
    creator, nodes := "", [];
    for i := 0 to |containers|
      invariant nodes == NodesOf(containers[..i])
      invariant creator == FirstCreator(containers[..i])
    {
      var c := containers[i];
      assert containers[..i + 1] == containers[..i] + [c];
      FirstCreatorSnoc(containers[..i], c);
      if creator == "" {
        creator := c.creator;
      }
      assert containers[..i + 1][..i] == containers[..i];
      nodes := nodes + [NodeOf(c)];
    }
    assert containers[..|containers|] == containers;
    if creator == "" {
      creator := "unknown";
    }
  }

  lemma CreatorIs(listing: seq<Container>, id: string)
    ensures CreatorOf(listing, id)
            == if FirstCreator(Labelled(listing, id)) == "" then "unknown" else FirstCreator(Labelled(listing, id))
  {}

  /** One cluster for each label the caller may see, whatever order the map is walked in. */
  method GetAllClusters(ctx: Ctx, containers: seq<Container>, metas: string -> ClusterMeta)
      returns (clusters: seq<Cluster>)
    requires FromDocker(containers)
    ensures forall cl <- clusters :: cl.id in VisibleIds(ctx, containers) && cl == ClusterFor(containers, metas, cl.id)
    ensures forall id <- VisibleIds(ctx, containers) :: ClusterFor(containers, metas, id) in clusters
    ensures forall i, j :: 0 <= i < j < |clusters| ==> clusters[i].id != clusters[j].id
  {
    hide Labelled, Ids, CreatorOf, NodesOf, NodeOf;
    var clusterMap := GroupContainers(containers);
    clusters := [];
    var todo := clusterMap.Keys;
    while todo != {}
      invariant todo <= clusterMap.Keys
      invariant forall cl <- clusters ::
        cl.id in VisibleIds(ctx, containers) && cl.id !in todo && cl == ClusterFor(containers, metas, cl.id)
      invariant forall id <- VisibleIds(ctx, containers) :: id in todo || ClusterFor(containers, metas, id) in clusters
      invariant forall i, j :: 0 <= i < j < |clusters| ==> clusters[i].id != clusters[j].id
      decreases todo
    {
      var id :| id in todo;
      todo := todo - {id};
      LabelledMembers(containers, id);
      var meta := metas(id);
      var creator, nodes := DescribeContainers(clusterMap[id]);
      assert creator == CreatorOf(containers, id) by {
        CreatorIs(containers, id);
      }
      if !ctx.ignoreOwnership && creator != ctx.user {
        continue;
      }
      clusters := clusters + [Cluster(id, creator, meta.owner, meta.timeout, nodes, "")];
    }
  }

  /** So looking a cluster up does not depend on that order. */
  method GetCluster(ctx: Ctx, containers: seq<Container>, metas: string -> ClusterMeta, id: string)
      returns (r: Result<Cluster, string>)
    requires FromDocker(containers)
    ensures r == if id in VisibleIds(ctx, containers) then Ok(ClusterFor(containers, metas, id))
                 else Err("cluster not found")
  {
    hide FromDocker, VisibleIds, ClusterFor;
    var clusters := GetAllClusters(ctx, containers, metas);
    for i := 0 to |clusters|
      invariant forall k :: 0 <= k < i ==> clusters[k].id != id
    {
      if clusters[i].id == id {
        return Ok(clusters[i]);
      }
    }
    r := Err("cluster not found");
  }

  // ---------- JSON ----------

  datatype NodeJSON = NodeJSON(
    id: string, containerName: string, state: string, name: string, initialServerVersion: string,
    ipv4Address: string, ipv6Address: string)

  datatype ClusterJSON = ClusterJSON(
    id: string, creator: string, owner: string, timeout: string, nodes: seq<NodeJSON>, entry: string)

  function JsonifyNode(n: Node): NodeJSON {
    NodeJSON(n.id, n.name, n.state, n.node, n.version, n.ipv4, n.ipv6)
  }

  function UnjsonifyNode(j: NodeJSON): Node {
    Node(j.id, j.containerName, j.state, j.name, j.initialServerVersion, j.ipv4Address, j.ipv6Address)
  }

  function JsonifyNodes(nodes: seq<Node>): (r: seq<NodeJSON>)
    ensures |r| == |nodes|
  {
    if nodes == [] then [] else JsonifyNodes(nodes[..|nodes| - 1]) + [JsonifyNode(nodes[|nodes| - 1])]
  }

  function UnjsonifyNodes(nodes: seq<NodeJSON>): (r: seq<Node>)
    ensures |r| == |nodes|
  {
    if nodes == [] then [] else UnjsonifyNodes(nodes[..|nodes| - 1]) + [UnjsonifyNode(nodes[|nodes| - 1])]
  }

  function ToJson(cluster: Cluster): ClusterJSON {
    ClusterJSON(cluster.id, cluster.creator, cluster.owner, Format(cluster.timeout),
                JsonifyNodes(cluster.nodes), cluster.entryPoint)
  }

  function FromJson(json: ClusterJSON): Result<Cluster, string> {
    match Parse(json.timeout)
    case None => Err("parsing time")
    case Some(timeout) =>
      Ok(Cluster(json.id, json.creator, json.owner, timeout, UnjsonifyNodes(json.nodes), json.entry))
  }

  method JsonifyCluster(cluster: Cluster) returns (json: ClusterJSON)
    ensures json == ToJson(cluster)
  {
    hide Format;
    json := ClusterJSON(cluster.id, cluster.creator, cluster.owner, Format(cluster.timeout), [], cluster.entryPoint);
    for i := 0 to |cluster.nodes|
      invariant json == ToJson(cluster).(nodes := JsonifyNodes(cluster.nodes[..i]))
    {
      assert cluster.nodes[..i + 1][..i] == cluster.nodes[..i];
      json := json.(nodes := json.nodes + [JsonifyNode(cluster.nodes[i])]);
    }
    assert cluster.nodes[..|cluster.nodes|] == cluster.nodes;
  }

  method UnjsonifyCluster(json: ClusterJSON) returns (r: Result<Cluster, string>)
    ensures r == FromJson(json)
  {
    hide Parse;
    var timeout := Parse(json.timeout);
    if timeout.None? {
      return Err("parsing time");
    }
    var nodes := [];
    for i := 0 to |json.nodes|
      invariant nodes == UnjsonifyNodes(json.nodes[..i])
    {
      assert json.nodes[..i + 1][..i] == json.nodes[..i];
      nodes := nodes + [UnjsonifyNode(json.nodes[i])];
    }
    assert json.nodes[..|json.nodes|] == json.nodes;
    r := Ok(Cluster(json.id, json.creator, json.owner, timeout.value, nodes, json.entry));
  }

  lemma {:induction false} NodesRoundTrip(nodes: seq<Node>)
    ensures UnjsonifyNodes(JsonifyNodes(nodes)) == nodes
  {
    if nodes != [] {
      NodesRoundTrip(nodes[..|nodes| - 1]);
    }
  }

  /** Sending a cluster and reading it back keeps everything, all nodes in order, but the fraction of the
      timeout; reading fails exactly when the timeout's year does not fit. */
  lemma JsonRoundTrip(cluster: Cluster)
    requires Valid(cluster.timeout)
    ensures FromJson(ToJson(cluster)).Ok? <==> 0 <= cluster.timeout.year <= 9999
    ensures FromJson(ToJson(cluster)) == Ok(cluster.(timeout := DropNanos(cluster.timeout)))
            <==> Encodable(cluster.timeout)
  {
    NodesRoundTrip(cluster.nodes);
    hide Parse, Format, JsonifyNodes, UnjsonifyNodes, TruncDiv;
    ZoneWhole(cluster.timeout.offset);
    if 0 <= cluster.timeout.year <= 9999 {
      FormatThenParse(cluster.timeout);
    } else {
      OtherYearsDoNotParse(cluster.timeout);
    }
  }

  lemma {:induction false} NodesInOrder(cs: seq<Container>, i: nat)
    requires (forall c <- cs :: |c.id| >= 12) && i < |cs|
    ensures |NodesOf(cs)| == |cs| && NodesOf(cs)[i] == NodeOf(cs[i])
  {
    var k := |cs| - 1;
    if k > 0 {
      NodesInOrder(cs[..k], if i < k then i else 0);
    }
  }

  lemma {:induction false} JsonInOrder(nodes: seq<Node>, i: nat)
    requires i < |nodes|
    ensures JsonifyNodes(nodes)[i] == JsonifyNode(nodes[i])
  {
    var k := |nodes| - 1;
    if i < k {
      JsonInOrder(nodes[..k], i);
    }
  }

  /** What a user is sent about a container of a cluster: of the i-th of its containers in the listing, the first
      twelve digits of its id, its names, its state, the version it was created for and its addresses. */
  lemma ContainerAsSent(listing: seq<Container>, metas: string -> ClusterMeta, id: string, i: nat)
    requires FromDocker(listing) && i < |Labelled(listing, id)|
    ensures var json, c := ToJson(ClusterFor(listing, metas, id)), Labelled(listing, id)[i];
            && |json.nodes| == |Labelled(listing, id)|
            && json.id == id && json.creator == CreatorOf(listing, id) && json.owner == metas(id).owner
            && json.timeout == Format(metas(id).timeout)
            && |c.id| >= 12 && json.nodes[i].id == c.id[..12] && json.nodes[i].containerName == c.name
            && json.nodes[i].state == c.state && json.nodes[i].name == c.node
            && json.nodes[i].initialServerVersion == c.version
            && json.nodes[i].ipv4Address == c.ipv4 && json.nodes[i].ipv6Address == c.ipv6
  {
    hide Format, CreatorOf;
    LabelledMembers(listing, id);
    var cs := Labelled(listing, id);
    NodesInOrder(cs, i);
    JsonInOrder(NodesOf(cs), i);
    assert cs[i] in cs;
  }
}
