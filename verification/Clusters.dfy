/** Grouping the containers of a listing into clusters (daemon/clusters.go:58-144). */
module Clusters {
  import opened Basics

  /** A container as Docker lists it.  `cluster` and `creator` are the values of its
      com.couchbase.dyncluster labels, "" where the label is missing. */
  datatype Container = Container(
    id: string, name: string, state: string,
    cluster: string, creator: string, node: string, version: string,
    ipv4: string, ipv6: string)

  predicate Running(c: Container) { c.state == "running" }

  /** The containers of one cluster, in listing order. */
  function Labelled(listing: seq<Container>, id: string): seq<Container> {
    if listing == [] then []
    else (if listing[0].cluster == id then [listing[0]] else []) + Labelled(listing[1..], id)
  }

  /** The cluster labels that occur in a listing; containers without one are not ours. */
  function Ids(listing: seq<Container>): set<string> {
    set c <- listing | c.cluster != "" :: c.cluster
  }

  /** The first creator label that is not empty. */
  function FirstCreator(cs: seq<Container>): string {
    if cs == [] then ""
    else if cs[0].creator != "" then cs[0].creator
    else FirstCreator(cs[1..])
  }

  function CreatorOf(listing: seq<Container>, id: string): string {
    var creator := FirstCreator(Labelled(listing, id));
    if creator == "" then "unknown" else creator
  }

  /** Whether getAllClusters shows this cluster to this caller. */
  predicate Visible(ctx: Ctx, listing: seq<Container>, id: string) {
    ctx.ignoreOwnership || CreatorOf(listing, id) == ctx.user
  }

  lemma {:induction false} LabelledMembers(listing: seq<Container>, id: string)
    ensures forall c :: c in Labelled(listing, id) <==> c in listing && c.cluster == id
  {
    if listing != [] {
      LabelledMembers(listing[1..], id);
    }
  }

  /** When all containers of a cluster were labelled by one user, that user is its creator. */
  lemma {:induction false} CreatorIsCommonLabel(listing: seq<Container>, id: string, user: string)
    requires user != ""
    requires exists c <- listing :: c.cluster == id
    requires forall c <- listing :: c.cluster == id ==> c.creator == user
    ensures CreatorOf(listing, id) == user
  {
    LabelledMembers(listing, id);
    var cs := Labelled(listing, id);
    var c :| c in listing && c.cluster == id;
    assert c in cs;
    assert cs[0] in cs;
  }

  /** The resolved creator is the first label that is not empty, or unknown if all are. */
  lemma {:induction false} CreatorIsFirst(cs: seq<Container>)
    ensures FirstCreator(cs) == "" <==> forall c <- cs :: c.creator == ""
    ensures forall i :: 0 <= i < |cs| && cs[i].creator != "" && (forall j :: 0 <= j < i ==> cs[j].creator == "") ==>
              FirstCreator(cs) == cs[i].creator
  {
    if cs != [] {
      CreatorIsFirst(cs[1..]);
      assert cs == [cs[0]] + cs[1..];
      forall i | 0 < i < |cs| && cs[i].creator != "" && (forall j :: 0 <= j < i ==> cs[j].creator == "")
        ensures FirstCreator(cs) == cs[i].creator
      {
        assert cs[i] == cs[1..][i - 1];
        assert forall j :: 0 <= j < i - 1 ==> cs[1..][j] == cs[j + 1];
      }
    }
  }
}
