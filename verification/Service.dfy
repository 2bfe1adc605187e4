/** A cluster whose zone is settled and whose nodes hold the published list serves every request. */
module Service {
  import opened Options
  import opened Hosts
  import opened Dns
  import opened Redirect

  /** The node at the i-th address once it has loaded the published list. */
  function NodeAt(c: Cluster, ips: seq<string>, i: nat): Node
    requires i < |ips|
  {
    Node(GetNodeHost(c.nodeId, ips[i], c.host), c.host, Some(PublishedHosts(c, ips)))
  }

  ghost predicate DistinctIds(c: Cluster, ips: seq<string>) {
    forall i, j :: 0 <= i < j < |ips| ==> c.nodeId(ips[i]) != c.nodeId(ips[j])
  }

  lemma PublishedIsDerived(c: Cluster, ips: seq<string>, i: nat)
    requires i < |ips|
    ensures DerivedList(c.nodeId, NodeAt(c, ips, i))
  {
    hide GetNodeHost;
    var list := PublishedHosts(c, ips);
    forall h | h in list ensures IsDerived(c.nodeId, c.host, h) {
      var k :| 0 <= k < |list| && list[k] == h;
      assert h == GetNodeHost(c.nodeId, ips[k], c.host);
    }
  }

  /** A node is the owner of a world exactly when the hash picks its position in the list. */
  lemma OwnerByPosition(c: Cluster, ips: seq<string>, i: nat, hash: nat)
    requires i < |ips| && DistinctIds(c, ips)
    ensures GetAssignedNode(NodeAt(c, ips, i), hash) == Some(GetNodeHost(c.nodeId, ips[hash % |ips|], c.host))
    ensures IsMyWork(NodeAt(c, ips, i), hash) <==> i == hash % |ips|
  {
    hide GetNodeHost;
    NodeHostInjective(c.nodeId, ips[i], ips[hash % |ips|], c.host);
  }

  /** Whichever node a request for the cluster's host reaches, that node either owns the world and accepts, or
      redirects to a host that resolves to the owner's address and to no other, and the owner accepts. */
  lemma EveryRequestIsServed(c: Cluster, z: Zone, ips: seq<string>, i: nat, hash: nat, path: string)
    requires Settled(c, z, ips) && Named(c, z) && DistinctIds(c, ips)
    requires i < |ips| && '/' !in c.host && path != "" && path[0] == '/'
    ensures var response := RedirectIfNeeded(NodeAt(c, ips, i), c.host, hash, path);
            var owner := hash % |ips|;
            if i == owner then response == Accepted
            else
              && response.TemporaryRedirect? && |response.location| >= 8
              && (forall target :: ResolvesTo(z, HostOf(response.location), target) <==> target == ips[owner])
              && RedirectIfNeeded(NodeAt(c, ips, owner), HostOf(response.location), hash, path) == Accepted
  {
    hide GetNodeHost, HostOf, SplitHost, FirstDot, IsNodeName, Settled, Named, DerivedList, PublishedHosts;
    var owner := hash % |ips|;
    OwnerByPosition(c, ips, i, hash);
    OwnerByPosition(c, ips, owner, hash);
    if i != owner {
      PublishedIsDerived(c, ips, i);
      DerivedIsProper(c.nodeId, NodeAt(c, ips, i));
      RedirectTarget(NodeAt(c, ips, i), c.host, hash, path);
      forall target
        ensures ResolvesTo(z, GetNodeHost(c.nodeId, ips[owner], c.host), target) <==> target == ips[owner]
      {
        Resolution(c, z, ips, owner, target);
      }
    }
  }

  lemma Resolution(c: Cluster, z: Zone, ips: seq<string>, i: nat, target: string)
    requires Settled(c, z, ips) && Named(c, z) && DistinctIds(c, ips) && i < |ips|
    ensures ResolvesTo(z, GetNodeHost(c.nodeId, ips[i], c.host), target) <==> target == ips[i]
  {
    hide GetNodeHost, SplitHost, FirstDot, IsNodeName, Settled, Named;
    forall other | other in ips && c.nodeId(other) == c.nodeId(ips[i]) ensures other == ips[i] {
      var k :| 0 <= k < |ips| && ips[k] == other;
    }
    HostLeadsToItsNode(c, z, ips, ips[i], target);
  }
}
