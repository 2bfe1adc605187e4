/** Which node of a cluster serves a world, and how a request finds it. */
module Redirect {
  import opened Options
  import opened Hosts

  datatype Worker = Me | Other(host: string) | Nothing

  /** A node's view of the cluster; its list may be missing, stale or different from other nodes' lists. */
  datatype Node = Node(nodeHost: string, clusterHost: string, nodeList: Option<seq<string>>)

  function GetAssignedNode(n: Node, hash: nat): Option<string> {
    if n.nodeList.None? || |n.nodeList.value| == 0 then None
    else Some(n.nodeList.value[hash % |n.nodeList.value|])
  }

  predicate IsMyWork(n: Node, hash: nat) {
    GetAssignedNode(n, hash) == Some(n.nodeHost)
  }

  function GetWorker(n: Node, hash: nat): Worker {
    match GetAssignedNode(n, hash)
    case None => Nothing
    case Some(host) => if host == n.nodeHost then Me else Other(host)
  }

  predicate CanRedirect(n: Node, requestHost: string) {
    n.clusterHost == requestHost
  }

  datatype Response = Accepted | Forbidden | TemporaryRedirect(location: string)

  function RedirectIfNeeded(n: Node, host: string, hash: nat, path: string): Response {
    match GetWorker(n, hash)
    case Me => Accepted
    case Nothing => Forbidden
    case Other(otherHost) =>
      if CanRedirect(n, host) then TemporaryRedirect("https://" + otherHost + path) else Forbidden
  }

  /** How any node answers any request: it serves a world of its own whatever host is asked for, sends a world of
      another node there if the cluster's host is asked for, and refuses everything else, without a list all. */
  lemma AnswersExactly(n: Node, host: string, hash: nat, path: string)
    ensures RedirectIfNeeded(n, host, hash, path).Accepted? <==>
            n.nodeList.Some? && n.nodeList.value != [] && n.nodeList.value[hash % |n.nodeList.value|] == n.nodeHost
    ensures forall location :: RedirectIfNeeded(n, host, hash, path) == TemporaryRedirect(location) <==>
              && n.nodeList.Some? && n.nodeList.value != [] && n.nodeList.value[hash % |n.nodeList.value|] != n.nodeHost
              && host == n.clusterHost && location == "https://" + n.nodeList.value[hash % |n.nodeList.value|] + path
    ensures IsMyWork(n, hash) <==> RedirectIfNeeded(n, host, hash, path).Accepted?
  {
  }

  /** The client object: the node list is replaced as a whole whenever a new one is loaded. */
  class Client {
    const nodeHost: string
    const clusterHost: string
    var nodeList: Option<seq<string>>

    constructor (nodeHost: string, clusterHost: string)
      ensures View() == Node(nodeHost, clusterHost, None)
    {
      this.nodeHost := nodeHost;
      this.clusterHost := clusterHost;
      nodeList := None;
    }

    function View(): Node
      reads this
    {
      Node(nodeHost, clusterHost, nodeList)
    }

    method SetNodeList(nodes: seq<string>)
      modifies this
      ensures View() == old(View()).(nodeList := Some(nodes))
    {
      nodeList := Some(nodes);
    }
  }

  /** The host a browser goes to for an https location. */
  function HostOf(location: string): string
    requires |location| >= 8
  {
    UpToSlash(location[8..])
  }

  function UpToSlash(s: string): string {
    if s == "" || s[0] == '/' then "" else [s[0]] + UpToSlash(s[1..])
  }

  lemma {:induction false} UpToSlashStops(host: string, path: string)
    requires '/' !in host && path != "" && path[0] == '/'
    ensures UpToSlash(host + path) == host
  {
    if host == "" {
      assert host + path == path;
    } else {
      assert host == [host[0]] + host[1..];
      assert (host + path)[1..] == host[1..] + path;
      UpToSlashStops(host[1..], path);
    }
  }

  /** The hosts in a node's list are derived from addresses, as the published list is. */
  ghost predicate DerivedList(nodeId: NodeId, n: Node) {
    n.nodeList.Some? ==> forall h :: h in n.nodeList.value ==> IsDerived(nodeId, n.clusterHost, h)
  }

  ghost predicate IsDerived(nodeId: NodeId, clusterHost: string, h: string) {
    exists ip :: h == GetNodeHost(nodeId, ip, clusterHost)
  }

  lemma DerivedHost(nodeId: NodeId, clusterHost: string, ip: string)
    requires '/' !in clusterHost
    ensures GetNodeHost(nodeId, ip, clusterHost) != clusterHost
    ensures '/' !in GetNodeHost(nodeId, ip, clusterHost)
  {
    NodeHostIsNotCluster(nodeId, ip, clusterHost);
    NodeHostParts(nodeId, ip, clusterHost);
    SplitHostParts(clusterHost);
    assert '/' !in nodeId(ip);
    hide FirstDot, SplitHost, GetNodeHost;
    assert '/' !in Lead(clusterHost) && '/' !in Tail(clusterHost);
  }

  /** What redirecting needs of a node's list: it names no host with a slash, and never the cluster's host. */
  predicate ProperList(n: Node) {
    n.nodeList.Some? ==> forall h :: h in n.nodeList.value ==> h != n.clusterHost && '/' !in h
  }

  lemma DerivedIsProper(nodeId: NodeId, n: Node)
    requires DerivedList(nodeId, n) && '/' !in n.clusterHost
    ensures ProperList(n)
  {
    hide GetNodeHost;
    if n.nodeList.Some? {
      forall h | h in n.nodeList.value ensures h != n.clusterHost && '/' !in h {
        var ip :| h == GetNodeHost(nodeId, ip, n.clusterHost);
        DerivedHost(nodeId, n.clusterHost, ip);
      }
    }
  }

  lemma LocationHost(host: string, path: string)
    requires '/' !in host && path != "" && path[0] == '/'
    ensures |"https://" + host + path| >= 8 && HostOf("https://" + host + path) == host
  {
    UpToSlashStops(host, path);
    assert ("https://" + host + path)[8..] == host + path;
  }

  /** Where a redirect leads: the host that the redirecting node has assigned, which is never the cluster's. */
  lemma RedirectTarget(n: Node, host: string, hash: nat, path: string)
    requires ProperList(n) && path != "" && path[0] == '/'
    requires RedirectIfNeeded(n, host, hash, path).TemporaryRedirect?
    ensures |RedirectIfNeeded(n, host, hash, path).location| >= 8
    ensures Some(HostOf(RedirectIfNeeded(n, host, hash, path).location)) == GetAssignedNode(n, hash)
    ensures HostOf(RedirectIfNeeded(n, host, hash, path).location) != n.clusterHost
  {
    hide HostOf;
    LocationHost(GetAssignedNode(n, hash).value, path);
  }

  /** The redirects a request meets when it is served by these nodes one after the other. */
  function Redirects(nodes: seq<Node>, host: string, hash: nat, path: string): nat
    decreases |nodes|
  {
    if nodes == [] then 0
    else
      match RedirectIfNeeded(nodes[0], host, hash, path)
      case TemporaryRedirect(location) =>
        1 + if |location| >= 8 then Redirects(nodes[1..], HostOf(location), hash, path) else 0
      case _ => 0
  }

  /** Nodes of one cluster, whatever lists of proper hosts they hold. */
  ghost predicate SameCluster(nodes: seq<Node>, clusterHost: string) {
    forall n :: n in nodes ==> n.clusterHost == clusterHost && ProperList(n)
  }

  /** Only a request for the cluster's own host is ever redirected. */
  lemma OtherHostsStay(nodes: seq<Node>, clusterHost: string, host: string, hash: nat, path: string)
    requires SameCluster(nodes, clusterHost) && host != clusterHost
    ensures Redirects(nodes, host, hash, path) == 0
  {
    hide HostOf, ProperList;
    if nodes != [] {
      assert nodes[0] in nodes;
    }
  }

  /** However stale or inconsistent the lists are, no request is redirected twice. */
  lemma AtMostOneRedirect(nodes: seq<Node>, clusterHost: string, host: string, hash: nat, path: string)
    requires SameCluster(nodes, clusterHost) && path != "" && path[0] == '/'
    ensures Redirects(nodes, host, hash, path) <= 1
  {
    hide HostOf, ProperList, RedirectIfNeeded, GetAssignedNode;
    if nodes != [] && RedirectIfNeeded(nodes[0], host, hash, path).TemporaryRedirect? {
      assert nodes[0] in nodes;
      RedirectTarget(nodes[0], host, hash, path);
      var next := HostOf(RedirectIfNeeded(nodes[0], host, hash, path).location);
      OtherHostsStay(nodes[1..], clusterHost, next, hash, path);
    }
  }

  /** In particular, no request is redirected twice when all lists hold derived node hosts, as published lists do. */
  lemma DerivedListsRedirectOnce(nodeId: NodeId, nodes: seq<Node>, clusterHost: string, host: string, hash: nat,
                                 path: string)
    requires forall n :: n in nodes ==> n.clusterHost == clusterHost && DerivedList(nodeId, n)
    requires '/' !in clusterHost && path != "" && path[0] == '/'
    ensures Redirects(nodes, host, hash, path) <= 1
  {
    hide DerivedList, ProperList, Redirects;
    forall n | n in nodes ensures ProperList(n) {
      DerivedIsProper(nodeId, n);
    }
    AtMostOneRedirect(nodes, clusterHost, host, hash, path);
  }

  /** The node a request was redirected to accepts it exactly when it assigns the world as the redirecting node did. */
  lemma OwnerAccepts(n: Node, owner: Node, host: string, hash: nat, path: string)
    requires ProperList(n) && path != "" && path[0] == '/'
    requires RedirectIfNeeded(n, host, hash, path).TemporaryRedirect?
    requires Some(owner.nodeHost) == GetAssignedNode(n, hash)
    ensures |RedirectIfNeeded(n, host, hash, path).location| >= 8
    ensures HostOf(RedirectIfNeeded(n, host, hash, path).location) == owner.nodeHost
    ensures RedirectIfNeeded(owner, owner.nodeHost, hash, path) == Accepted
       <==> GetAssignedNode(owner, hash) == GetAssignedNode(n, hash)
    ensures owner.nodeList == n.nodeList ==> RedirectIfNeeded(owner, owner.nodeHost, hash, path) == Accepted
  {
    hide HostOf;
    RedirectTarget(n, host, hash, path);
  }

  predicate SoleOwner(nodes: seq<Node>, hash: nat, i: nat) {
    i < |nodes| && forall j :: 0 <= j < |nodes| ==> (IsMyWork(nodes[j], hash) <==> j == i)
  }

  /** With a common list that names every node once, every world is the work of exactly one node. */
  lemma ExactlyOneOwner(nodes: seq<Node>, hosts: seq<string>, hash: nat)
    requires |nodes| == |hosts| > 0
    requires forall i :: 0 <= i < |nodes| ==> nodes[i].nodeHost == hosts[i] && nodes[i].nodeList == Some(hosts)
    requires forall i, j :: 0 <= i < j < |hosts| ==> hosts[i] != hosts[j]
    ensures exists i :: SoleOwner(nodes, hash, i)
  {
    var i := hash % |hosts|;
    forall j | 0 <= j < |nodes| ensures IsMyWork(nodes[j], hash) <==> j == i {
      assert GetAssignedNode(nodes[j], hash) == Some(hosts[i]);
      assert hosts[j] == hosts[i] <==> j == i by {
        if j < i { assert hosts[j] != hosts[i]; } else if i < j { assert hosts[i] != hosts[j]; }
      }
    }
    assert SoleOwner(nodes, hash, i);
  }
}
