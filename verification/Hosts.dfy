/** Host names of a cluster and of its nodes. */
module Hosts {
  import opened Options

  const NODE_ID_LEN := 16

  predicate IsHexDigit(c: char) {
    '0' <= c <= '9' || 'a' <= c <= 'f'
  }

  /** The node id of an address: some fixed digest, written as 16 hexadecimal digits. */
  type NodeId = f: string -> string
    | forall ip :: |f(ip)| == NODE_ID_LEN && forall c :: c in f(ip) ==> IsHexDigit(c)
    witness ip => "0000000000000000"

  function FirstDot(host: string): (k: Option<nat>)
    ensures k.Some? ==> k.value < |host| && host[k.value] == '.' && '.' !in host[..k.value]
    ensures k.None? ==> '.' !in host
  {
    if host == "" then None
    else if host[0] == '.' then Some(0)
    else
      var k := FirstDot(host[1..]);
      assert host == [host[0]] + host[1..];
      assert k.Some? ==> host[..k.value + 1] == [host[0]] + host[1..][..k.value];
      if k.Some? then Some(k.value + 1) else None
  }

  /** The part before the first dot and the rest, if the rest has a dot itself; otherwise all is the domain. */
  function SplitHost(host: string): (string, string) {
    var k := FirstDot(host);
    if k.Some? && '.' in host[k.value + 1..] then (host[..k.value], host[k.value + 1..]) else ("", host)
  }

  function GetNodeHost(nodeId: NodeId, ip: string, clusterHost: string): string {
    var (prefix, base) := SplitHost(clusterHost);
    if prefix == "" then nodeId(ip) + "." + base else prefix + "-" + nodeId(ip) + "." + base
  }

  function GetNodePrefix(nodeId: NodeId, ip: string, clusterHost: string): string {
    var (prefix, _) := SplitHost(clusterHost);
    if prefix == "" then nodeId(ip) else prefix + "-" + nodeId(ip)
  }

  /** Splitting a host loses nothing but the dot, and only an empty first label is dropped. */
  lemma SplitHostParts(host: string)
    ensures var (prefix, base) := SplitHost(host); prefix != "" ==>
              host == prefix + "." + base && '.' !in prefix && '.' in base
    ensures var (prefix, base) := SplitHost(host); prefix == "" ==> host == base || host == "." + base
  {
    var k := FirstDot(host);
    if k.Some? {
      assert host == host[..k.value] + "." + host[k.value + 1..];
    }
  }

  lemma {:induction false} FirstDotAfter(first: string, rest: string)
    requires '.' !in first
    ensures FirstDot(first + "." + rest) == Some(|first|)
  {
    var host := first + "." + rest;
    if first == "" {
      assert host[0] == '.';
    } else {
      assert first == [first[0]] + first[1..];
      assert host[0] == first[0] && host[1..] == first[1..] + "." + rest;
      FirstDotAfter(first[1..], rest);
    }
  }

  /** Splitting undoes joining: a first label and a domain with a dot are found again, and no other label is. */
  lemma SplitHostFinds(first: string, rest: string)
    requires '.' !in first
    ensures SplitHost(first + "." + rest) == if '.' in rest then (first, rest) else ("", first + "." + rest)
  {
    FirstDotAfter(first, rest);
    var host := first + "." + rest;
    assert host[..|first|] == first && host[|first| + 1..] == rest;
  }

  /** The record name that a node's prefix stands for is the node's host. */
  lemma NodePrefixNamesHost(nodeId: NodeId, ip: string, clusterHost: string)
    ensures GetNodePrefix(nodeId, ip, clusterHost) + "." + SplitHost(clusterHost).1
         == GetNodeHost(nodeId, ip, clusterHost)
  {
    var (prefix, base) := SplitHost(clusterHost);
    if prefix != "" {
      assert (prefix + "-" + nodeId(ip)) + "." + base == prefix + "-" + nodeId(ip) + "." + base;
    }
  }

  /** A node's host is longer than the cluster's by its id and at most one separator, so the two never meet. */
  lemma NodeHostIsNotCluster(nodeId: NodeId, ip: string, clusterHost: string)
    ensures |GetNodeHost(nodeId, ip, clusterHost)| >= |clusterHost| + NODE_ID_LEN
    ensures GetNodeHost(nodeId, ip, clusterHost) != clusterHost
  {
    SplitHostParts(clusterHost);
  }

  lemma Middle(lead: string, id: string, tail: string)
    ensures |lead + id + tail| >= |lead| + |id| && (lead + id + tail)[|lead|..|lead| + |id|] == id
  {
  }

  /** What comes before the id and what comes after it do not depend on the node. */
  function Lead(clusterHost: string): string {
    var (prefix, _) := SplitHost(clusterHost);
    if prefix == "" then "" else prefix + "-"
  }

  function Tail(clusterHost: string): string {
    "." + SplitHost(clusterHost).1
  }

  lemma NodeHostParts(nodeId: NodeId, ip: string, clusterHost: string)
    ensures GetNodeHost(nodeId, ip, clusterHost) == Lead(clusterHost) + nodeId(ip) + Tail(clusterHost)
  {
    hide FirstDot, SplitHost;
    var (prefix, base) := SplitHost(clusterHost);
    if prefix == "" {
      assert "" + nodeId(ip) + ("." + base) == nodeId(ip) + "." + base;
    } else {
      assert (prefix + "-") + nodeId(ip) + ("." + base) == prefix + "-" + nodeId(ip) + "." + base;
    }
  }

  /** The two forms of a node's host: beside the cluster's host in its domain, or below it. */
  lemma NodeHostForms(nodeId: NodeId, ip: string, first: string, rest: string)
    requires '.' !in first
    ensures first != "" && '.' in rest ==>
              GetNodeHost(nodeId, ip, first + "." + rest) == first + "-" + nodeId(ip) + "." + rest
    ensures '.' !in rest ==>
              GetNodeHost(nodeId, ip, first + "." + rest) == nodeId(ip) + "." + (first + "." + rest)
  {
    SplitHostFinds(first, rest);
    hide FirstDot, SplitHost;
  }

  /** Two nodes share a host exactly when they share an id. */
  lemma NodeHostInjective(nodeId: NodeId, a: string, b: string, clusterHost: string)
    ensures GetNodeHost(nodeId, a, clusterHost) == GetNodeHost(nodeId, b, clusterHost) <==> nodeId(a) == nodeId(b)
  {
    hide FirstDot, SplitHost, GetNodeHost, Lead, Tail;
    NodeHostParts(nodeId, a, clusterHost);
    NodeHostParts(nodeId, b, clusterHost);
    Middle(Lead(clusterHost), nodeId(a), Tail(clusterHost));
    Middle(Lead(clusterHost), nodeId(b), Tail(clusterHost));
  }
}
