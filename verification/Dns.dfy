/** How the manager reconciles a cluster's DNS records with the addresses of its live nodes. */
module Dns {
  import opened Hosts
  import opened Sequences

  datatype Record = Record(id: nat, name: string, ip: string)

  /** The A records of a zone, and the id the service gives to the next record. */
  datatype Zone = Zone(records: seq<Record>, next: nat)

  /** What the manager asks of the DNS service; a record is added by its prefix within the zone. */
  datatype Op = Delete(id: nat) | Insert(prefix: string, ip: string)

  /** How the service names a record: by prefix and zone, and without a prefix by a name of its own choice. */
  datatype Naming = Naming(base: string, apex: string)

  function RecordName(n: Naming, prefix: string): string {
    if prefix == "" then n.apex else prefix + "." + n.base
  }

  datatype Cluster = Cluster(nodeId: NodeId, host: string, apex: string)

  ghost predicate ValidZone(z: Zone) {
    && (forall r :: r in z.records ==> r.id < z.next)
    && (forall r, s :: r in z.records && s in z.records && r.id == s.id ==> r == s)
  }

  function Prefix(c: Cluster): string { SplitHost(c.host).0 }
  function Base(c: Cluster): string { SplitHost(c.host).1 }
  function NamingOf(c: Cluster): Naming { Naming(Base(c), c.apex) }

  /** The name of a record that the manager adds for the cluster's host. */
  function ClusterName(c: Cluster): string { RecordName(NamingOf(c), Prefix(c)) }

  /** Where the service's own choice matters it is no longer than a dot and the zone, so no node's record has it. */
  predicate ShortApex(c: Cluster) {
    Prefix(c) == "" ==> |c.apex| <= |Base(c)| + 1
  }

  // ---- selecting from sequences ----

  function Select<T>(xs: seq<T>, p: T -> bool): seq<T> {
    if xs == [] then []
    else Select(xs[..|xs| - 1], p) + if p(xs[|xs| - 1]) then [xs[|xs| - 1]] else []
  }

  lemma {:induction false} SelectMembers<T>(xs: seq<T>, p: T -> bool, x: T)
    ensures x in Select(xs, p) <==> x in xs && p(x)
  {
    if xs != [] {
      SelectMembers(xs[..|xs| - 1], p, x);
      assert xs == xs[..|xs| - 1] + [xs[|xs| - 1]];
    }
  }

  lemma SelectNext<T>(xs: seq<T>, p: T -> bool, k: nat)
    requires k < |xs|
    ensures Select(xs[..k + 1], p) == Select(xs[..k], p) + if p(xs[k]) then [xs[k]] else []
  {
    assert xs[..k + 1][..k] == xs[..k];
  }

  // ---- the zone ----

  function Without(records: seq<Record>, id: nat): seq<Record> {
    Select(records, (r: Record) => r.id != id)
  }

  function Apply(n: Naming, z: Zone, op: Op): Zone {
    match op
    case Delete(id) => Zone(Without(z.records, id), z.next)
    case Insert(prefix, ip) => Zone(z.records + [Record(z.next, RecordName(n, prefix), ip)], z.next + 1)
  }

  function ApplyAll(n: Naming, z: Zone, ops: seq<Op>): Zone {
    if ops == [] then z else Apply(n, ApplyAll(n, z, ops[..|ops| - 1]), ops[|ops| - 1])
  }

  lemma ApplyNone(n: Naming, z: Zone, ops: seq<Op>)
    ensures ApplyAll(n, z, ops[..0]) == z
  {
  }

  lemma ApplyAllNext(n: Naming, z: Zone, ops: seq<Op>, k: nat)
    requires k < |ops|
    ensures ApplyAll(n, z, ops[..k + 1]) == Apply(n, ApplyAll(n, z, ops[..k]), ops[k])
  {
    assert ops[..k + 1][..k] == ops[..k];
  }

  lemma WithoutMembers(records: seq<Record>, id: nat, r: Record)
    ensures r in Without(records, id) <==> r in records && r.id != id
  {
    SelectMembers(records, (s: Record) => s.id != id, r);
  }

  lemma {:induction false} ApplyAllValid(n: Naming, z: Zone, ops: seq<Op>)
    requires ValidZone(z)
    ensures ValidZone(ApplyAll(n, z, ops)) && z.next <= ApplyAll(n, z, ops).next
  {
    hide Without;
    if ops != [] {
      ApplyAllValid(n, z, ops[..|ops| - 1]);
      var y, op := ApplyAll(n, z, ops[..|ops| - 1]), ops[|ops| - 1];
      if op.Delete? {
        forall r ensures r in Without(y.records, op.id) <==> r in y.records && r.id != op.id {
          WithoutMembers(y.records, op.id, r);
        }
      }
    }
  }

  ghost predicate DeletesOld(z: Zone, ops: seq<Op>) {
    forall op :: op in ops && op.Delete? ==> op.id < z.next
  }

  /** An old record survives a series of requests exactly when none of them deletes it. */
  lemma {:induction false} OldRecords(n: Naming, z: Zone, ops: seq<Op>, r: Record)
    requires ValidZone(z) && r.id < z.next
    ensures r in ApplyAll(n, z, ops).records <==> r in z.records && Delete(r.id) !in ops
  {
    hide Without, ValidZone;
    if ops != [] {
      var front, op := ops[..|ops| - 1], ops[|ops| - 1];
      assert ops == front + [op];
      OldRecords(n, z, front, r);
      ApplyAllValid(n, z, front);
      if op.Delete? {
        WithoutMembers(ApplyAll(n, z, front).records, op.id, r);
      }
    }
  }

  /** Some record with this name and address was added since the zone handed out the id `from`. */
  ghost predicate Added(z: Zone, from: nat, name: string, ip: string) {
    exists r :: r in z.records && r.id >= from && r.name == name && r.ip == ip
  }

  ghost predicate Requested(n: Naming, ops: seq<Op>, name: string, ip: string) {
    exists op :: op in ops && op.Insert? && op.ip == ip && RecordName(n, op.prefix) == name
  }

  /** What a series of requests adds is what it asks for, as long as it deletes old records only. */
  lemma {:induction false} NewRecords(n: Naming, z: Zone, ops: seq<Op>, name: string, ip: string)
    requires ValidZone(z) && DeletesOld(z, ops)
    ensures Added(ApplyAll(n, z, ops), z.next, name, ip) <==> Requested(n, ops, name, ip)
  {
    hide Without;
    if ops != [] {
      var front, op := ops[..|ops| - 1], ops[|ops| - 1];
      assert ops == front + [op];
      var y := ApplyAll(n, z, front);
      NewRecords(n, z, front, name, ip);
      ApplyAllValid(n, z, front);
      match op {
        case Delete(id) =>
          forall r ensures r in Without(y.records, id) <==> r in y.records && r.id != id {
            WithoutMembers(y.records, id, r);
          }
          assert Requested(n, ops, name, ip) <==> Requested(n, front, name, ip);
        case Insert(p, i) =>
          assert Requested(n, ops, name, ip) <==>
                 Requested(n, front, name, ip) || (i == ip && RecordName(n, p) == name);
          var r := Record(y.next, RecordName(n, p), i);
          assert Apply(n, y, op).records == y.records + [r];
          assert r in y.records + [r];
      }
    }
  }

  // ---- classifying records ----

  predicate EndsWith(s: string, suffix: string) {
    |suffix| <= |s| && s[|s| - |suffix|..] == suffix
  }

  predicate BareShape(name: string, suffix: string) {
    |name| == NODE_ID_LEN + |suffix| && EndsWith(name, suffix)
  }

  predicate LedShape(name: string, lead: string, suffix: string) {
    |name| == NODE_ID_LEN + |lead| + |suffix| && lead <= name && EndsWith(name, suffix)
  }

  predicate IsNodeName(c: Cluster, name: string) {
    var suffix := "." + Base(c);
    if Prefix(c) == "" then BareShape(name, suffix) else LedShape(name, Prefix(c) + "-", suffix)
  }

  function ClusterRecords(c: Cluster, records: seq<Record>): seq<Record> {
    Select(records, (r: Record) => r.name == c.host)
  }

  function NodeRecords(c: Cluster, records: seq<Record>): seq<Record> {
    Select(records, (r: Record) => IsNodeName(c, r.name))
  }

  lemma ClusterRecordsMembers(c: Cluster, records: seq<Record>, r: Record)
    ensures r in ClusterRecords(c, records) <==> r in records && r.name == c.host
  {
    SelectMembers(records, (r: Record) => r.name == c.host, r);
  }

  lemma NodeRecordsMembers(c: Cluster, records: seq<Record>, r: Record)
    ensures r in NodeRecords(c, records) <==> r in records && IsNodeName(c, r.name)
  {
    SelectMembers(records, (r: Record) => IsNodeName(c, r.name), r);
  }

  /** No record belongs to both groups, so neither half of an update touches the other's records. */
  lemma GroupsDisjoint(c: Cluster, name: string)
    ensures IsNodeName(c, name) ==> name != c.host
  {
    hide IsHexDigit;
    SplitHostParts(c.host);
  }

  /** The host derived from a node's address has the shape by which its record is recognised. */
  lemma NodeHostIsNodeName(c: Cluster, ip: string)
    ensures IsNodeName(c, GetNodeHost(c.nodeId, ip, c.host))
  {
    hide FirstDot, SplitHost, GetNodeHost, Lead, Tail, IsNodeName;
    NodeHostParts(c.nodeId, ip, c.host);
    ShapedName(c, c.nodeId(ip));
  }

  // ---- the plan of one update ----

  ghost predicate HasIp(records: seq<Record>, ip: string) {
    exists r :: r in records && r.ip == ip
  }

  function IpSet(records: seq<Record>): (s: set<string>)
    ensures forall ip :: ip in s <==> HasIp(records, ip)
  {
    set r | r in records :: r.ip
  }

  function Dels(records: seq<Record>, ips: seq<string>): seq<Record> {
    Select(records, (r: Record) => r.ip !in ips)
  }

  function Adds(records: seq<Record>, ips: seq<string>): seq<string> {
    var prev := IpSet(records);
    Select(ips, (ip: string) => ip !in prev)
  }

  function Deletes(dels: seq<Record>): seq<Op> {
    seq(|dels|, i requires 0 <= i < |dels| => Delete(dels[i].id))
  }

  function ClusterInserts(c: Cluster, adds: seq<string>): seq<Op> {
    seq(|adds|, i requires 0 <= i < |adds| => Insert(Prefix(c), adds[i]))
  }

  function NodeInserts(c: Cluster, adds: seq<string>): seq<Op> {
    seq(|adds|, i requires 0 <= i < |adds| => Insert(GetNodePrefix(c.nodeId, adds[i], c.host), adds[i]))
  }

  function ClusterPlan(c: Cluster, records: seq<Record>, ips: seq<string>): seq<Op> {
    Deletes(Dels(ClusterRecords(c, records), ips)) + ClusterInserts(c, Adds(ClusterRecords(c, records), ips))
  }

  function NodePlan(c: Cluster, records: seq<Record>, ips: seq<string>): seq<Op> {
    Deletes(Dels(NodeRecords(c, records), ips)) + NodeInserts(c, Adds(NodeRecords(c, records), ips))
  }

  /** Both halves are planned from the one snapshot of the zone. */
  function Plan(c: Cluster, records: seq<Record>, ips: seq<string>): seq<Op> {
    ClusterPlan(c, records, ips) + NodePlan(c, records, ips)
  }

  lemma DelsMembers(records: seq<Record>, ips: seq<string>, r: Record)
    ensures r in Dels(records, ips) <==> r in records && r.ip !in ips
  {
    SelectMembers(records, (r: Record) => r.ip !in ips, r);
  }

  lemma AddsMembers(records: seq<Record>, ips: seq<string>, ip: string)
    ensures ip in Adds(records, ips) <==> ip in ips && !HasIp(records, ip)
  {
    var prev := IpSet(records);
    SelectMembers(ips, (ip: string) => ip !in prev, ip);
  }

  lemma DeletesMembers(dels: seq<Record>, op: Op)
    ensures op in Deletes(dels) <==> op.Delete? && exists r :: r in dels && r.id == op.id
  {
    if op.Delete? && exists r :: r in dels && r.id == op.id {
      var r :| r in dels && r.id == op.id;
      var i :| 0 <= i < |dels| && dels[i] == r;
      assert Deletes(dels)[i] == op;
    }
  }

  lemma InsertsMembers(c: Cluster, adds: seq<string>, op: Op)
    ensures op in ClusterInserts(c, adds) <==> op.Insert? && op.ip in adds && op.prefix == Prefix(c)
    ensures op in NodeInserts(c, adds) <==>
            op.Insert? && op.ip in adds && op.prefix == GetNodePrefix(c.nodeId, op.ip, c.host)
  {
    hide GetNodePrefix, Prefix;
    if op.Insert? && op.ip in adds {
      var i :| 0 <= i < |adds| && adds[i] == op.ip;
      assert ClusterInserts(c, adds)[i] == Insert(Prefix(c), op.ip);
      assert NodeInserts(c, adds)[i] == Insert(GetNodePrefix(c.nodeId, op.ip, c.host), op.ip);
    }
  }

  /** A node's name as the naming scheme has it: some 16 characters between the parts that all nodes share. */
  ghost predicate NodeShaped(c: Cluster, name: string) {
    exists id: string :: IsSpelled(c, name, id)
  }

  predicate IsSpelled(c: Cluster, name: string, id: string) {
    |id| == 16 && name == Lead(c.host) + id + Tail(c.host)
  }

  /** Exactly such names are taken for node records. */
  lemma NodeNamesExactly(c: Cluster, name: string)
    ensures IsNodeName(c, name) <==> NodeShaped(c, name)
  {
    hide IsNodeName, IsSpelled;
    if IsNodeName(c, name) {
      NodeNameSpelled(c, name);
    } else if NodeShaped(c, name) {
      var id :| IsSpelled(c, name, id);
      SpelledNodeName(c, name, id);
    }
  }

  lemma SpelledNodeName(c: Cluster, name: string, id: string)
    requires IsSpelled(c, name, id)
    ensures IsNodeName(c, name)
  {
    hide IsNodeName, Lead, Tail;
    ShapedName(c, id);
  }

  lemma NodeNameSpelled(c: Cluster, name: string)
    requires IsNodeName(c, name)
    ensures |name| >= |Lead(c.host)| + 16
    ensures IsSpelled(c, name, name[|Lead(c.host)|..|Lead(c.host)| + 16])
  {
    NodeNameParts(c, name);
    hide IsNodeName, Lead, Tail;
  }

  lemma NodeNameParts(c: Cluster, name: string)
    requires IsNodeName(c, name)
    ensures |name| == 16 + |Lead(c.host)| + |Tail(c.host)|
    ensures name[..|Lead(c.host)|] == Lead(c.host) && name[|name| - |Tail(c.host)|..] == Tail(c.host)
  {
    hide FirstDot, SplitHost;
  }

  lemma ManagedMeaning(c: Cluster, name: string)
    ensures Managed(c, name) <==> name == c.host || IsNodeName(c, name)
  {
    hide IsNodeName, NodeShaped;
    NodeNamesExactly(c, name);
  }

  lemma ShapedName(c: Cluster, id: string)
    requires |id| == 16
    ensures IsNodeName(c, Lead(c.host) + id + Tail(c.host))
  {
    hide FirstDot, SplitHost;
    var lead, tail := Lead(c.host), Tail(c.host);
    var name := lead + id + tail;
    assert name[..|lead|] == lead && name[|name| - |tail|..] == tail by {
      hide Lead, Tail;
    }
  }

  /** The records the manager takes for its own. */
  ghost predicate Managed(c: Cluster, name: string) {
    name == c.host || NodeShaped(c, name)
  }
  ghost predicate ClusterHas(c: Cluster, z: Zone, ip: string) {
    HasIp(ClusterRecords(c, z.records), ip)
  }

  ghost predicate NodeHas(c: Cluster, z: Zone, ip: string) {
    HasIp(NodeRecords(c, z.records), ip)
  }

  /** What a plan deletes: the managed records whose address is not live. */
  lemma PlanDeletes(c: Cluster, z: Zone, ips: seq<string>, r: Record)
    requires ValidZone(z) && r in z.records
    ensures Delete(r.id) in Plan(c, z.records, ips) <==> Managed(c, r.name) && r.ip !in ips
  {
    hide ClusterRecords, NodeRecords, Dels, Adds, Deletes, ClusterInserts, NodeInserts, IsNodeName, NodeShaped;
    var cluster, nodes := ClusterRecords(c, z.records), NodeRecords(c, z.records);
    NodeNamesExactly(c, r.name);
    DeletesMembers(Dels(cluster, ips), Delete(r.id));
    DeletesMembers(Dels(nodes, ips), Delete(r.id));
    InsertsMembers(c, Adds(cluster, ips), Delete(r.id));
    InsertsMembers(c, Adds(nodes, ips), Delete(r.id));
    forall s ensures s in Dels(cluster, ips) <==> s in z.records && s.name == c.host && s.ip !in ips {
      ClusterRecordsMembers(c, z.records, s);
      DelsMembers(cluster, ips, s);
    }
    forall s ensures s in Dels(nodes, ips) <==> s in z.records && IsNodeName(c, s.name) && s.ip !in ips {
      NodeRecordsMembers(c, z.records, s);
      DelsMembers(nodes, ips, s);
    }
  }

  /** A plan deletes records of the snapshot only. */
  lemma PlanDeletesOld(c: Cluster, z: Zone, ips: seq<string>)
    requires ValidZone(z)
    ensures DeletesOld(z, Plan(c, z.records, ips))
  {
    hide ClusterRecords, NodeRecords, Dels, Adds, Deletes, ClusterInserts, NodeInserts, IsNodeName;
    var cluster, nodes := ClusterRecords(c, z.records), NodeRecords(c, z.records);
    forall op | op in Plan(c, z.records, ips) && op.Delete? ensures op.id < z.next {
      DeletesMembers(Dels(cluster, ips), op);
      DeletesMembers(Dels(nodes, ips), op);
      InsertsMembers(c, Adds(cluster, ips), op);
      InsertsMembers(c, Adds(nodes, ips), op);
      forall s ensures s in Dels(cluster, ips) || s in Dels(nodes, ips) ==> s in z.records {
        DelsMembers(cluster, ips, s);
        DelsMembers(nodes, ips, s);
        ClusterRecordsMembers(c, z.records, s);
        NodeRecordsMembers(c, z.records, s);
      }
    }
  }

  /** The service names a node's record by the node's host, for every cluster host. */
  lemma NodePrefixNames(c: Cluster, ip: string)
    ensures RecordName(NamingOf(c), GetNodePrefix(c.nodeId, ip, c.host)) == GetNodeHost(c.nodeId, ip, c.host)
  {
    NodePrefixNamesHost(c.nodeId, ip, c.host);
    assert |GetNodePrefix(c.nodeId, ip, c.host)| >= NODE_ID_LEN;
    hide GetNodePrefix, GetNodeHost, SplitHost, FirstDot;
  }

  /** What the manager adds for the cluster is named by the cluster's host if that has a first label. Otherwise it
      is named as the service likes, but never like a node's record. */
  lemma ClusterNames(c: Cluster)
    ensures Prefix(c) != "" ==> ClusterName(c) == c.host
    ensures ShortApex(c) ==> !IsNodeName(c, ClusterName(c))
  {
    SplitHostParts(c.host);
    GroupsDisjoint(c, c.host);
  }

  /** What a plan adds: a cluster record and a node record for every live address that lacks it. */
  lemma PlanRequests(c: Cluster, z: Zone, ips: seq<string>, name: string, ip: string)
    ensures Requested(NamingOf(c), Plan(c, z.records, ips), name, ip) <==>
            ip in ips && ((name == ClusterName(c) && !ClusterHas(c, z, ip))
                       || (name == GetNodeHost(c.nodeId, ip, c.host) && !NodeHas(c, z, ip)))
  {
    hide ClusterRecords, NodeRecords, Dels, Adds, Deletes, ClusterInserts, NodeInserts, IsNodeName;
    hide FirstDot, SplitHost, GetNodeHost, GetNodePrefix, HasIp, RecordName;
    var cluster, nodes := ClusterRecords(c, z.records), NodeRecords(c, z.records);
    var p, q := Prefix(c), GetNodePrefix(c.nodeId, ip, c.host);
    NodePrefixNames(c, ip);
    AddsMembers(cluster, ips, ip);
    AddsMembers(nodes, ips, ip);
    forall op: Op | op.Insert? && op.ip == ip
      ensures op in Plan(c, z.records, ips) <==>
              (op.prefix == p && ip in Adds(cluster, ips)) || (op.prefix == q && ip in Adds(nodes, ips))
    {
      DeletesMembers(Dels(cluster, ips), op);
      DeletesMembers(Dels(nodes, ips), op);
      InsertsMembers(c, Adds(cluster, ips), op);
      InsertsMembers(c, Adds(nodes, ips), op);
    }
    assert Insert(p, ip).ip == ip && Insert(q, ip).ip == ip;
  }

  // ---- running into a refusal ----

  function Upto<T>(xs: seq<T>, k: nat): seq<T> {
    if k <= |xs| then xs[..k] else xs
  }

  /** From `z`, with `budget` requests to go, the requests `ops` lead to `y`; `ok` tells that all succeeded. */
  ghost predicate Ran(n: Naming, z: Zone, budget: nat, ops: seq<Op>, y: Zone, left: nat, ok: bool) {
    && (ok <==> |ops| <= budget)
    && left == (if ok then budget - |ops| else 0)
    && y == ApplyAll(n, z, Upto(ops, budget))
  }

  lemma {:induction false} ApplyAllJoin(n: Naming, z: Zone, a: seq<Op>, b: seq<Op>)
    ensures ApplyAll(n, z, a + b) == ApplyAll(n, ApplyAll(n, z, a), b)
  {
    if b == [] {
      assert a + b == a;
    } else {
      hide Apply, ApplyAll;
      var front := b[..|b| - 1];
      ApplyAllJoin(n, z, a, front);
      assert (a + b)[..|a + b| - 1] == a + front;
    }
  }

  /** Running two lists of requests, the second only if the first went through, is running them as one list. */
  lemma RanThen(n: Naming, z: Zone, budget: nat, a: seq<Op>, y: Zone, left: nat, b: seq<Op>, w: Zone, rest: nat, ok: bool)
    requires Ran(n, z, budget, a, y, left, true) && Ran(n, y, left, b, w, rest, ok)
    ensures Ran(n, z, budget, a + b, w, rest, ok)
  {
    hide ApplyAll;
    ApplyAllJoin(n, z, a, Upto(b, left));
    assert Upto(a + b, budget) == a + Upto(b, left);
  }

  lemma RanShort(n: Naming, z: Zone, budget: nat, a: seq<Op>, y: Zone, left: nat, b: seq<Op>)
    requires Ran(n, z, budget, a, y, left, false)
    ensures Ran(n, z, budget, a + b, y, left, false)
  {
    assert Upto(a + b, budget) == Upto(a, budget);
  }

  // ---- what an update achieves ----

  /** Every node-shaped record carries the host derived from its own address. */
  ghost predicate Named(c: Cluster, z: Zone) {
    forall r :: r in z.records && IsNodeName(c, r.name) ==> r.name == GetNodeHost(c.nodeId, r.ip, c.host)
  }

  /** The requests of a plan that were carried out before it was interrupted, if it was. */
  ghost predicate PartOfPlan(c: Cluster, z: Zone, ips: seq<string>, ops: seq<Op>) {
    forall op :: op in ops ==> op in Plan(c, z.records, ips)
  }

  /** Where a record of the zone comes from after part of a plan: it was there, or it was missing. */
  lemma RecordOrigin(c: Cluster, z: Zone, ips: seq<string>, ops: seq<Op>, r: Record)
    requires ValidZone(z) && PartOfPlan(c, z, ips, ops)
    requires r in ApplyAll(NamingOf(c), z, ops).records
    ensures r.id < z.next ==> r in z.records
    ensures r.id >= z.next ==>
              r.ip in ips && ((r.name == ClusterName(c) && !ClusterHas(c, z, r.ip))
                           || (r.name == GetNodeHost(c.nodeId, r.ip, c.host) && !NodeHas(c, z, r.ip)))
  {
    hide Plan, GetNodeHost, ClusterHas, NodeHas, ApplyAll;
    if r.id < z.next {
      OldRecords(NamingOf(c), z, ops, r);
    } else {
      PlanDeletesOld(c, z, ips);
      NewRecords(NamingOf(c), z, ops, r.name, r.ip);
      PlanRequests(c, z, ips, r.name, r.ip);
    }
  }

  /** The records that are no business of the manager's are the same in both zones. */
  ghost predicate SameStrangers(c: Cluster, z: Zone, y: Zone) {
    forall r: Record :: !Managed(c, r.name) && r.name != ClusterName(c) ==> (r in y.records <==> r in z.records)
  }

  lemma ManagedHosts(c: Cluster, ip: string)
    ensures Managed(c, c.host) && Managed(c, GetNodeHost(c.nodeId, ip, c.host))
  {
    hide IsNodeName, GetNodeHost;
    NodeHostIsNodeName(c, ip);
    NodeNamesExactly(c, GetNodeHost(c.nodeId, ip, c.host));
  }

  /** Part of an update, however little of it, never harms: unrelated records stay as they are, no record of a
      live address goes, and properly named node records remain the only ones. */
  lemma PartialUpdate(c: Cluster, z: Zone, ips: seq<string>, ops: seq<Op>)
    requires ValidZone(z) && PartOfPlan(c, z, ips, ops)
    ensures var y := ApplyAll(NamingOf(c), z, ops);
            && ValidZone(y)
            && SameStrangers(c, z, y)
            && (forall r :: r in z.records && r.ip in ips ==> r in y.records)
            && (ShortApex(c) && Named(c, z) ==> Named(c, y))
  {
    hide Plan, GetNodeHost, ClusterHas, NodeHas, ApplyAll, IsNodeName, Managed, FirstDot, SplitHost, ClusterName;
    hide ShortApex;
    var y := ApplyAll(NamingOf(c), z, ops);
    ApplyAllValid(NamingOf(c), z, ops);
    forall r | r in z.records
      ensures (!Managed(c, r.name) || r.ip in ips) ==> r in y.records
    {
      PlanDeletes(c, z, ips, r);
      OldRecords(NamingOf(c), z, ops, r);
    }
    forall r | r in y.records
      ensures r in z.records || r.name == ClusterName(c) || Managed(c, r.name)
      ensures r in z.records || r.name == ClusterName(c) || r.name == GetNodeHost(c.nodeId, r.ip, c.host)
    {
      RecordOrigin(c, z, ips, ops, r);
      ManagedHosts(c, r.ip);
    }
    ClusterNames(c);
  }

  /** Both kinds of record cover exactly the given addresses. */
  ghost predicate Settled(c: Cluster, z: Zone, ips: seq<string>) {
    && (forall ip :: ClusterHas(c, z, ip) <==> ip in ips)
    && (forall ip :: NodeHas(c, z, ip) <==> ip in ips)
  }

  lemma HasMeaning(c: Cluster, z: Zone, ip: string)
    ensures ClusterHas(c, z, ip) <==> exists r :: r in z.records && r.name == c.host && r.ip == ip
    ensures NodeHas(c, z, ip) <==> exists r :: r in z.records && IsNodeName(c, r.name) && r.ip == ip
  {
    hide ClusterRecords, NodeRecords, IsNodeName;
    forall r
      ensures r in ClusterRecords(c, z.records) <==> r in z.records && r.name == c.host
      ensures r in NodeRecords(c, z.records) <==> r in z.records && IsNodeName(c, r.name)
    {
      ClusterRecordsMembers(c, z.records, r);
      NodeRecordsMembers(c, z.records, r);
    }
  }

  /** A complete update: the whole plan is carried out. */
  function Complete(c: Cluster, z: Zone, ips: seq<string>): Zone {
    ApplyAll(NamingOf(c), z, Plan(c, z.records, ips))
  }

  /** The records after a complete update: the old ones it need not delete, and the ones that were missing. */
  lemma CompleteRecords(c: Cluster, z: Zone, ips: seq<string>, r: Record)
    requires ValidZone(z) && r.id < z.next
    ensures r in Complete(c, z, ips).records <==>
            r in z.records && (Managed(c, r.name) ==> r.ip in ips)
  {
    hide Plan, ApplyAll, Managed, FirstDot, SplitHost;
    OldRecords(NamingOf(c), z, Plan(c, z.records, ips), r);
    if r in z.records {
      PlanDeletes(c, z, ips, r);
    }
  }

  lemma CompleteAdds(c: Cluster, z: Zone, ips: seq<string>, ip: string)
    requires ValidZone(z) && ip in ips
    ensures ClusterHas(c, z, ip) || ClusterName(c) == c.host ==> ClusterHas(c, Complete(c, z, ips), ip)
    ensures NodeHas(c, Complete(c, z, ips), ip)
  {
    hide Plan, ApplyAll, Managed, FirstDot, SplitHost, GetNodeHost, ClusterHas, NodeHas, IsNodeName, ClusterName;
    var ops := Plan(c, z.records, ips);
    var y := ApplyAll(NamingOf(c), z, ops);
    var host := GetNodeHost(c.nodeId, ip, c.host);
    PlanDeletesOld(c, z, ips);
    PlanRequests(c, z, ips, c.host, ip);
    PlanRequests(c, z, ips, host, ip);
    NewRecords(NamingOf(c), z, ops, c.host, ip);
    NewRecords(NamingOf(c), z, ops, host, ip);
    NodeHostIsNodeName(c, ip);
    HasMeaning(c, z, ip);
    HasMeaning(c, y, ip);
    forall r | r in z.records && r.ip == ip ensures r in y.records {
      CompleteRecords(c, z, ips, r);
    }
  }

  /** What a complete update leaves, for every address: node records of the live addresses, and cluster records of
      those that had one or got one under the cluster's host. */
  lemma CompleteCovers(c: Cluster, z: Zone, ips: seq<string>, ip: string)
    requires ValidZone(z)
    ensures NodeHas(c, Complete(c, z, ips), ip) <==> ip in ips
    ensures ClusterHas(c, Complete(c, z, ips), ip) <==> ip in ips && (ClusterHas(c, z, ip) || ClusterName(c) == c.host)
  {
    hide Plan, ApplyAll, FirstDot, SplitHost, GetNodeHost, ClusterHas, NodeHas, IsNodeName, ClusterName, Complete, Managed;
    var y := Complete(c, z, ips);
    forall r | r in y.records && (r.name == c.host || IsNodeName(c, r.name))
      ensures r.ip in ips
      ensures r.name == c.host ==> r in z.records || ClusterName(c) == c.host
    {
      OriginInComplete(c, z, ips, r);
      ManagedMeaning(c, r.name);
    }
    HasMeaning(c, y, ip);
    HasMeaning(c, z, ip);
    if ip in ips {
      CompleteAdds(c, z, ips, ip);
    }
  }

  lemma OriginInComplete(c: Cluster, z: Zone, ips: seq<string>, r: Record)
    requires ValidZone(z) && r in Complete(c, z, ips).records
    ensures (r in z.records && (Managed(c, r.name) ==> r.ip in ips))
         || (r.ip in ips && (r.name == ClusterName(c) || (r.name == GetNodeHost(c.nodeId, r.ip, c.host) != c.host)))
  {
    hide Plan, ApplyAll, FirstDot, SplitHost, GetNodeHost, ClusterHas, NodeHas, ClusterName, Managed;
    RecordOrigin(c, z, ips, Plan(c, z.records, ips), r);
    NodeHostIsNotCluster(c.nodeId, r.ip, c.host);
    if r.id < z.next {
      CompleteRecords(c, z, ips, r);
    }
  }

  /** A complete update settles the zone, whatever was in it, exactly when the service names the cluster's record by
      the cluster's host, or no such record is missing. */
  lemma Converges(c: Cluster, z: Zone, ips: seq<string>)
    requires ValidZone(z)
    ensures Settled(c, Complete(c, z, ips), ips) <==>
            ClusterName(c) == c.host || forall ip :: ip in ips ==> ClusterHas(c, z, ip)
    ensures Prefix(c) != "" ==> Settled(c, Complete(c, z, ips), ips)
  {
    ClusterNames(c);
    hide Complete, ClusterHas, NodeHas, ClusterName, Prefix;
    forall ip
      ensures NodeHas(c, Complete(c, z, ips), ip) <==> ip in ips
      ensures ClusterHas(c, Complete(c, z, ips), ip) <==>
              ip in ips && (ClusterHas(c, z, ip) || ClusterName(c) == c.host)
    {
      CompleteCovers(c, z, ips, ip);
    }
  }

  /** A settled zone is one with nothing to do. In particular, a second update issues no request. */
  lemma SettledExactly(c: Cluster, z: Zone, ips: seq<string>)
    ensures Settled(c, z, ips) <==> Plan(c, z.records, ips) == []
  {
    var cluster, nodes := ClusterRecords(c, z.records), NodeRecords(c, z.records);
    assert |Plan(c, z.records, ips)| ==
           |Dels(cluster, ips)| + |Adds(cluster, ips)| + |Dels(nodes, ips)| + |Adds(nodes, ips)|;
    hide ClusterRecords, NodeRecords, Dels, Adds, IsNodeName, Plan;
    NothingToDo(cluster, ips);
    NothingToDo(nodes, ips);
  }

  lemma NothingToDo(records: seq<Record>, ips: seq<string>)
    ensures |Dels(records, ips)| + |Adds(records, ips)| == 0 <==> forall ip :: HasIp(records, ip) <==> ip in ips
  {
    hide Dels, Adds;
    forall r ensures r in Dels(records, ips) <==> r in records && r.ip !in ips { DelsMembers(records, ips, r); }
    forall ip ensures ip in Adds(records, ips) <==> ip in ips && !HasIp(records, ip) { AddsMembers(records, ips, ip); }
    if |Dels(records, ips)| > 0 {
      var r := Dels(records, ips)[0];
      assert r in Dels(records, ips);
      assert HasIp(records, r.ip);
    }
    if |Adds(records, ips)| > 0 {
      assert Adds(records, ips)[0] in Adds(records, ips);
    }
  }

  /** An update compares addresses only, so a misnamed record of a live address outlives it: the node records
      end up properly named exactly when those of live addresses were so before. */
  lemma NamedExactly(c: Cluster, z: Zone, ips: seq<string>)
    requires ValidZone(z) && ShortApex(c)
    ensures Named(c, Complete(c, z, ips)) <==>
            forall r :: r in z.records && r.ip in ips && IsNodeName(c, r.name) ==>
                          r.name == GetNodeHost(c.nodeId, r.ip, c.host)
  {
    ClusterNames(c);
    hide Complete, FirstDot, SplitHost, GetNodeHost, IsNodeName, ClusterName, ShortApex, Managed;
    forall r | r in Complete(c, z, ips).records
      ensures (r in z.records && (IsNodeName(c, r.name) ==> r.ip in ips))
           || r.name == ClusterName(c) || r.name == GetNodeHost(c.nodeId, r.ip, c.host)
    {
      OriginInComplete(c, z, ips, r);
      ManagedMeaning(c, r.name);
    }
    forall r | r in z.records && r.ip in ips ensures r in Complete(c, z, ips).records {
      CompleteRecords(c, z, ips, r);
    }
  }

  // ---- the zone after an update, record by record ----

  /** Selecting keeps the order, and each element that qualifies as often as it is there. */
  lemma {:induction false} SelectConcat<T>(a: seq<T>, b: seq<T>, p: T -> bool)
    ensures Select(a + b, p) == Select(a, p) + Select(b, p)
    ensures |a| == 1 ==> Select(a, p) == if p(a[0]) then a else []
  {
    if b == [] {
      Empty(b, a);
      Empty(Select(b, p), Select(a, p));
    } else {
      var front, x := b[..|b| - 1], b[|b| - 1];
      SelectConcat(a, front, p);
      assert (a + b)[|a + b| - 1] == x && (a + b)[..|a + b| - 1] == a + front;
      hide Select;
      Associate(Select(a, p), Select(front, p), if p(x) then [x] else []);
    }
    if |a| == 1 {
      assert a[..0] == [] && a == [a[0]];
    }
  }

  lemma {:induction false} SelectSame<T>(xs: seq<T>, p: T -> bool, q: T -> bool)
    requires forall x :: x in xs ==> p(x) == q(x)
    ensures Select(xs, p) == Select(xs, q)
  {
    if xs != [] {
      SelectSame(xs[..|xs| - 1], p, q);
      assert xs[|xs| - 1] in xs;
    }
  }

  lemma {:induction false} SelectAll<T>(xs: seq<T>, p: T -> bool)
    requires forall x :: x in xs ==> p(x)
    ensures Select(xs, p) == xs
  {
    if xs != [] {
      SelectAll(xs[..|xs| - 1], p);
      assert xs == xs[..|xs| - 1] + [xs[|xs| - 1]];
      assert xs[|xs| - 1] in xs;
    }
  }

  lemma {:induction false} SelectNone<T>(xs: seq<T>, p: T -> bool)
    requires forall x :: x in xs ==> !p(x)
    ensures Select(xs, p) == []
  {
    if xs != [] {
      SelectNone(xs[..|xs| - 1], p);
      assert xs[|xs| - 1] in xs;
    }
  }

  lemma {:induction false} SelectTwice<T>(xs: seq<T>, p: T -> bool, q: T -> bool, both: T -> bool)
    requires forall x :: x in xs ==> both(x) == (p(x) && q(x))
    ensures Select(Select(xs, p), q) == Select(xs, both)
  {
    if xs != [] {
      var front, x := xs[..|xs| - 1], xs[|xs| - 1];
      assert x in xs;
      SelectTwice(front, p, q, both);
      SelectConcat(Select(front, p), [x], q);
      var one := [x];
      SelectConcat(one, [], q);
      Empty([], Select(front, p));
    }
  }

  function Survives(ops: seq<Op>): Record -> bool {
    (r: Record) => Delete(r.id) !in ops
  }

  function Inserts(ops: seq<Op>): seq<Op> {
    Select(ops, (op: Op) => op.Insert?)
  }

  /** The records that requests to add create, in their order, with ids from `next` on. */
  function Created(n: Naming, next: nat, inserts: seq<Op>): seq<Record> {
    seq(|inserts|, i requires 0 <= i < |inserts| =>
      match inserts[i]
      case Insert(prefix, ip) => Record(next + i, RecordName(n, prefix), ip)
      case Delete(_) => Record(next + i, "", ""))
  }

  lemma WithoutOne(z: Zone, front: seq<Op>, id: nat, created: seq<Record>)
    requires id < z.next && forall r :: r in created ==> r.id >= z.next
    ensures Without(Select(z.records, Survives(front)) + created, id)
         == Select(z.records, Survives(front + [Delete(id)])) + created
  {
    var kept := Select(z.records, Survives(front));
    SelectConcat(kept, created, (r: Record) => r.id != id);
    SelectAll(created, (r: Record) => r.id != id);
    SelectTwice(z.records, Survives(front), (r: Record) => r.id != id, Survives(front + [Delete(id)]));
    hide Select;
  }

  /** Requests that delete old records only leave the others in their order and append what they ask for, in order. */
  lemma {:induction false} ApplyAllExactly(n: Naming, z: Zone, ops: seq<Op>)
    requires ValidZone(z) && DeletesOld(z, ops)
    ensures ApplyAll(n, z, ops).records == Select(z.records, Survives(ops)) + Created(n, z.next, Inserts(ops))
    ensures ApplyAll(n, z, ops).next == z.next + |Inserts(ops)|
  {
    if ops == [] {
      SelectAll(z.records, Survives(ops));
      assert Created(n, z.next, []) == [];
      Empty([], z.records);
    } else {
      var front, op := ops[..|ops| - 1], ops[|ops| - 1];
      assert ops == front + [op];
      ApplyAllExactly(n, z, front);
      hide Select, ValidZone, RecordName;
      var created := Created(n, z.next, Inserts(front));
      match op {
        case Delete(id) =>
          WithoutOne(z, front, id, created);
          Empty([], Inserts(front));
        case Insert(prefix, ip) =>
          SelectSame(z.records, Survives(front), Survives(ops));
          Associate(Select(z.records, Survives(ops)), created,
                    [Record(z.next + |Inserts(front)|, RecordName(n, prefix), ip)]);
      }
    }
  }

  // ---- the plan, request by request ----

  /** The records of a kind whose addresses are not live, and the live addresses that no record of a kind has. */
  function StaleRecords(records: seq<Record>, kind: string -> bool, ips: seq<string>): seq<Record> {
    Select(records, (r: Record) => kind(r.name) && r.ip !in ips)
  }

  function MissingIps(records: seq<Record>, kind: string -> bool, ips: seq<string>): seq<string> {
    Select(ips, (ip: string) => forall r :: r in records && kind(r.name) ==> r.ip != ip)
  }

  function ClusterKind(c: Cluster): string -> bool {
    (name: string) => name == c.host
  }

  function NodeKind(c: Cluster): string -> bool {
    (name: string) => IsNodeName(c, name)
  }

  lemma StaleInGroup(records: seq<Record>, kind: string -> bool, ips: seq<string>)
    ensures Dels(Select(records, (r: Record) => kind(r.name)), ips) == StaleRecords(records, kind, ips)
  {
    SelectTwice(records, (r: Record) => kind(r.name), (r: Record) => r.ip !in ips,
                (r: Record) => kind(r.name) && r.ip !in ips);
    hide Select;
  }

  lemma MissingInGroup(records: seq<Record>, kind: string -> bool, ips: seq<string>)
    ensures Adds(Select(records, (r: Record) => kind(r.name)), ips) == MissingIps(records, kind, ips)
  {
    var group := Select(records, (r: Record) => kind(r.name));
    var prev := IpSet(group);
    forall r ensures r in group <==> r in records && kind(r.name) {
      SelectMembers(records, (r: Record) => kind(r.name), r);
    }
    hide Select;
    forall ip ensures ip !in prev <==> forall r :: r in records && kind(r.name) ==> r.ip != ip {
      assert ip in prev <==> HasIp(group, ip);
    }
    SelectSame(ips, (ip: string) => ip !in prev,
               (ip: string) => forall r :: r in records && kind(r.name) ==> r.ip != ip);
  }

  lemma ClusterDiff(c: Cluster, records: seq<Record>, ips: seq<string>)
    ensures Dels(ClusterRecords(c, records), ips) == StaleRecords(records, ClusterKind(c), ips)
    ensures Adds(ClusterRecords(c, records), ips) == MissingIps(records, ClusterKind(c), ips)
  {
    var kind := ClusterKind(c);
    SelectSame(records, (r: Record) => r.name == c.host, (r: Record) => kind(r.name));
    StaleInGroup(records, kind, ips);
    MissingInGroup(records, kind, ips);
    hide Select, Dels, Adds, StaleRecords, MissingIps, ClusterKind;
  }

  lemma NodeDiff(c: Cluster, records: seq<Record>, ips: seq<string>)
    ensures Dels(NodeRecords(c, records), ips) == StaleRecords(records, NodeKind(c), ips)
    ensures Adds(NodeRecords(c, records), ips) == MissingIps(records, NodeKind(c), ips)
  {
    hide IsNodeName;
    var kind := NodeKind(c);
    SelectSame(records, (r: Record) => IsNodeName(c, r.name), (r: Record) => kind(r.name));
    StaleInGroup(records, kind, ips);
    MissingInGroup(records, kind, ips);
    hide Select, Dels, Adds, StaleRecords, MissingIps, NodeKind;
  }

  /** An update first deletes the stale cluster records and adds the missing ones, then does the same for the nodes'
      records, each time in the order of the zone and of the live addresses, and all against one snapshot. */
  lemma PlanExactly(c: Cluster, records: seq<Record>, ips: seq<string>)
    ensures Plan(c, records, ips)
         == Deletes(StaleRecords(records, ClusterKind(c), ips)) + ClusterInserts(c, MissingIps(records, ClusterKind(c), ips))
            + (Deletes(StaleRecords(records, NodeKind(c), ips)) + NodeInserts(c, MissingIps(records, NodeKind(c), ips)))
  {
    ClusterDiff(c, records, ips);
    NodeDiff(c, records, ips);
    hide Dels, Adds, ClusterRecords, NodeRecords, StaleRecords, MissingIps, ClusterKind, NodeKind, Deletes,
      ClusterInserts, NodeInserts;
  }

  /** The requests themselves, one by one. */
  lemma RequestsInOrder(c: Cluster, dels: seq<Record>, adds: seq<string>, i: nat)
    ensures |Deletes(dels)| == |dels| && |ClusterInserts(c, adds)| == |adds| == |NodeInserts(c, adds)|
    ensures i < |dels| ==> Deletes(dels)[i] == Delete(dels[i].id)
    ensures i < |adds| ==> ClusterInserts(c, adds)[i] == Insert(Prefix(c), adds[i])
    ensures i < |adds| ==> NodeInserts(c, adds)[i] == Insert(GetNodePrefix(c.nodeId, adds[i], c.host), adds[i])
  {
    hide Prefix, GetNodePrefix;
  }

  // ---- the published node list ----

  /** The hosts in the node list that the manager uploads for the nodes to load. */
  function PublishedHosts(c: Cluster, ips: seq<string>): seq<string> {
    seq(|ips|, i requires 0 <= i < |ips| => GetNodeHost(c.nodeId, ips[i], c.host))
  }

  /** The hosts a client can look up and the hosts that the nodes redirect to are the same. */
  lemma NamesArePublished(c: Cluster, z: Zone, ips: seq<string>, name: string)
    requires Settled(c, z, ips) && Named(c, z)
    ensures name in PublishedHosts(c, ips) <==> exists r :: r in z.records && IsNodeName(c, r.name) && r.name == name
  {
    hide FirstDot, SplitHost, GetNodeHost, ClusterHas, NodeHas, IsNodeName;
    forall ip ensures ip in ips <==> exists r :: r in z.records && IsNodeName(c, r.name) && r.ip == ip {
      HasMeaning(c, z, ip);
    }
    if name in PublishedHosts(c, ips) {
      var i :| 0 <= i < |ips| && PublishedHosts(c, ips)[i] == name;
      assert ips[i] in ips;
    }
    forall r | r in z.records && IsNodeName(c, r.name) ensures r.name in PublishedHosts(c, ips) {
      assert r.ip in ips;
      var i :| 0 <= i < |ips| && ips[i] == r.ip;
      assert PublishedHosts(c, ips)[i] == r.name;
    }
  }

  /** With distinct node ids, a published host leads to its own node and to no other. */
  lemma HostLeadsToItsNode(c: Cluster, z: Zone, ips: seq<string>, ip: string, target: string)
    requires Settled(c, z, ips) && Named(c, z) && ip in ips
    requires forall other :: other in ips && c.nodeId(other) == c.nodeId(ip) ==> other == ip
    ensures (exists r :: r in z.records && r.name == GetNodeHost(c.nodeId, ip, c.host) && r.ip == target)
       <==> target == ip
  {
    hide FirstDot, SplitHost, GetNodeHost, ClusterHas, NodeHas, IsNodeName;
    HasMeaning(c, z, ip);
    HasMeaning(c, z, target);
    NodeHostIsNodeName(c, ip);
    NodeHostInjective(c.nodeId, ip, target, c.host);
  }

  // ---- interruptions ----

  /** One attempt at an update: the live addresses then, and how many requests succeed before one fails. */
  datatype Attempt = Attempt(ips: seq<string>, done: nat)

  function Try(c: Cluster, z: Zone, a: Attempt): Zone {
    ApplyAll(NamingOf(c), z, Upto(Plan(c, z.records, a.ips), a.done))
  }

  function TryAll(c: Cluster, z: Zone, attempts: seq<Attempt>): Zone
    decreases |attempts|
  {
    if attempts == [] then z else TryAll(c, Try(c, z, attempts[0]), attempts[1..])
  }

  lemma {:induction false} AttemptsKeep(c: Cluster, z: Zone, attempts: seq<Attempt>)
    requires ValidZone(z)
    ensures var y := TryAll(c, z, attempts);
            && ValidZone(y)
            && SameStrangers(c, z, y)
            && (ShortApex(c) && Named(c, z) ==> Named(c, y))
    decreases |attempts|
  {
    hide Plan, ApplyAll, FirstDot, SplitHost, ValidZone, Named, Managed, ClusterName, ShortApex;
    if attempts != [] {
      var ops := Plan(c, z.records, attempts[0].ips);
      PartialUpdate(c, z, attempts[0].ips, Upto(ops, attempts[0].done));
      AttemptsKeep(c, Try(c, z, attempts[0]), attempts[1..]);
    }
  }

  /** After any number of interrupted updates for any addresses, one complete update puts everything right, if the
      service names the cluster's record by the cluster's host, as it does for every host with a first label. */
  lemma Recovers(c: Cluster, z: Zone, attempts: seq<Attempt>, ips: seq<string>)
    requires ValidZone(z) && ShortApex(c) && Named(c, z)
    ensures var y := Complete(c, TryAll(c, z, attempts), ips);
            && Named(c, y)
            && SameStrangers(c, z, y)
            && (ClusterName(c) == c.host ==> Settled(c, y, ips) && Plan(c, y.records, ips) == [])
    ensures Prefix(c) != "" ==> ClusterName(c) == c.host
  {
    hide Plan, ApplyAll, FirstDot, SplitHost, ValidZone, Named, Managed, Settled, TryAll, ClusterName, ShortApex;
    AttemptsKeep(c, z, attempts);
    var x := TryAll(c, z, attempts);
    PartialUpdate(c, x, ips, Plan(c, x.records, ips));
    Converges(c, x, ips);
    SettledExactly(c, Complete(c, x, ips), ips);
    ClusterNames(c);
  }

  /** A name resolves to an address. */
  ghost predicate ResolvesTo(z: Zone, name: string, ip: string) {
    exists r :: r in z.records && r.name == name && r.ip == ip
  }

  /** The node list is published before the zone is updated, so nodes may be sent to hosts that have no record yet:
      a live node's host resolves to it throughout an update exactly when it did before. */
  lemma ResolvesThroughoutExactly(c: Cluster, z: Zone, ips: seq<string>, ip: string)
    requires ValidZone(z) && ip in ips
    ensures (forall k: nat :: k <= |Plan(c, z.records, ips)| ==>
               ResolvesTo(Try(c, z, Attempt(ips, k)), GetNodeHost(c.nodeId, ip, c.host), ip))
       <==> ResolvesTo(z, GetNodeHost(c.nodeId, ip, c.host), ip)
  {
    var host := GetNodeHost(c.nodeId, ip, c.host);
    assert Try(c, z, Attempt(ips, 0)) == z;
    hide Plan, ApplyAll, GetNodeHost, ValidZone, Named, SameStrangers;
    if ResolvesTo(z, host, ip) {
      forall k: nat | k <= |Plan(c, z.records, ips)| ensures ResolvesTo(Try(c, z, Attempt(ips, k)), host, ip) {
        PartialUpdate(c, z, ips, Plan(c, z.records, ips)[..k]);
      }
    }
  }

  /** After a complete update it does resolve, if the node records of live addresses were properly named. */
  lemma PublishedResolves(c: Cluster, z: Zone, ips: seq<string>, ip: string)
    requires ValidZone(z) && ShortApex(c) && ip in ips
    requires Named(c, Complete(c, z, ips))
    ensures ResolvesTo(Complete(c, z, ips), GetNodeHost(c.nodeId, ip, c.host), ip)
  {
    hide Complete, GetNodeHost, ValidZone, ShortApex, NodeHas, ClusterHas;
    CompleteCovers(c, z, ips, ip);
    HasMeaning(c, Complete(c, z, ips), ip);
  }

  /** At some point of the update the cluster's host has no address at all. */
  ghost predicate Gap(c: Cluster, z: Zone, ips: seq<string>) {
    exists k: nat :: k <= |Plan(c, z.records, ips)|
      && NoClusterAddress(c, Try(c, z, Attempt(ips, k)))
  }

  ghost predicate NoClusterAddress(c: Cluster, z: Zone) {
    forall r :: r in z.records ==> r.name != c.host
  }

  /** Deletions go before additions, so the cluster's host stays reachable throughout an update exactly when
      some address it has is still live. */
  lemma GapExactly(c: Cluster, z: Zone, ips: seq<string>)
    requires ValidZone(z)
    ensures Gap(c, z, ips) <==> forall r :: r in z.records && r.name == c.host ==> r.ip !in ips
  {
    if r :| r in z.records && r.name == c.host && r.ip in ips {
      forall k: nat | k <= |Plan(c, z.records, ips)| ensures !NoClusterAddress(c, Try(c, z, Attempt(ips, k))) {
        PartialUpdate(c, z, ips, Plan(c, z.records, ips)[..k]);
      }
    } else {
      GapAfterDeletes(c, z, ips);
    }
  }

  lemma GapAfterDeletes(c: Cluster, z: Zone, ips: seq<string>)
    requires ValidZone(z)
    requires forall r :: r in z.records && r.name == c.host ==> r.ip !in ips
    ensures Gap(c, z, ips)
  {
    hide Deletes, Dels, ApplyAll, ClusterRecords, NodePlan, ClusterInserts, SplitHost, FirstDot, ValidZone;
    var ops := Deletes(Dels(ClusterRecords(c, z.records), ips));
    assert Upto(Plan(c, z.records, ips), |ops|) == ops;
    PlanDeletesOld(c, z, ips);
    assert DeletesOld(z, ops) by {
      assert forall op :: op in ops ==> op in Plan(c, z.records, ips);
    }
    hide Plan, ClusterPlan;
    forall r | r in ApplyAll(NamingOf(c), z, ops).records ensures r.name != c.host {
      AfterClusterDeletes(c, z, ips, r);
    }
    assert NoClusterAddress(c, Try(c, z, Attempt(ips, |ops|)));
  }

  lemma AfterClusterDeletes(c: Cluster, z: Zone, ips: seq<string>, r: Record)
    requires ValidZone(z) && DeletesOld(z, Deletes(Dels(ClusterRecords(c, z.records), ips)))
    ensures r in ApplyAll(NamingOf(c), z, Deletes(Dels(ClusterRecords(c, z.records), ips))).records ==>
              r in z.records && (r.name == c.host ==> r.ip in ips)
  {
    hide Deletes, Dels, ApplyAll, ClusterRecords, SplitHost, FirstDot, ValidZone;
    var cluster := ClusterRecords(c, z.records);
    var ops := Deletes(Dels(cluster, ips));
    forall op | op in ops ensures op.Delete? {
      DeletesMembers(Dels(cluster, ips), op);
    }
    if r.id < z.next {
      OldRecords(NamingOf(c), z, ops, r);
      DelsMembers(cluster, ips, r);
      ClusterRecordsMembers(c, z.records, r);
      DeletesMembers(Dels(cluster, ips), Delete(r.id));
    } else {
      NewRecords(NamingOf(c), z, ops, r.name, r.ip);
    }
  }
}
