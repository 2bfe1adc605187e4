/** The manager's update of a zone, request by request, and the loops that plan it. */
module Manager {
  import opened Hosts
  import opened Dns

  /** The DNS service's side of one zone. It carries out `budget` more requests and then refuses. */
  class DnsService {
    const naming: Naming
    var records: seq<Record>
    var next: nat
    var budget: nat

    constructor (naming: Naming, z: Zone, budget: nat)
      ensures this.naming == naming && View() == z && this.budget == budget
    {
      this.naming := naming;
      records, next, this.budget := z.records, z.next, budget;
    }

    function View(): Zone
      reads this
    {
      Zone(records, next)
    }

    method DeleteARecord(id: nat) returns (ok: bool)
      modifies this
      ensures ok <==> old(budget) > 0
      ensures ok ==> View() == Apply(naming, old(View()), Delete(id)) && budget == old(budget) - 1
      ensures !ok ==> View() == old(View()) && budget == old(budget)
    {
      ok := budget > 0;
      if ok {
        budget := budget - 1;
        records := Without(records, id);
      }
    }

    method AddARecord(prefix: string, ip: string) returns (ok: bool)
      modifies this
      ensures ok <==> old(budget) > 0
      ensures ok ==> View() == Apply(naming, old(View()), Insert(prefix, ip)) && budget == old(budget) - 1
      ensures !ok ==> View() == old(View()) && budget == old(budget)
    {
      ok := budget > 0;
      if ok {
        budget := budget - 1;
        records, next := records + [Record(next, RecordName(naming, prefix), ip)], next + 1;
      }
    }
  }

  lemma Whole<T>(xs: seq<T>)
    ensures xs[..|xs|] == xs
  {
  }

  lemma ClusterRecordsNext(c: Cluster, records: seq<Record>, k: nat)
    requires k < |records|
    ensures ClusterRecords(c, records[..k + 1])
         == ClusterRecords(c, records[..k]) + if records[k].name == c.host then [records[k]] else []
  {
    SelectNext(records, (r: Record) => r.name == c.host, k);
  }

  lemma NodeRecordsNext(c: Cluster, records: seq<Record>, k: nat)
    requires k < |records|
    ensures NodeRecords(c, records[..k + 1])
         == NodeRecords(c, records[..k]) + if IsNodeName(c, records[k].name) then [records[k]] else []
  {
    hide IsNodeName;
    SelectNext(records, (r: Record) => IsNodeName(c, r.name), k);
  }

  method SplitRecords(c: Cluster, records: seq<Record>) returns (cluster: seq<Record>, nodes: seq<Record>)
    ensures cluster == ClusterRecords(c, records)
    ensures nodes == NodeRecords(c, records)
  {
    hide Prefix, Base, IsNodeName, NodeRecords;
    cluster := [];
    var i := 0;
    while i < |records|
      invariant i <= |records| && cluster == ClusterRecords(c, records[..i])
    {
      ClusterRecordsNext(c, records, i);
      if records[i].name == c.host {
        cluster := cluster + [records[i]];
      }
      i := i + 1;
    }
    Whole(records);
    nodes := SingleRecords(c, records);
  }

  method SingleRecords(c: Cluster, records: seq<Record>) returns (nodes: seq<Record>)
    ensures nodes == NodeRecords(c, records)
  {
    assert NodeRecords(c, records[..0]) == [];
    hide Prefix, Base, BareShape, LedShape, NodeRecords;
    nodes := [];
    var i: nat;
    var prefix, suffix := Prefix(c), "." + Base(c);
    if prefix == "" {
      i := 0;
      while i < |records|
        invariant i <= |records| && nodes == NodeRecords(c, records[..i])
      {
        NodeRecordsNext(c, records, i);
        var name := records[i].name;
        if BareShape(name, suffix) {
          nodes := nodes + [records[i]];
        }
        i := i + 1;
      }
      Whole(records);
    } else {
      var lead := prefix + "-";
      i := 0;
      while i < |records|
        invariant i <= |records| && nodes == NodeRecords(c, records[..i])
      {
        NodeRecordsNext(c, records, i);
        var name := records[i].name;
        if LedShape(name, lead, suffix) {
          nodes := nodes + [records[i]];
        }
        i := i + 1;
      }
      Whole(records);
    }
  }

  method DiffRecords(records: seq<Record>, ips: seq<string>) returns (adds: seq<string>, dels: seq<Record>)
    ensures adds == Adds(records, ips)
    ensures dels == Dels(records, ips)
  {
    var prev := IpSet(records);
    var current := set ip | ip in ips;
    adds, dels := [], [];
    var i := 0;
    while i < |ips|
      invariant i <= |ips| && adds == Select(ips[..i], (ip: string) => ip !in prev)
    {
      SelectNext(ips, (ip: string) => ip !in prev, i);
      if ips[i] !in prev {
        adds := adds + [ips[i]];
      }
      i := i + 1;
    }
    Whole(ips);
    i := 0;
    while i < |records|
      invariant i <= |records| && dels == Dels(records[..i], ips)
    {
      SelectNext(records, (r: Record) => r.ip !in ips, i);
      if records[i].ip !in current {
        dels := dels + [records[i]];
      }
      i := i + 1;
    }
    Whole(records);
  }

  method DeleteAll(zone: DnsService, dels: seq<Record>) returns (ok: bool)
    modifies zone
    ensures Ran(zone.naming, old(zone.View()), old(zone.budget), Deletes(dels), zone.View(), zone.budget, ok)
  {
    hide Apply, ApplyAll, Without;
    ghost var z, b, ops := zone.View(), zone.budget, Deletes(dels);
    ApplyNone(zone.naming, z, ops);
    var i := 0;
    while i < |dels|
      invariant i <= |dels| && i <= b && zone.budget == b - i
      invariant zone.View() == ApplyAll(zone.naming, z, ops[..i])
    {
      ok := zone.DeleteARecord(dels[i].id);
      if !ok {
        return;
      }
      ApplyAllNext(zone.naming, z, ops, i);
      i := i + 1;
    }
    Whole(ops);
    ok := true;
  }

  method AddClusterRecords(c: Cluster, zone: DnsService, adds: seq<string>) returns (ok: bool)
    modifies zone
    ensures Ran(zone.naming, old(zone.View()), old(zone.budget), ClusterInserts(c, adds), zone.View(), zone.budget, ok)
  {
    hide Apply, ApplyAll, Prefix;
    ghost var z, b, ops := zone.View(), zone.budget, ClusterInserts(c, adds);
    ApplyNone(zone.naming, z, ops);
    var prefix := Prefix(c);
    var i := 0;
    while i < |adds|
      invariant i <= |adds| && i <= b && zone.budget == b - i
      invariant zone.View() == ApplyAll(zone.naming, z, ops[..i])
    {
      ok := zone.AddARecord(prefix, adds[i]);
      if !ok {
        return;
      }
      ApplyAllNext(zone.naming, z, ops, i);
      i := i + 1;
    }
    Whole(ops);
    ok := true;
  }

  method AddNodeRecords(c: Cluster, zone: DnsService, adds: seq<string>) returns (ok: bool)
    modifies zone
    ensures Ran(zone.naming, old(zone.View()), old(zone.budget), NodeInserts(c, adds), zone.View(), zone.budget, ok)
  {
    hide Apply, ApplyAll, GetNodePrefix;
    ghost var z, b, ops := zone.View(), zone.budget, NodeInserts(c, adds);
    ApplyNone(zone.naming, z, ops);
    var i := 0;
    while i < |adds|
      invariant i <= |adds| && i <= b && zone.budget == b - i
      invariant zone.View() == ApplyAll(zone.naming, z, ops[..i])
    {
      var prefix := GetNodePrefix(c.nodeId, adds[i], c.host);
      ok := zone.AddARecord(prefix, adds[i]);
      if !ok {
        return;
      }
      ApplyAllNext(zone.naming, z, ops, i);
      i := i + 1;
    }
    Whole(ops);
    ok := true;
  }

  method UpdateGroup(c: Cluster, zone: DnsService, group: seq<Record>, ips: seq<string>, single: bool) returns (ok: bool)
    modifies zone
    ensures Ran(zone.naming, old(zone.View()), old(zone.budget),
                Deletes(Dels(group, ips)) +
                (if single then NodeInserts(c, Adds(group, ips)) else ClusterInserts(c, Adds(group, ips))),
                zone.View(), zone.budget, ok)
  {
    hide Ran, Dels, Adds, Deletes, ClusterInserts, NodeInserts;
    ghost var z, b := zone.View(), zone.budget;
    var adds, dels := DiffRecords(group, ips);
    ghost var inserts := if single then NodeInserts(c, adds) else ClusterInserts(c, adds);
    ok := DeleteAll(zone, dels);
    ghost var y, left := zone.View(), zone.budget;
    if !ok {
      RanShort(zone.naming, z, b, Deletes(dels), y, left, inserts);
      return;
    }
    if single {
      ok := AddNodeRecords(c, zone, adds);
    } else {
      ok := AddClusterRecords(c, zone, adds);
    }
    RanThen(zone.naming, z, b, Deletes(dels), y, left, inserts, zone.View(), zone.budget, ok);
  }

  /** The update carries out its plan up to the first refusal, and reports success exactly when there was none. */
  method UpdateDns(c: Cluster, zone: DnsService, ips: seq<string>) returns (ok: bool)
    requires zone.naming == NamingOf(c)
    modifies zone
    ensures ok <==> |Plan(c, old(zone.records), ips)| <= old(zone.budget)
    ensures zone.View() == Try(c, old(zone.View()), Attempt(ips, old(zone.budget)))
    ensures ok ==> zone.View() == Complete(c, old(zone.View()), ips)
  {
    hide Ran, ClusterRecords, NodeRecords, Dels, Adds, Deletes, ClusterInserts, NodeInserts, SplitHost, FirstDot;
    hide Try, Complete;
    ghost var z, b := zone.View(), zone.budget;
    ghost var first, second := ClusterPlan(c, zone.records, ips), NodePlan(c, zone.records, ips);
    var cluster, nodes := SplitRecords(c, zone.records);
    ok := UpdateGroup(c, zone, cluster, ips, false);
    ghost var y, left := zone.View(), zone.budget;
    if !ok {
      RanShort(zone.naming, z, b, first, y, left, second);
    } else {
      ok := UpdateGroup(c, zone, nodes, ips, true);
      RanThen(zone.naming, z, b, first, y, left, second, zone.View(), zone.budget, ok);
    }
    UpdateMeaning(c, z, ips, b, zone.View(), zone.budget, ok);
  }

  lemma UpdateMeaning(c: Cluster, z: Zone, ips: seq<string>, budget: nat, y: Zone, left: nat, ok: bool)
    requires Ran(NamingOf(c), z, budget, Plan(c, z.records, ips), y, left, ok)
    ensures ok <==> |Plan(c, z.records, ips)| <= budget
    ensures y == Try(c, z, Attempt(ips, budget))
    ensures ok ==> y == Complete(c, z, ips)
  {
    hide ApplyAll, Plan;
    if ok {
      assert Upto(Plan(c, z.records, ips), budget) == Plan(c, z.records, ips);
    }
  }
}
