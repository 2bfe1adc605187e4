/** The merge of gateway mentions from a forest of received routing information. */
module GatewayMerge {
  import opened Options
  import opened RoutingInfos
  import opened RoutingIter
  import opened Sequences

  const INITIAL_TTL: u32 := 6
  const U32_MAX: u32 := 0xFFFF_FFFF

  type Ttls = map<SessionId, u32>

  /** `ttl - 1` on a u32, which wraps at zero. */
  function Decremented(ttl: u32): u32 {
    if ttl == 0 then U32_MAX else ttl - 1
  }

  // ----- what the merge does, visit by visit -----

  /** One mention met in the first pass. */
  function Mentioned(m: Ttls, o: Mention): Ttls {
    if o.sessionId in m then
      if m[o.sessionId] < o.ttl then m[o.sessionId := Decremented(o.ttl)] else m
    else m[o.sessionId := Decremented(o.ttl)]
  }

  function MentionPass(os: seq<Mention>): Ttls {
    if os == [] then map[] else Mentioned(MentionPass(os[..|os| - 1]), os[|os| - 1])
  }

  /** One node met in the second pass. */
  function Sighted(m: Ttls, r: RoutingInfo): Ttls {
    if r.sessionId.None? then m
    else if r.nodeType == Gateway then m[r.sessionId.value := INITIAL_TTL]
    else m - {r.sessionId.value}
  }

  function SightPass(m: Ttls, nodes: Forest): Ttls {
    if nodes == [] then m else Sighted(SightPass(m, nodes[..|nodes| - 1]), nodes[|nodes| - 1])
  }

  function Mentions(nodes: Forest): seq<Mention> {
    if nodes == [] then [] else Mentions(nodes[..|nodes| - 1]) + nodes[|nodes| - 1].known
  }

  /** The first Tracker node, if there is one. */
  function FirstTracker(nodes: Forest): Option<RoutingInfo> {
    if nodes == [] then None
    else if nodes[0].nodeType == Tracker then Some(nodes[0])
    else FirstTracker(nodes[1..])
  }

  /** A tracker's relations are all taken for gateways. */
  function TrackerList(infos: Forest): seq<Mention> {
    if infos == [] then []
    else TrackerHead(infos[0]) + TrackerList(infos[1..])
  }

  // ----- what the merge means, session by session -----

  /** The type of the last node that carries s. */
  function LastSighting(nodes: Forest, s: SessionId): Option<NodeType> {
    if nodes == [] then None
    else if HasId(nodes[|nodes| - 1], s) then Some(nodes[|nodes| - 1].nodeType)
    else LastSighting(nodes[..|nodes| - 1], s)
  }

  /** The TTLs with which s is mentioned, in order. */
  function TtlsOf(os: seq<Mention>, s: SessionId): seq<u32> {
    if os == [] then []
    else TtlsOf(os[..|os| - 1], s) + if os[|os| - 1].sessionId == s then [os[|os| - 1].ttl] else []
  }

  function Max(ts: seq<u32>): (m: u32)
    requires ts != []
    ensures m in ts && forall t :: t in ts ==> t <= m
  {
    var last := ts[|ts| - 1];
    if |ts| == 1 then last
    else
      var m := Max(ts[..|ts| - 1]);
      assert ts == ts[..|ts| - 1] + [last];
      if m < last then last else m
  }

  /** The TTL for a session that is only mentioned: one less than the largest, unless the first has wrapped. */
  function MergedTtl(ts: seq<u32>): Option<u32> {
    if ts == [] then None
    else if ts[0] == 0 then Some(U32_MAX)
    else
      assert ts[0] in ts;
      var less: u32 := Max(ts) - 1;
      Some(less)
  }

  /** The TTL the merge must give s, or None when s must be absent. */
  function ExpectedTtl(nodes: Forest, s: SessionId): Option<u32> {
    match LastSighting(nodes, s)
    case Some(nodeType) => if nodeType == Gateway then Some(INITIAL_TTL) else None
    case None => MergedTtl(TtlsOf(Mentions(nodes), s))
  }

  function Find(m: Ttls, s: SessionId): Option<u32> {
    if s in m then Some(m[s]) else None
  }

  /** The first pass keeps one less than the maximum, unless the very first mention has wrapped around. */
  lemma {:induction false} MentionPassMeaning(os: seq<Mention>, s: SessionId)
    ensures Find(MentionPass(os), s) == MergedTtl(TtlsOf(os, s))
  {
    if os != [] {
      var init, o := os[..|os| - 1], os[|os| - 1];
      MentionPassMeaning(init, s);
      var before := TtlsOf(init, s);
      if o.sessionId == s {
        var ts := TtlsOf(os, s);
        assert ts == before + [o.ttl];
        assert ts[..|ts| - 1] == before;
      } else {
        assert TtlsOf(os, s) == before;
      }
    }
  }

  /** On an order of mentions that does not start with TTL 0 the result is max - 1, and only then. */
  lemma MergedIsMaxMinusOne(os: seq<Mention>, s: SessionId)
    requires TtlsOf(os, s) != []
    ensures s in MentionPass(os)
    ensures MentionPass(os)[s] == Max(TtlsOf(os, s)) - 1 <==> TtlsOf(os, s)[0] >= 1
  {
    MentionPassMeaning(os, s);
  }

  lemma {:induction false} SightPassMeaning(m: Ttls, nodes: Forest, s: SessionId)
    ensures Find(SightPass(m, nodes), s)
         == match LastSighting(nodes, s)
            case Some(nodeType) => if nodeType == Gateway then Some(INITIAL_TTL) else None
            case None => Find(m, s)
  {
    if nodes != [] {
      SightPassMeaning(m, nodes[..|nodes| - 1], s);
    }
  }

  /** Both passes together give every session its expected TTL. */
  lemma MergeMeaning(nodes: Forest, s: SessionId)
    ensures Find(SightPass(MentionPass(Mentions(nodes)), nodes), s) == ExpectedTtl(nodes, s)
  {
    MentionPassMeaning(Mentions(nodes), s);
    SightPassMeaning(MentionPass(Mentions(nodes)), nodes, s);
  }

  // ----- the list handed out -----

  ghost predicate DistinctIds(list: seq<Mention>) {
    forall i, j :: 0 <= i < j < |list| ==> list[i].sessionId != list[j].sessionId
  }

  /** The lists the merge of f may hand out; their order is that of a hash map, hence free. */
  ghost predicate IsGatewayList(f: Forest, list: seq<Mention>) {
    var nodes := LevelOrder(f);
    match FirstTracker(nodes)
    case Some(tracker) => list == TrackerList(Children(tracker))
    case None =>
      && DistinctIds(list)
      && forall o :: o in list <==> ExpectedTtl(nodes, o.sessionId) == Some(o.ttl)
  }

  /** A tracker's list has its relations in their order, each with an id once, at TTL 6. */
  lemma {:induction false} TrackerListSnoc(infos: Forest, r: RoutingInfo)
    ensures TrackerList(infos + [r])
         == TrackerList(infos) + if r.sessionId.Some? then [Mention(r.sessionId.value, 6)] else []
  {
    if infos == [] {
      Empty(infos, [r]);
      assert [r][1..] == [];
    } else {
      TrackerListSnoc(infos[1..], r);
      Uncons(infos, [r]);
      hide TrackerList, TrackerHead;
      Associate(TrackerHead(infos[0]), TrackerList(infos[1..]),
                if r.sessionId.Some? then [Mention(r.sessionId.value, 6)] else []);
    }
  }

  function TrackerHead(r: RoutingInfo): seq<Mention> {
    if r.sessionId.Some? then [Mention(r.sessionId.value, INITIAL_TTL)] else []
  }

  lemma {:induction false} FirstTrackerAbsent(nodes: Forest)
    ensures FirstTracker(nodes).None? <==> forall r :: r in nodes ==> r.nodeType != Tracker
    ensures FirstTracker(nodes).Some? ==>
              FirstTracker(nodes).value in nodes && FirstTracker(nodes).value.nodeType == Tracker
  {
    if nodes != [] {
      FirstTrackerAbsent(nodes[1..]);
      assert nodes == [nodes[0]] + nodes[1..];
    }
  }

  /** The mentions of one node, on top of those met before. */
  method CollectKnown(soFar: Ttls, known: seq<Mention>, ghost before: seq<Mention>) returns (ttls: Ttls)
    requires soFar == MentionPass(before)
    ensures ttls == MentionPass(before + known)
  {
    ttls := soFar;
    assert before + known[..0] == before;
    for j := 0 to |known|
      invariant ttls == MentionPass(before + known[..j])
    {
      var o := known[j];
      ghost var met := before + known[..j + 1];
      assert met[..|met| - 1] == before + known[..j];
      if o.sessionId in ttls {
        if ttls[o.sessionId] < o.ttl {
          ttls := ttls[o.sessionId := o.ttl - 1];
        }
      } else {
        ttls := ttls[o.sessionId := Decremented(o.ttl)];
      }
    }
    assert known[..|known|] == known;
  }

  /** First pass over the collected nodes. */
  method CollectMentions(all: Forest) returns (ttls: Ttls)
    ensures ttls == MentionPass(Mentions(all))
  {
    ttls := map[];
    for i := 0 to |all|
      invariant ttls == MentionPass(Mentions(all[..i]))
    {
      assert all[..i + 1][..i] == all[..i];
      ttls := CollectKnown(ttls, all[i].known, Mentions(all[..i]));
    }
    assert all[..|all|] == all;
  }

  /** Second pass: the actual node types override the mentions. */
  method ReflectNodeTypes(all: Forest, mentioned: Ttls) returns (ttls: Ttls)
    ensures ttls == SightPass(mentioned, all)
  {
    ttls := mentioned;
    for i := 0 to |all|
      invariant ttls == SightPass(mentioned, all[..i])
    {
      assert all[..i + 1][..i] == all[..i];
      var r := all[i];
      if r.sessionId.None? {
        continue;
      }
      if r.nodeType == Gateway {
        ttls := ttls[r.sessionId.value := INITIAL_TTL];
      } else {
        ttls := ttls - {r.sessionId.value};
      }
    }
    assert all[..|all|] == all;
  }

  /** The entries of a hash map in an unspecified order. */
  method IntoValues(m: Ttls) returns (list: seq<Mention>)
    ensures DistinctIds(list)
    ensures forall o :: o in list <==> Find(m, o.sessionId) == Some(o.ttl)
  {
    list := [];
    var rest := m.Keys;
    while rest != {}
      invariant rest <= m.Keys
      invariant DistinctIds(list)
      invariant forall o :: o in list <==> o.sessionId in m && o.sessionId !in rest && m[o.sessionId] == o.ttl
      decreases |rest|
    {
      var s :| s in rest;
      ghost var before := list;
      assert forall i :: 0 <= i < |list| ==> list[i] in list;
      list := list + [Mention(s, m[s])];
      rest := rest - {s};
      forall o ensures o in list <==> o in before || o == Mention(s, m[s]) {
      }
    }
  }

  method FindTracker(all: Forest) returns (tracker: Option<RoutingInfo>)
    ensures tracker == FirstTracker(all)
  {
    var i := 0;
    while i < |all| && all[i].nodeType != Tracker
      invariant 0 <= i <= |all|
      invariant FirstTracker(all) == FirstTracker(all[i..])
    {
      i := i + 1;
    }
    tracker := if i < |all| then Some(all[i]) else None;
  }

  method GetKnownGatewaySessionIds(f: Forest) returns (list: seq<Mention>)
    ensures IsGatewayList(f, list)
  {
    var visits := CollectWithDepth(f);
    var all := Trees(visits);
    var tracker := FindTracker(all);
    if tracker.Some? {
      if !tracker.value.relation.Infos? {
        return [];
      }
      var gateways := Children(tracker.value);
      list := [];
      for i := 0 to |gateways|
        invariant list == TrackerList(gateways[..i])
      {
        assert gateways[..i + 1] == gateways[..i] + [gateways[i]];
        TrackerListSnoc(gateways[..i], gateways[i]);
        if gateways[i].sessionId.Some? {
          list := list + [Mention(gateways[i].sessionId.value, INITIAL_TTL)];
        }
      }
      assert gateways[..|gateways|] == gateways;
      return;
    }
    var ttls := CollectMentions(all);
    ttls := ReflectNodeTypes(all, ttls);
    list := IntoValues(ttls);
    forall o ensures o in list <==> ExpectedTtl(all, o.sessionId) == Some(o.ttl) {
      MergeMeaning(all, o.sessionId);
    }
  }

  /** The TTL filter and decrement applied before a list is passed on. */
  function NextTtl(list: seq<Mention>): seq<Mention> {
    if list == [] then []
    else NextOf(list[0]) + NextTtl(list[1..])
  }

  lemma {:induction false} NextTtlEntries(list: seq<Mention>)
    ensures forall o :: o in NextTtl(list)
              <==> o.ttl >= 1 && o.ttl < U32_MAX && Mention(o.sessionId, o.ttl + 1) in list
  {
    if list != [] {
      NextTtlEntries(list[1..]);
      forall o ensures o in NextTtl(list)
              <==> o.ttl >= 1 && o.ttl < U32_MAX && Mention(o.sessionId, o.ttl + 1) in list {
        assert list == [list[0]] + list[1..];
      }
    }
  }

  function NextOf(o: Mention): seq<Mention> {
    if o.ttl > 1 then [Mention(o.sessionId, o.ttl - 1)] else []
  }

  /** What is passed on keeps the list's order, and each entry of TTL above 1 once, one lower. */
  lemma {:induction false} NextTtlSnoc(list: seq<Mention>, o: Mention)
    ensures NextTtl([]) == []
    ensures NextTtl(list + [o]) == NextTtl(list) + if o.ttl > 1 then [Mention(o.sessionId, o.ttl - 1)] else []
  {
    if list == [] {
      Empty(list, [o]);
      assert [o][1..] == [];
    } else {
      NextTtlSnoc(list[1..], o);
      Uncons(list, [o]);
      var last := if o.ttl > 1 then [Mention(o.sessionId, o.ttl - 1)] else [];
      assert NextTtl(list[1..] + [o]) == NextTtl(list[1..]) + last;
      hide NextTtl, NextOf;
      Associate(NextOf(list[0]), NextTtl(list[1..]), last);
    }
  }

  method GetKnownGatewaySessionIdsNextTtl(f: Forest) returns (sent: seq<Mention>)
    ensures exists list :: IsGatewayList(f, list) && sent == NextTtl(list)
  {
    var list := GetKnownGatewaySessionIds(f);
    sent := NextTtl(list);
  }

  // ----- independence of the input order -----

  /** Whether a session is a gateway does not depend on where in the nodes one looks. */
  ghost predicate ConsistentTypes(nodes: Forest) {
    forall a, b :: a in nodes && b in nodes && a.sessionId.Some? && a.sessionId == b.sessionId ==>
      (a.nodeType == Gateway <==> b.nodeType == Gateway)
  }

  ghost predicate TrackersAgree(nodes: Forest) {
    forall a, b :: a in nodes && b in nodes && a.nodeType == Tracker && b.nodeType == Tracker ==>
      TrackerList(Children(a)) == TrackerList(Children(b))
  }

  ghost predicate NoZeroMention(nodes: Forest) {
    forall r, o :: r in nodes && o in r.known ==> o.ttl >= 1
  }

  lemma {:induction false} LastSightingMember(nodes: Forest, s: SessionId)
    ensures match LastSighting(nodes, s)
            case Some(nodeType) => exists r :: r in nodes && HasId(r, s) && r.nodeType == nodeType
            case None => forall r :: r in nodes ==> !HasId(r, s)
  {
    if nodes != [] {
      var r := nodes[|nodes| - 1];
      assert nodes == nodes[..|nodes| - 1] + [r];
      if HasId(r, s) {
        assert r in nodes;
      } else {
        LastSightingMember(nodes[..|nodes| - 1], s);
      }
    }
  }

  lemma {:induction false} MentionMembers(nodes: Forest, o: Mention)
    ensures o in Mentions(nodes) <==> exists r :: r in nodes && o in r.known
  {
    if nodes != [] {
      var init, r := nodes[..|nodes| - 1], nodes[|nodes| - 1];
      assert nodes == init + [r];
      MentionMembers(init, o);
      if o in r.known {
        assert r in nodes;
      }
    }
  }

  lemma {:induction false} TtlMembers(os: seq<Mention>, s: SessionId, t: u32)
    ensures t in TtlsOf(os, s) <==> Mention(s, t) in os
  {
    if os != [] {
      TtlMembers(os[..|os| - 1], s, t);
      assert os == os[..|os| - 1] + [os[|os| - 1]];
    }
  }

  lemma MentionedTtls(nodes: Forest, s: SessionId, t: u32)
    ensures t in TtlsOf(Mentions(nodes), s) <==> exists r :: r in nodes && Mention(s, t) in r.known
  {
    TtlMembers(Mentions(nodes), s, t);
    MentionMembers(nodes, Mention(s, t));
  }

  /** The expected TTL depends only on which nodes are there, not on their order. */
  lemma ExpectedTtlUnordered(a: Forest, b: Forest, s: SessionId)
    requires forall r :: r in a <==> r in b
    requires ConsistentTypes(a) && NoZeroMention(a)
    ensures ExpectedTtl(a, s) == ExpectedTtl(b, s)
  {
    LastSightingMember(a, s);
    LastSightingMember(b, s);
    if LastSighting(a, s).None? {
      var ta, tb := TtlsOf(Mentions(a), s), TtlsOf(Mentions(b), s);
      forall t ensures t in ta <==> t in tb {
        MentionedTtls(a, s, t);
        MentionedTtls(b, s, t);
      }
      assert ta != [] ==> ta[0] in tb;
      assert tb != [] ==> tb[0] in ta;
      if ta != [] {
        MentionedTtls(a, s, ta[0]);
        MentionedTtls(a, s, tb[0]);
        assert Max(ta) == Max(tb);
      }
    }
  }

  lemma {:induction false} PreorderAllSplit(f: Forest, depth: nat, v: Visit)
    ensures v in PreorderAll(f, depth) <==> exists t :: t in f && v in Preorder(t, depth)
  {
    if f != [] {
      PreorderAllSplit(f[1..], depth, v);
      assert f == [f[0]] + f[1..];
      if v in Preorder(f[0], depth) {
        assert f[0] in f && v in PreorderAll(f, depth);
      } else if v in PreorderAll(f, depth) {
        var t :| t in f[1..] && v in Preorder(t, depth);
        assert t in f;
      }
    }
  }

  /** Two forests with the same trees have the same nodes. */
  lemma SameTreesSameNodes(f: Forest, g: Forest)
    requires forall t :: t in f <==> t in g
    ensures forall r :: r in LevelOrder(f) ==> r in LevelOrder(g)
  {
    forall r | r in LevelOrder(f) ensures r in LevelOrder(g) {
      var i :| 0 <= i < |Levels(f, 0)| && LevelOrder(f)[i] == r;
      var v := Levels(f, 0)[i];
      LevelOrderMembers(f, 0);
      LevelOrderMembers(g, 0);
      PreorderAllSplit(f, 0, v);
      PreorderAllSplit(g, 0, v);
      assert v in Levels(g, 0);
      var j :| 0 <= j < |Levels(g, 0)| && Levels(g, 0)[j] == v;
      assert LevelOrder(g)[j] == r;
    }
  }

  /** With consistent types, agreeing trackers and no mention of TTL 0, permuting the forest changes nothing. */
  lemma MergePermutationInvariant(f: Forest, g: Forest, list: seq<Mention>)
    requires multiset(f) == multiset(g)
    requires var nodes := LevelOrder(f);
             ConsistentTypes(nodes) && TrackersAgree(nodes) && NoZeroMention(nodes)
    ensures IsGatewayList(f, list) <==> IsGatewayList(g, list)
  {
    forall t ensures t in f <==> t in g {
      assert t in f <==> t in multiset(f);
      assert t in g <==> t in multiset(g);
    }
    SameTreesSameNodes(f, g);
    SameTreesSameNodes(g, f);
    var a, b := LevelOrder(f), LevelOrder(g);
    FirstTrackerAbsent(a);
    FirstTrackerAbsent(b);
    forall s ensures ExpectedTtl(a, s) == ExpectedTtl(b, s) {
      ExpectedTtlUnordered(a, b, s);
    }
  }

  function Leaf(nodeType: NodeType, s: SessionId, known: seq<Mention>): RoutingInfo {
    RoutingInfo(nodeType, Some(s), NoRelation, known, NO_PAYLOAD)
  }

  lemma LeavesLevelOrder(a: RoutingInfo, b: RoutingInfo)
    requires a.relation.NoRelation? && b.relation.NoRelation?
    ensures LevelOrder([a, b]) == [a, b]
  {
    var f := [a, b];
    assert AllChildren(f[1..]) == [] by { assert f[1..][1..] == []; }
    assert AllChildren(f) == [];
    assert Levels(f, 0) == Tag(f, 0);
  }

  /** The passes over two leaves, unrolled. */
  lemma TwoLeaves(a: RoutingInfo, b: RoutingInfo, s: SessionId)
    ensures Mentions([a, b]) == a.known + b.known
    ensures LastSighting([a, b], s)
         == if HasId(b, s) then Some(b.nodeType) else if HasId(a, s) then Some(a.nodeType) else None
  {
    assert [a, b][..1] == [a];
    assert [a][..0] == [];
    assert Mentions([a]) == a.known;
    assert LastSighting([a], s) == if HasId(a, s) then Some(a.nodeType) else None;
  }

  lemma TwoMentions(s: SessionId, t: u32, u: u32)
    ensures TtlsOf([Mention(s, t)] + [Mention(s, u)], s) == [t, u]
  {
    var os := [Mention(s, t), Mention(s, u)];
    assert os[..1] == [os[0]];
    assert TtlsOf([os[0]], s) == [t];
  }

  /** A session seen with two types takes the later one: swapping the two trees changes the result. */
  lemma InconsistentTypesOrderMatters(s: SessionId, a: RoutingInfo, b: RoutingInfo)
    requires a == Leaf(Gateway, s, []) && b == Leaf(Normal, s, [])
    ensures ExpectedTtl(LevelOrder([a, b]), s) == None
    ensures ExpectedTtl(LevelOrder([b, a]), s) == Some(INITIAL_TTL)
  {
    LeavesLevelOrder(a, b);
    LeavesLevelOrder(b, a);
    TwoLeaves(a, b, s);
    TwoLeaves(b, a, s);
  }

  /** A mention of TTL 0 wraps around when it comes first and is ignored when it comes second. */
  lemma ZeroMentionOrderMatters(x: SessionId, y: SessionId, s: SessionId, a: RoutingInfo, b: RoutingInfo)
    requires s != x && s != y
    requires a == Leaf(Normal, x, [Mention(s, 0)]) && b == Leaf(Normal, y, [Mention(s, 3)])
    ensures ExpectedTtl(LevelOrder([a, b]), s) == Some(U32_MAX)
    ensures ExpectedTtl(LevelOrder([b, a]), s) == Some(2)
  {
    LeavesLevelOrder(a, b);
    LeavesLevelOrder(b, a);
    TwoLeaves(a, b, s);
    TwoLeaves(b, a, s);
    TwoMentions(s, 0, 3);
    TwoMentions(s, 3, 0);
    assert Max([3, 0]) == 3;
  }

  /** Two trackers with different relations: the first one visited decides. */
  lemma DisagreeingTrackersOrderMatters(a: RoutingInfo, b: RoutingInfo)
    requires a.nodeType == Tracker && b.nodeType == Tracker
    requires TrackerList(Children(a)) != TrackerList(Children(b))
    ensures !exists list :: IsGatewayList([a, b], list) && IsGatewayList([b, a], list)
  {
    forall p: RoutingInfo, q: RoutingInfo ensures LevelOrder([p, q])[..2] == [p, q] && |LevelOrder([p, q])| >= 2 {
      assert Levels([p, q], 0)[..2] == Tag([p, q], 0);
      assert LevelOrder([p, q])[..2] == [p, q];
    }
    assert LevelOrder([a, b])[0] == LevelOrder([a, b])[..2][0] == a;
    assert LevelOrder([b, a])[0] == LevelOrder([b, a])[..2][0] == b;
  }
}
