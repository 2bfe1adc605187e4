/** Depth queries on routing trees, and the depth-limited pruning done before a tree is sent. */
module RoutingTree {
  import opened Options
  import opened RoutingInfos
  import opened RoutingIter
  import opened Sequences

  // ----- minimum depth and membership -----

  /** The depths at which the visits show session s. */
  function Depths(visits: seq<Visit>, s: SessionId): seq<nat> {
    if visits == [] then []
    else (if HasId(visits[0].0, s) then [visits[0].1] else []) + Depths(visits[1..], s)
  }

  /** The first element after sorting, if there is one. */
  function Minimum(xs: seq<nat>): Option<nat> {
    if xs == [] then None else Least(Some(xs[0]), Minimum(xs[1..]))
  }

  function GetMinDepth(t: RoutingInfo, s: SessionId): Option<nat> {
    Minimum(Depths(Levels([t], 0), s))
  }

  predicate IsKnown(t: RoutingInfo, s: SessionId) {
    exists n :: n in LevelOrder([t]) && HasId(n, s)
  }

  function AddKnown(t: RoutingInfo, s: SessionId): RoutingInfo {
    var infos := Children(t);
    t.(relation := Infos(infos + [RoutingInfo(Normal, Some(s), NoRelation, [], NO_PAYLOAD)]))
  }

  /** Reference: minimum depth by recursion on the tree. */
  function MinDepth(t: RoutingInfo, s: SessionId): Option<nat>
    decreases t, 1
  {
    if HasId(t, s) then Some(0)
    else
      match t.relation
      case Infos(infos) => Plus(MinDepthAll(infos, s), 1)
      case _ => None
  }

  function MinDepthAll(f: Forest, s: SessionId): Option<nat>
    decreases f, 0
  {
    if f == [] then None else Least(MinDepth(f[0], s), MinDepthAll(f[1..], s))
  }

  /** m is the least depth at which the visits show s, or None when they do not show it. */
  ghost predicate IsLeastDepth(visits: seq<Visit>, s: SessionId, m: Option<nat>) {
    && (forall v :: v in visits && HasId(v.0, s) ==> m.Some? && m.value <= v.1)
    && (m.Some? ==> exists v :: v in visits && HasId(v.0, s) && v.1 == m.value)
  }

  lemma {:induction false} MinimumOfDepths(visits: seq<Visit>, s: SessionId)
    ensures IsLeastDepth(visits, s, Minimum(Depths(visits, s)))
  {
    if visits != [] {
      var v := visits[0];
      MinimumOfDepths(visits[1..], s);
      assert visits == [v] + visits[1..];
      if HasId(v.0, s) {
        assert Depths(visits, s)[1..] == Depths(visits[1..], s);
        assert v in visits;
      } else {
        assert Depths(visits, s) == Depths(visits[1..], s);
      }
    }
  }

  lemma {:induction false} MinDepthIsLeast(t: RoutingInfo, s: SessionId, depth: nat)
    ensures IsLeastDepth(Preorder(t, depth), s, Plus(MinDepth(t, s), depth))
    decreases t, 1
  {
    var here := [(t, depth)];
    assert (t, depth) in here;
    assert IsLeastDepth(here, s, if HasId(t, s) then Some(depth) else None);
    match t.relation
    case Infos(infos) =>
      MinDepthAllIsLeast(infos, s, depth + 1);
    case _ =>
  }

  lemma {:induction false} MinDepthAllIsLeast(f: Forest, s: SessionId, depth: nat)
    ensures IsLeastDepth(PreorderAll(f, depth), s, Plus(MinDepthAll(f, s), depth))
    decreases f, 0
  {
    if f != [] {
      MinDepthIsLeast(f[0], s, depth);
      MinDepthAllIsLeast(f[1..], s, depth);
    }
  }

  lemma PreorderSingleton(t: RoutingInfo, depth: nat)
    ensures PreorderAll([t], depth) == Preorder(t, depth)
  {
    assert [t][1..] == [];
  }

  /** The search over the queue order finds the structural minimum, and finds one exactly for known sessions. */
  lemma MinDepthIsStructural(t: RoutingInfo, s: SessionId)
    ensures GetMinDepth(t, s) == MinDepth(t, s)
    ensures IsKnown(t, s) <==> GetMinDepth(t, s).Some?
  {
    var visits := Levels([t], 0);
    MinimumOfDepths(visits, s);
    MinDepthIsLeast(t, s, 0);
    PreorderSingleton(t, 0);
    LevelOrderMembers([t], 0);
    assert IsLeastDepth(visits, s, MinDepth(t, s));
    if n :| n in LevelOrder([t]) && HasId(n, s) {
      var i :| 0 <= i < |visits| && visits[i].0 == n;
      assert visits[i] in visits;
    }
    if v :| v in visits && HasId(v.0, s) {
      var i :| 0 <= i < |visits| && visits[i] == v;
      assert LevelOrder([t])[i] == v.0;
    }
  }

  lemma {:induction false} MinDepthAllSnoc(f: Forest, leaf: RoutingInfo, s: SessionId)
    ensures MinDepthAll(f + [leaf], s) == Least(MinDepthAll(f, s), MinDepth(leaf, s))
  {
    if f == [] {
      assert f + [leaf] == [leaf];
    } else {
      assert (f + [leaf])[1..] == f[1..] + [leaf];
      MinDepthAllSnoc(f[1..], leaf, s);
    }
  }

  lemma AddKnownMinDepth(t: RoutingInfo, s: SessionId, x: SessionId)
    ensures MinDepth(AddKnown(t, s), x) == if x == s then Least(MinDepth(t, x), Some(1)) else MinDepth(t, x)
  {
    MinDepthAllSnoc(Children(t), RoutingInfo(Normal, Some(s), NoRelation, [], NO_PAYLOAD), x);
  }

  /** Adding s makes exactly s known in addition, at depth at most one, and moves no other session. */
  lemma AddKnownEffect(t: RoutingInfo, s: SessionId, x: SessionId)
    ensures IsKnown(AddKnown(t, s), x) <==> IsKnown(t, x) || x == s
    ensures GetMinDepth(AddKnown(t, s), x)
         == if x == s then Least(GetMinDepth(t, x), Some(1)) else GetMinDepth(t, x)
  {
    hide GetMinDepth, IsKnown, AddKnown, MinDepth;
    MinDepthIsStructural(t, x);
    MinDepthIsStructural(AddKnown(t, s), x);
    AddKnownMinDepth(t, s, x);
  }

  /** The tree with s added is the tree as it was, with a Normal leaf for s after all of it, one level below the root. */
  lemma AddKnownShape(t: RoutingInfo, s: SessionId, depth: nat)
    ensures var leaf: Visit := (RoutingInfo(Normal, Some(s), NoRelation, [], NO_PAYLOAD), depth + 1);
            && AddKnown(t, s).relation.Infos? && AddKnown(t, s) == t.(relation := AddKnown(t, s).relation)
            && Preorder(AddKnown(t, s), depth) == [(AddKnown(t, s), depth)] + Preorder(t, depth)[1..] + [leaf]
  {
    var leaf := RoutingInfo(Normal, Some(s), NoRelation, [], NO_PAYLOAD);
    var infos := Children(t);
    PreorderConcat(infos, [leaf], depth + 1);
    PreorderSingleton(leaf, depth + 1);
    var visit: Visit := (leaf, depth + 1);
    assert Preorder(leaf, depth + 1) == [visit];
    Associate([(AddKnown(t, s), depth)], PreorderAll(infos, depth + 1), [visit]);
    assert Preorder(t, depth)[1..] == PreorderAll(infos, depth + 1);
  }

  // ----- pruning before sending -----

  predicate Forwardable(t: RoutingInfo) {
    t.nodeType == Normal || t.nodeType == Gateway
  }

  function ToSendData(t: RoutingInfo, depth: nat): RoutingInfo
    decreases depth, 0
  {
    var res := t.(known := []);
    if depth == 0 then res.(relation := Count(Truncate(RelationCount(t))))
    else
      match t.relation
      case Infos(infos) => res.(relation := Infos(SendAll(infos, depth - 1)))
      case _ => res
  }

  function SendAll(f: Forest, depth: nat): Forest
    decreases depth, |f|
  {
    if f == [] then []
    else (if Forwardable(f[0]) then [ToSendData(f[0], depth)] else []) + SendAll(f[1..], depth)
  }

  /** What a receiver may rely on for a visit of a tree whose root sits at depth `base`. */
  predicate Sendable(v: Visit, base: nat, depth: nat) {
    base <= v.1 <= base + depth && v.0.known == [] && (v.1 > base ==> Forwardable(v.0))
  }

  lemma {:induction false} SentVisits(t: RoutingInfo, depth: nat, base: nat)
    ensures forall v :: v in Preorder(ToSendData(t, depth), base) ==> Sendable(v, base, depth)
    decreases depth, 0
  {
    if depth > 0 && t.relation.Infos? {
      SentVisitsAll(t.relation.infos, depth - 1, base + 1);
    }
  }

  lemma {:induction false} SentVisitsAll(f: Forest, depth: nat, base: nat)
    ensures forall v :: v in PreorderAll(SendAll(f, depth), base) ==>
              Sendable(v, base, depth) && Forwardable(v.0)
    decreases depth, |f|
  {
    if f != [] {
      SentVisitsAll(f[1..], depth, base);
      if Forwardable(f[0]) {
        var first := ToSendData(f[0], depth);
        SentVisits(f[0], depth, base);
        assert SendAll(f, depth)[1..] == SendAll(f[1..], depth);
        assert Preorder(first, base)[0] == (first, base);
        SentRoots(first, base);
      } else {
        assert SendAll(f, depth) == SendAll(f[1..], depth);
      }
    }
  }

  /** Only the root of a tree is visited at the root's depth. */
  lemma {:induction false} SentRoots(t: RoutingInfo, base: nat)
    ensures forall v :: v in Preorder(t, base) ==> v == (t, base) || v.1 > base
  {
    if t.relation.Infos? {
      DeeperAll(t.relation.infos, base + 1);
    }
  }

  lemma {:induction false} DeeperAll(f: Forest, base: nat)
    ensures forall v :: v in PreorderAll(f, base) ==> v.1 >= base
    decreases f, 0
  {
    if f != [] {
      if f[0].relation.Infos? {
        DeeperAll(f[0].relation.infos, base + 1);
      }
      DeeperAll(f[1..], base);
    }
  }

  /** A sent tree is at most `depth` deep, tells no known gateways, and relays only Normal and Gateway nodes. */
  lemma ToSendDataShape(t: RoutingInfo, depth: nat)
    ensures forall v :: v in Levels([ToSendData(t, depth)], 0) ==>
              v.1 <= depth && v.0.known == [] && (v.1 > 0 ==> Forwardable(v.0))
  {
    SentVisits(t, depth, 0);
    PreorderSingleton(ToSendData(t, depth), 0);
    LevelOrderMembers([ToSendData(t, depth)], 0);
  }

  /** What a receiver sees of a node; `leaf` is its relation if it lists no nodes. In a listing with depths, parents
      before their children, this determines the tree. */
  datatype Sight = Sight(nodeType: NodeType, sessionId: Option<SessionId>, payload: Payload, depth: nat,
                         leaf: Option<Relation>)

  function SightOf(v: Visit): Sight {
    var (t, depth) := v;
    Sight(t.nodeType, t.sessionId, t.payload, depth, if t.relation.Infos? then None else Some(t.relation))
  }

  function SightsOf(visits: seq<Visit>): seq<Sight> {
    if visits == [] then [] else [SightOf(visits[0])] + SightsOf(visits[1..])
  }

  /** The nodes of t down to `budget` levels below it that are reached through Normal and Gateway descendants, in
      order and unchanged, those of the last level with the 32-bit number of their relations in place of these. */
  function Relayed(t: RoutingInfo, budget: nat, depth: nat): seq<Sight>
    decreases t, 1
  {
    var cut := match t.relation
      case Infos(infos) => Count(|infos| % 0x1_0000_0000)
      case Count(v) => Count(v)
      case NoRelation => Count(0);
    if budget == 0 then [Sight(t.nodeType, t.sessionId, t.payload, depth, Some(cut))]
    else
      match t.relation
      case Infos(infos) =>
        [Sight(t.nodeType, t.sessionId, t.payload, depth, None)] + RelayedAll(infos, budget - 1, depth + 1)
      case leaf => [Sight(t.nodeType, t.sessionId, t.payload, depth, Some(leaf))]
  }

  function RelayedAll(f: Forest, budget: nat, depth: nat): seq<Sight>
    decreases f, 0
  {
    if f == [] then []
    else
      (if f[0].nodeType == Normal || f[0].nodeType == Gateway then Relayed(f[0], budget, depth) else [])
      + RelayedAll(f[1..], budget, depth)
  }

  lemma {:induction false} SightsConcat(a: seq<Visit>, b: seq<Visit>)
    ensures SightsOf(a + b) == SightsOf(a) + SightsOf(b)
  {
    if a == [] {
      Empty(a, b);
      Empty(SightsOf(a), SightsOf(b));
    } else {
      SightsConcat(a[1..], b);
      hide SightsOf, SightOf;
      Uncons(a, b);
      Associate([SightOf(a[0])], SightsOf(a[1..]), SightsOf(b));
    }
  }

  /** A sent tree is the part of the tree that may be relayed, node by node as it was. */
  lemma {:induction false} SentAsItWas(t: RoutingInfo, budget: nat, depth: nat)
    ensures SightsOf(Preorder(ToSendData(t, budget), depth)) == Relayed(t, budget, depth)
    decreases budget, 0
  {
    var sent := ToSendData(t, budget);
    var visit: Visit := (sent, depth);
    assert SightsOf([visit]) == [SightOf(visit)] by {
      var one := [visit];
      assert one[1..] == [];
    }
    if budget > 0 && t.relation.Infos? {
      SentAsTheyWere(t.relation.infos, budget - 1, depth + 1);
      SightsConcat([visit], PreorderAll(SendAll(t.relation.infos, budget - 1), depth + 1));
    }
  }

  lemma {:induction false} SentAsTheyWere(f: Forest, budget: nat, depth: nat)
    ensures SightsOf(PreorderAll(SendAll(f, budget), depth)) == RelayedAll(f, budget, depth)
    decreases budget, |f|
  {
    if f != [] {
      SentAsTheyWere(f[1..], budget, depth);
      if Forwardable(f[0]) {
        SentAsItWas(f[0], budget, depth);
        var sent, rest := ToSendData(f[0], budget), SendAll(f[1..], budget);
        assert SendAll(f, budget) == [sent] + rest;
        Uncons([sent], rest);
        assert PreorderAll([sent] + rest, depth) == Preorder(sent, depth) + PreorderAll(rest, depth);
        SightsConcat(Preorder(sent, depth), PreorderAll(rest, depth));
      } else {
        assert SendAll(f, budget) == SendAll(f[1..], budget);
      }
    }
  }

  /** Depth of the shallowest occurrence of s reachable through Normal and Gateway descendants only. */
  function MinDepthVia(t: RoutingInfo, s: SessionId): Option<nat>
    decreases t, 1
  {
    if HasId(t, s) then Some(0)
    else
      match t.relation
      case Infos(infos) => Plus(MinDepthViaAll(infos, s), 1)
      case _ => None
  }

  function MinDepthViaAll(f: Forest, s: SessionId): Option<nat>
    decreases f, 0
  {
    if f == [] then None
    else Least(if Forwardable(f[0]) then MinDepthVia(f[0], s) else None, MinDepthViaAll(f[1..], s))
  }

  function AtMost(m: Option<nat>, depth: nat): Option<nat> {
    if m.Some? && m.value <= depth then m else None
  }

  lemma {:induction false} SentMinDepth(t: RoutingInfo, depth: nat, s: SessionId)
    ensures MinDepth(ToSendData(t, depth), s) == AtMost(MinDepthVia(t, s), depth)
    decreases depth, 0
  {
    if depth > 0 && t.relation.Infos? {
      SentMinDepthAll(t.relation.infos, depth - 1, s);
    }
  }

  lemma {:induction false} SentMinDepthAll(f: Forest, depth: nat, s: SessionId)
    ensures MinDepthAll(SendAll(f, depth), s) == AtMost(MinDepthViaAll(f, s), depth)
    decreases depth, |f|
  {
    if f != [] {
      SentMinDepthAll(f[1..], depth, s);
      if Forwardable(f[0]) {
        SentMinDepth(f[0], depth, s);
        assert SendAll(f, depth)[1..] == SendAll(f[1..], depth);
      } else {
        assert SendAll(f, depth) == SendAll(f[1..], depth);
      }
    }
  }

  /** In a sent tree s is at depth k exactly when its shallowest relayable occurrence is at depth k <= depth. */
  lemma ToSendDataMinDepth(t: RoutingInfo, depth: nat, s: SessionId)
    ensures GetMinDepth(ToSendData(t, depth), s) == AtMost(MinDepthVia(t, s), depth)
    ensures IsKnown(ToSendData(t, depth), s) <==> AtMost(MinDepthVia(t, s), depth).Some?
  {
    SentMinDepth(t, depth, s);
    MinDepthIsStructural(ToSendData(t, depth), s);
  }

  /** The children that survive one pruning step. */
  function Kept(f: Forest): Forest {
    if f == [] then [] else (if Forwardable(f[0]) then [f[0]] else []) + Kept(f[1..])
  }

  lemma {:induction false} KeptCount(f: Forest, depth: nat)
    ensures |SendAll(f, depth)| == |Kept(f)| <= |f|
  {
    if f != [] {
      KeptCount(f[1..], depth);
    }
  }

  /** A second pruning that is not stricter changes nothing. */
  lemma {:induction false} PruneIdempotent(t: RoutingInfo, d: nat, e: nat)
    requires e >= d
    ensures ToSendData(ToSendData(t, d), e) == ToSendData(t, d)
    decreases d, 0
  {
    if d > 0 && t.relation.Infos? {
      PruneIdempotentAll(t.relation.infos, d - 1, e - 1);
    }
  }

  lemma {:induction false} PruneIdempotentAll(f: Forest, d: nat, e: nat)
    requires e >= d
    ensures SendAll(SendAll(f, d), e) == SendAll(f, d)
    decreases d, |f|
  {
    if f != [] {
      PruneIdempotentAll(f[1..], d, e);
      if Forwardable(f[0]) {
        PruneIdempotent(f[0], d, e);
        assert SendAll(f, d)[1..] == SendAll(f[1..], d);
      } else {
        assert SendAll(f, d) == SendAll(f[1..], d);
      }
    }
  }

  /** At every relayable node of depth e the dropped children do not show in the 32-bit count. */
  predicate CutAgrees(t: RoutingInfo, e: nat)
    decreases e, 0
  {
    match t.relation
    case Infos(infos) =>
      if e == 0 then (|infos| - |Kept(infos)|) % 0x1_0000_0000 == 0
      else CutAgreesAll(infos, e - 1)
    case _ => true
  }

  predicate CutAgreesAll(f: Forest, e: nat)
    decreases e, |f|
  {
    f == [] || ((Forwardable(f[0]) ==> CutAgrees(f[0], e)) && CutAgreesAll(f[1..], e))
  }

  /** A stricter second pruning equals pruning once exactly when the counts at its frontier agree. */
  lemma {:induction false} PruneComposes(t: RoutingInfo, d: nat, e: nat)
    requires e < d
    ensures ToSendData(ToSendData(t, d), e) == ToSendData(t, e) <==> CutAgrees(t, e)
    decreases e, 0
  {
    if t.relation.Infos? {
      var infos := t.relation.infos;
      if e == 0 {
        KeptCount(infos, d - 1);
      } else {
        PruneComposesAll(infos, d - 1, e - 1);
      }
    }
  }

  lemma {:induction false} PruneComposesAll(f: Forest, d: nat, e: nat)
    requires e < d
    ensures SendAll(SendAll(f, d), e) == SendAll(f, e) <==> CutAgreesAll(f, e)
    decreases e, |f|
  {
    if f != [] {
      PruneComposesAll(f[1..], d, e);
      if Forwardable(f[0]) {
        PruneComposes(f[0], d, e);
        assert SendAll(f, d)[1..] == SendAll(f[1..], d);
        var twice, once := SendAll(SendAll(f, d), e), SendAll(f, e);
        assert twice[0] == ToSendData(ToSendData(f[0], d), e) && once[0] == ToSendData(f[0], e);
        assert twice[1..] == SendAll(SendAll(f[1..], d), e) && once[1..] == SendAll(f[1..], e);
        assert twice == [twice[0]] + twice[1..] && once == [once[0]] + once[1..];
      } else {
        assert SendAll(f, d) == SendAll(f[1..], d);
        assert SendAll(f, e) == SendAll(f[1..], e);
      }
    }
  }

  /** Every descendant is a Normal or Gateway node. */
  predicate AllForwardable(f: Forest)
    decreases f
  {
    f == []
    || (&& Forwardable(f[0])
        && (f[0].relation.Infos? ==> AllForwardable(f[0].relation.infos))
        && AllForwardable(f[1..]))
  }

  lemma {:induction false} AllForwardableCuts(f: Forest, e: nat)
    requires AllForwardable(f)
    ensures Kept(f) == f && CutAgreesAll(f, e)
    decreases f
  {
    if f != [] {
      AllForwardableCuts(f[1..], e);
      if f[0].relation.Infos? {
        AllForwardableCuts(f[0].relation.infos, if e == 0 then 0 else e - 1);
      }
    }
  }

  /** Without foreign descendants, pruning twice is pruning at the smaller depth. */
  lemma PruneMin(t: RoutingInfo, d: nat, e: nat)
    requires t.relation.Infos? ==> AllForwardable(t.relation.infos)
    ensures ToSendData(ToSendData(t, d), e) == ToSendData(t, if d <= e then d else e)
  {
    if d <= e {
      PruneIdempotent(t, d, e);
    } else {
      PruneComposes(t, d, e);
      if t.relation.Infos? {
        AllForwardableCuts(t.relation.infos, if e == 0 then 0 else e - 1);
      }
    }
  }
}
